/** Price lookup: the canonical-name index, the price history and the layered resolver. */
module Pricing {
  import opened Options

  const LONG_CONTEXT := 128000

  datatype Source = Unset | Overrides | History | LiteLLM | LiteLLMNormalized

  datatype UnitPrices = UnitPrices(input: real, output: real, cacheCreation: real, cacheRead: real, reasoning: real,
    inputAbove: real, outputAbove: real, source: Source, effectiveFrom: int)

  datatype ModelKey = ModelKey(provider: string, model: string)

  datatype OverrideKey = OverrideKey(org: string, provider: string, model: string)

  datatype HistoryEntry = HistoryEntry(effectiveFrom: int, prices: UnitPrices)

  // ---- the order of model keys ----

  /** Go's order on strings. */
  predicate Less(a: string, b: string) {
    b != "" && (a == "" || a[0] < b[0] || (a[0] == b[0] && Less(a[1..], b[1..])))
  }

  lemma {:induction false} LessTotal(a: string, b: string)
    ensures a == b || Less(a, b) || Less(b, a)
    ensures !(Less(a, b) && Less(b, a)) && !Less(a, a)
  {
    if a != "" && b != "" {
      LessTotal(a[1..], b[1..]);
      assert a == [a[0]] + a[1..] && b == [b[0]] + b[1..];
    }
    if a != "" {
      LessTotal(a[1..], a[1..]);
    }
  }

  lemma {:induction false} LessTransitive(a: string, b: string, c: string)
    requires Less(a, b) && Less(b, c)
    ensures Less(a, c)
  {
    if a != "" && a[0] == b[0] && b[0] == c[0] {
      LessTransitive(a[1..], b[1..], c[1..]);
    }
  }

  /** The comparison handed to the sort: by model, then by provider. */
  predicate KeyLess(a: ModelKey, b: ModelKey) {
    if a.model != b.model then Less(a.model, b.model) else Less(a.provider, b.provider)
  }

  lemma KeyLessTotal(a: ModelKey, b: ModelKey)
    ensures a == b || KeyLess(a, b) || KeyLess(b, a)
    ensures !(KeyLess(a, b) && KeyLess(b, a))
  {
    LessTotal(a.model, b.model);
    LessTotal(a.provider, b.provider);
  }

  lemma KeyLessTransitive(a: ModelKey, b: ModelKey, c: ModelKey)
    requires KeyLess(a, b) && KeyLess(b, c)
    ensures KeyLess(a, c)
  {
    LessTotal(a.model, b.model);
    LessTotal(b.model, c.model);
    if a.model == b.model == c.model {
      LessTransitive(a.provider, b.provider, c.provider);
    } else if a.model != b.model && b.model != c.model {
      LessTransitive(a.model, b.model, c.model);
      LessTotal(a.model, c.model);
    }
  }

  predicate Ascending(keys: seq<ModelKey>) {
    forall i, j :: 0 <= i < j < |keys| ==> KeyLess(keys[i], keys[j])
  }

  /** Place a key among sorted keys. */
  function Insert(k: ModelKey, keys: seq<ModelKey>): (r: seq<ModelKey>)
    requires Ascending(keys) && k !in keys
    ensures Ascending(r) && (forall x :: x in r <==> x == k || x in keys)
  {
    if keys == [] then [k]
    else
      KeyLessTotal(k, keys[0]);
      if KeyLess(k, keys[0]) then
        assert forall j :: 0 < j < |keys| ==> KeyLess(keys[0], keys[j]);
        InsertFront(k, keys);
        [k] + keys
      else
        assert forall x :: x in keys <==> x == keys[0] || x in keys[1..];
        var rest := Insert(k, keys[1..]);
        assert forall j :: 0 <= j < |rest| ==> rest[j] in rest;
        [keys[0]] + rest
  }

  lemma InsertFront(k: ModelKey, keys: seq<ModelKey>)
    requires Ascending(keys) && keys != [] && KeyLess(k, keys[0])
    ensures Ascending([k] + keys)
  {
    forall j | 0 <= j < |keys|
      ensures KeyLess(k, keys[j])
    {
      if j > 0 {
        KeyLessTransitive(k, keys[0], keys[j]);
      }
    }
  }

  function Sort(keys: seq<ModelKey>): (r: seq<ModelKey>)
    requires forall i, j :: 0 <= i < j < |keys| ==> keys[i] != keys[j]
    ensures Ascending(r) && forall k :: k in r <==> k in keys
  {
    if keys == [] then []
    else
      assert forall k :: k in keys <==> k == keys[0] || k in keys[1..];
      assert keys[0] !in keys[1..];
      Insert(keys[0], Sort(keys[1..]))
  }

  // ---- the canonical index ----

  predicate Native(canon: string -> string, k: ModelKey) {
    canon(k.model) == k.model
  }

  /**
   The entry that gives a canonical name its price: of the native entries the one with the last
   provider; without a native entry, the first key in sort order.
   */
  ghost predicate Winner(litellm: map<ModelKey, UnitPrices>, canon: string -> string, name: string, k: ModelKey) {
    && k in litellm && canon(k.model) == name
    && if Native(canon, k) then
         forall o :: o in litellm && canon(o.model) == name && Native(canon, o) ==> o == k || Less(o.provider, k.provider)
       else
         forall o :: o in litellm && canon(o.model) == name ==> o == k || (!Native(canon, o) && KeyLess(k, o))
  }

  ghost predicate Gives(litellm: map<ModelKey, UnitPrices>, canon: string -> string, name: string, k: ModelKey, price: UnitPrices) {
    k in litellm && canon(k.model) == name && Winner(litellm, canon, name, k) && litellm[k] == price
  }

  /** What the index must be; nothing in it mentions an order of iteration. */
  ghost predicate IsIndex(litellm: map<ModelKey, UnitPrices>, canon: string -> string, index: map<string, UnitPrices>) {
    && (forall k :: k in litellm ==> canon(k.model) in index)
    && (forall name :: name in index ==> exists k :: Gives(litellm, canon, name, k, index[name]))
  }

  lemma WinnerUnique(litellm: map<ModelKey, UnitPrices>, canon: string -> string, name: string, k: ModelKey, o: ModelKey)
    requires Winner(litellm, canon, name, k) && Winner(litellm, canon, name, o)
    ensures k == o
  {
    LessTotal(k.provider, o.provider);
    KeyLessTotal(k, o);
  }

  lemma IndexIncluded(litellm: map<ModelKey, UnitPrices>, canon: string -> string,
    a: map<string, UnitPrices>, b: map<string, UnitPrices>, name: string)
    requires IsIndex(litellm, canon, a) && IsIndex(litellm, canon, b) && name in a
    ensures name in b && b[name] == a[name]
  {
    var ka :| Gives(litellm, canon, name, ka, a[name]);
    assert canon(ka.model) in b;
    var kb :| Gives(litellm, canon, name, kb, b[name]);
    WinnerUnique(litellm, canon, name, ka, kb);
  }

  /** The index is a function of the price map alone, and a name with a native entry carries a native entry's price. */
  lemma IndexDeterministic(litellm: map<ModelKey, UnitPrices>, canon: string -> string, a: map<string, UnitPrices>, b: map<string, UnitPrices>)
    requires IsIndex(litellm, canon, a) && IsIndex(litellm, canon, b)
    ensures a == b
    ensures forall n :: n in litellm && Native(canon, n) ==>
      n.model in a && exists k :: k in litellm && k.model == n.model && a[n.model] == litellm[k]
  {
    forall name | name in a
      ensures name in b && b[name] == a[name]
    {
      IndexIncluded(litellm, canon, a, b, name);
    }
    forall name | name in b
      ensures name in a
    {
      IndexIncluded(litellm, canon, b, a, name);
    }
    hide Gives, Winner;
    forall n | n in litellm && Native(canon, n)
      ensures n.model in a && exists k :: k in litellm && k.model == n.model && a[n.model] == litellm[k]
    {
      var k :| Gives(litellm, canon, n.model, k, a[n.model]);
      NativeGives(litellm, canon, n, k, a[n.model]);
    }
  }

  lemma NativeGives(litellm: map<ModelKey, UnitPrices>, canon: string -> string, n: ModelKey, k: ModelKey, price: UnitPrices)
    requires n in litellm && Native(canon, n) && Gives(litellm, canon, n.model, k, price)
    ensures k in litellm && k.model == n.model && price == litellm[k]
  {
  }

  /** After pass 1 over keys[..i]: each name holds the last native entry seen for it. */
  ghost predicate Pass1(litellm: map<ModelKey, UnitPrices>, canon: string -> string, keys: seq<ModelKey>, i: int, out: map<string, UnitPrices>)
    requires 0 <= i <= |keys| && forall k :: k in keys ==> k in litellm
  {
    && (forall j :: 0 <= j < i && Native(canon, keys[j]) ==> keys[j].model in out)
    && (forall name :: name in out ==> exists j :: 0 <= j < |keys| && LastNative(canon, keys, i, name, j) && out[name] == litellm[keys[j]])
  }

  ghost predicate LastNative(canon: string -> string, keys: seq<ModelKey>, i: int, name: string, j: int)
    requires 0 <= i <= |keys|
  {
    && 0 <= j < i && Native(canon, keys[j]) && keys[j].model == name
    && forall m :: j < m < i && Native(canon, keys[m]) ==> keys[m].model != name
  }

  /** After pass 2 over keys[..i]: names without a native entry hold the first prefixed entry seen. */
  ghost predicate Pass2(litellm: map<ModelKey, UnitPrices>, canon: string -> string, keys: seq<ModelKey>, i: int, out: map<string, UnitPrices>)
    requires 0 <= i <= |keys| && forall k :: k in keys ==> k in litellm
  {
    && (forall j :: 0 <= j < |keys| && Native(canon, keys[j]) ==> keys[j].model in out)
    && (forall j :: 0 <= j < i ==> canon(keys[j].model) in out)
    && (forall name :: name in out ==>
          exists j :: 0 <= j < |keys| && canon(keys[j].model) == name && Giver(canon, keys, i, name, j) && out[name] == litellm[keys[j]])
  }

  ghost predicate Giver(canon: string -> string, keys: seq<ModelKey>, i: int, name: string, j: int)
    requires 0 <= i <= |keys|
  {
    LastNative(canon, keys, |keys|, name, j) || FirstPrefixed(canon, keys, i, name, j)
  }

  ghost predicate FirstPrefixed(canon: string -> string, keys: seq<ModelKey>, i: int, name: string, j: int)
    requires 0 <= i <= |keys|
  {
    && 0 <= j < i && canon(keys[j].model) == name
    && (forall m :: 0 <= m < j ==> canon(keys[m].model) != name)
    && (forall m :: 0 <= m < |keys| && canon(keys[m].model) == name ==> !Native(canon, keys[m]))
  }

  lemma LastNativeStep(canon: string -> string, keys: seq<ModelKey>, i: int, name: string, j: int)
    requires 0 <= i < |keys|
    ensures Native(canon, keys[i]) ==> LastNative(canon, keys, i + 1, keys[i].model, i)
    ensures LastNative(canon, keys, i, name, j) && !(Native(canon, keys[i]) && keys[i].model == name)
        ==> LastNative(canon, keys, i + 1, name, j)
  {
  }

  lemma Pass1Step(litellm: map<ModelKey, UnitPrices>, canon: string -> string, keys: seq<ModelKey>, i: int,
    out: map<string, UnitPrices>, out': map<string, UnitPrices>)
    requires 0 <= i < |keys| && (forall k :: k in keys ==> k in litellm) && Pass1(litellm, canon, keys, i, out)
    requires out' == if Native(canon, keys[i]) then out[keys[i].model := litellm[keys[i]]] else out
    ensures Pass1(litellm, canon, keys, i + 1, out')
  {
    hide LastNative;
    forall name | name in out'
      ensures exists j :: 0 <= j < |keys| && LastNative(canon, keys, i + 1, name, j) && out'[name] == litellm[keys[j]]
    {
      if Native(canon, keys[i]) && keys[i].model == name {
        LastNativeStep(canon, keys, i, name, i);
      } else {
        var j :| 0 <= j < |keys| && LastNative(canon, keys, i, name, j) && out[name] == litellm[keys[j]];
        LastNativeStep(canon, keys, i, name, j);
      }
    }
  }

  lemma Pass2Step(litellm: map<ModelKey, UnitPrices>, canon: string -> string, keys: seq<ModelKey>, i: int,
    out: map<string, UnitPrices>, out': map<string, UnitPrices>)
    requires 0 <= i < |keys| && (forall k :: k in keys ==> k in litellm) && Pass2(litellm, canon, keys, i, out)
    requires var name := canon(keys[i].model);
             out' == if name != keys[i].model && name !in out then out[name := litellm[keys[i]]] else out
    ensures Pass2(litellm, canon, keys, i + 1, out')
  {
    hide LastNative;
    forall name | name in out'
      ensures exists j :: 0 <= j < |keys| && canon(keys[j].model) == name && Giver(canon, keys, i + 1, name, j) && out'[name] == litellm[keys[j]]
    {
      if name in out {
        var j :| 0 <= j < |keys| && canon(keys[j].model) == name && Giver(canon, keys, i, name, j) && out[name] == litellm[keys[j]];
        assert Giver(canon, keys, i + 1, name, j);
      } else {
        NewGiver(litellm, canon, keys, i, out);
      }
    }
  }

  /** A name that is still missing when key i canonicalises to it has no native entry and no earlier prefixed one. */
  lemma NewGiver(litellm: map<ModelKey, UnitPrices>, canon: string -> string, keys: seq<ModelKey>, i: int, out: map<string, UnitPrices>)
    requires 0 <= i < |keys| && (forall k :: k in keys ==> k in litellm) && Pass2(litellm, canon, keys, i, out)
    requires canon(keys[i].model) !in out
    ensures Giver(canon, keys, i + 1, canon(keys[i].model), i)
  {
  }

  lemma LastNativeWins(litellm: map<ModelKey, UnitPrices>, canon: string -> string, keys: seq<ModelKey>, name: string, j: int)
    requires Ascending(keys) && (forall k :: k in keys <==> k in litellm) && LastNative(canon, keys, |keys|, name, j)
    ensures Winner(litellm, canon, name, keys[j])
  {
  }

  lemma FirstPrefixedWins(litellm: map<ModelKey, UnitPrices>, canon: string -> string, keys: seq<ModelKey>, name: string, j: int)
    requires Ascending(keys) && (forall k :: k in keys <==> k in litellm) && FirstPrefixed(canon, keys, |keys|, name, j)
    ensures Winner(litellm, canon, name, keys[j])
  {
  }

  lemma GiverWins(litellm: map<ModelKey, UnitPrices>, canon: string -> string, keys: seq<ModelKey>, name: string, j: int)
    requires Ascending(keys) && (forall k :: k in keys <==> k in litellm) && 0 <= j < |keys| && Giver(canon, keys, |keys|, name, j)
    ensures Winner(litellm, canon, name, keys[j]) && canon(keys[j].model) == name
  {
    if LastNative(canon, keys, |keys|, name, j) {
      LastNativeWins(litellm, canon, keys, name, j);
    } else {
      FirstPrefixedWins(litellm, canon, keys, name, j);
    }
  }

  lemma PassesGiveIndex(litellm: map<ModelKey, UnitPrices>, canon: string -> string, keys: seq<ModelKey>, out: map<string, UnitPrices>)
    requires Ascending(keys) && (forall k :: k in keys <==> k in litellm)
    requires Pass2(litellm, canon, keys, |keys|, out)
    ensures IsIndex(litellm, canon, out)
  {
    hide Giver, Winner, KeyLess;
    forall name | name in out
      ensures exists k :: Gives(litellm, canon, name, k, out[name])
    {
      var j :| 0 <= j < |keys| && canon(keys[j].model) == name && Giver(canon, keys, |keys|, name, j) && out[name] == litellm[keys[j]];
      GiverWins(litellm, canon, keys, name, j);
      assert Gives(litellm, canon, name, keys[j], out[name]);
    }
    forall k | k in litellm
      ensures canon(k.model) in out
    {
      var m :| 0 <= m < |keys| && keys[m] == k;
    }
  }

  lemma Pass1Starts(litellm: map<ModelKey, UnitPrices>, canon: string -> string, keys: seq<ModelKey>)
    requires forall k :: k in keys ==> k in litellm
    ensures Pass1(litellm, canon, keys, 0, map[])
  {
  }

  lemma Pass1Ends(litellm: map<ModelKey, UnitPrices>, canon: string -> string, keys: seq<ModelKey>, out: map<string, UnitPrices>)
    requires (forall k :: k in keys ==> k in litellm) && Pass1(litellm, canon, keys, |keys|, out)
    ensures Pass2(litellm, canon, keys, 0, out)
  {
  }

  /** The keys of a map, in whatever order the iteration yields them. */
  method CollectKeys(litellm: map<ModelKey, UnitPrices>) returns (found: seq<ModelKey>)
    ensures forall k :: k in found <==> k in litellm
    ensures forall i, j :: 0 <= i < j < |found| ==> found[i] != found[j]
  {
    var left := litellm.Keys;
    found := [];
    while left != {}
      invariant left <= litellm.Keys && (forall k :: k in found <==> k in litellm && k !in left)
      invariant forall i, j :: 0 <= i < j < |found| ==> found[i] != found[j]
      decreases |left|
    {
      var k :| k in left;
      left, found := left - {k}, found + [k];
    }
  }

  /** buildCanonicalIndex. */
  method BuildCanonicalIndex(litellm: map<ModelKey, UnitPrices>, canon: string -> string) returns (out: map<string, UnitPrices>)
    ensures IsIndex(litellm, canon, out)
  {
    hide Pass1, Pass2, Ascending, IsIndex, Sort, Insert;
    var found := CollectKeys(litellm);
    var keys := Sort(found);
    out := map[];
    Pass1Starts(litellm, canon, keys);
    for i := 0 to |keys|
      invariant Pass1(litellm, canon, keys, i, out)
    {
      var k, before := keys[i], out;
      if canon(k.model) == k.model {
        out := out[k.model := litellm[k]];
      }
      Pass1Step(litellm, canon, keys, i, before, out);
    }
    Pass1Ends(litellm, canon, keys, out);
    for i := 0 to |keys|
      invariant Pass2(litellm, canon, keys, i, out)
    {
      var k, before := keys[i], out;
      var name := canon(k.model);
      if name != k.model && name !in out {
        out := out[name := litellm[k]];
      }
      Pass2Step(litellm, canon, keys, i, before, out);
    }
    PassesGiveIndex(litellm, canon, keys, out);
  }

  // ---- the price history ----

  predicate Descending(entries: seq<HistoryEntry>) {
    forall i, j :: 0 <= i < j < |entries| ==> entries[i].effectiveFrom >= entries[j].effectiveFrom
  }

  predicate DistinctFrom(entries: seq<HistoryEntry>) {
    forall i, j :: 0 <= i < j < |entries| ==> entries[i].effectiveFrom != entries[j].effectiveFrom
  }

  /** What the sort promises: the same entries, latest first. It need not be stable. */
  ghost predicate Sorts(entries: seq<HistoryEntry>, sorted: seq<HistoryEntry>) {
    Descending(sorted) && multiset(sorted) == multiset(entries)
  }

  /** With distinct dates every such sort gives the same slice. */
  lemma SortUnique(entries: seq<HistoryEntry>, a: seq<HistoryEntry>, b: seq<HistoryEntry>)
    requires Sorts(entries, a) && Sorts(entries, b) && DistinctFrom(a)
    ensures a == b
  {
    SameOrder(a, b);
  }

  lemma {:induction false} SameOrder(a: seq<HistoryEntry>, b: seq<HistoryEntry>)
    requires Descending(a) && Descending(b) && multiset(a) == multiset(b) && DistinctFrom(a)
    ensures a == b
    decreases |a|
  {
    assert |a| == |multiset(a)| == |multiset(b)| == |b|;
    if a != [] {
      SameFirst(a, b);
      TailMultiset(a);
      TailMultiset(b);
      SameOrder(a[1..], b[1..]);
      assert a == [a[0]] + a[1..] && b == [b[0]] + b[1..];
    }
  }

  lemma TailMultiset(a: seq<HistoryEntry>)
    requires a != []
    ensures multiset(a[1..]) == multiset(a) - multiset{a[0]}
  {
    assert a == [a[0]] + a[1..];
  }

  lemma SameFirst(a: seq<HistoryEntry>, b: seq<HistoryEntry>)
    requires Descending(a) && Descending(b) && multiset(a) == multiset(b) && DistinctFrom(a) && a != [] && b != []
    ensures a[0] == b[0]
  {
    assert a[0] in multiset(b) && b[0] in multiset(a);
    var i :| 0 <= i < |b| && b[i] == a[0];
    var j :| 0 <= j < |a| && a[j] == b[0];
    assert a[0].effectiveFrom == b[0].effectiveFrom;
    assert j == 0;
  }

  datatype OverlayEntry = OverlayEntry(key: ModelKey, effectiveFrom: int, prices: UnitPrices)

  /** The file's entries for one model, in file order. */
  function EntriesFor(file: seq<OverlayEntry>, k: ModelKey): seq<HistoryEntry> {
    if file == [] then []
    else
      var e := file[|file| - 1];
      EntriesFor(file[..|file| - 1], k) + if e.key == k then [HistoryEntry(e.effectiveFrom, e.prices)] else []
  }

  function Place(e: HistoryEntry, sorted: seq<HistoryEntry>): (r: seq<HistoryEntry>)
    requires Descending(sorted)
    ensures Descending(r) && multiset(r) == multiset(sorted) + multiset{e}
  {
    if sorted == [] then [e]
    else if e.effectiveFrom >= sorted[0].effectiveFrom then [e] + sorted
    else
      var rest := Place(e, sorted[1..]);
      PlacedBehind(e, sorted, rest);
      [sorted[0]] + rest
  }

  lemma PlacedBehind(e: HistoryEntry, sorted: seq<HistoryEntry>, rest: seq<HistoryEntry>)
    requires sorted != [] && Descending(sorted) && e.effectiveFrom < sorted[0].effectiveFrom
    requires Descending(rest) && multiset(rest) == multiset(sorted[1..]) + multiset{e}
    ensures Descending([sorted[0]] + rest) && multiset([sorted[0]] + rest) == multiset(sorted) + multiset{e}
  {
    TailMultiset(sorted);
    forall j | 0 <= j < |rest|
      ensures sorted[0].effectiveFrom >= rest[j].effectiveFrom
    {
      assert rest[j] in multiset(rest);
      if rest[j] != e {
        assert rest[j] in sorted[1..];
      }
    }
  }

  function SortDescending(entries: seq<HistoryEntry>): (r: seq<HistoryEntry>)
    ensures Sorts(entries, r)
  {
    if entries == [] then []
    else
      assert entries == [entries[0]] + entries[1..];
      Place(entries[0], SortDescending(entries[1..]))
  }

  /** parseOverlayHistory: group the entries by model, then sort each group latest first. */
  method ParseOverlayHistory(file: seq<OverlayEntry>) returns (out: map<ModelKey, seq<HistoryEntry>>)
    ensures forall k :: k in out <==> EntriesFor(file, k) != []
    ensures forall k :: k in out ==> Sorts(EntriesFor(file, k), out[k])
  {
    hide Place, SortDescending, Sorts;
    out := map[];
    for i := 0 to |file|
      invariant forall k :: k in out <==> EntriesFor(file[..i], k) != []
      invariant forall k :: k in out ==> out[k] == EntriesFor(file[..i], k)
    {
      var e := file[i];
      assert file[..i + 1][..i] == file[..i];
      var h := HistoryEntry(e.effectiveFrom, e.prices);
      out := out[e.key := (if e.key in out then out[e.key] else []) + [h]];
    }
    assert file[..|file|] == file;
    var left := out.Keys;
    while left != {}
      invariant left <= out.Keys && forall k :: k in out <==> EntriesFor(file, k) != []
      invariant forall k :: k in left ==> out[k] == EntriesFor(file, k)
      invariant forall k :: k in out && k !in left ==> Sorts(EntriesFor(file, k), out[k])
      decreases |left|
    {
      var k :| k in left;
      left, out := left - {k}, out[k := SortDescending(out[k])];
    }
  }

  /** The price in force at ts: the latest entry not after it. */
  ghost predicate InForce(entries: seq<HistoryEntry>, ts: int, r: Option<HistoryEntry>) {
    match r
    case None => forall e :: e in entries ==> e.effectiveFrom > ts
    case Some(e) => e in entries && e.effectiveFrom <= ts && forall o :: o in entries && o.effectiveFrom <= ts ==> o.effectiveFrom <= e.effectiveFrom
  }

  lemma InForceUnique(entries: seq<HistoryEntry>, ts: int, e: HistoryEntry, o: HistoryEntry)
    requires DistinctFrom(entries) && InForce(entries, ts, Some(e)) && InForce(entries, ts, Some(o))
    ensures e == o
  {
  }

  method FirstApplicable(entries: seq<HistoryEntry>, ts: int) returns (r: Option<HistoryEntry>)
    requires Descending(entries)
    ensures InForce(entries, ts, r)
  {
    for i := 0 to |entries|
      invariant forall j :: 0 <= j < i ==> entries[j].effectiveFrom > ts
    {
      if ts >= entries[i].effectiveFrom {
        return Some(entries[i]);
      }
    }
    return None;
  }

  // ---- the resolver ----

  function Tier(up: UnitPrices, inputTokens: int): UnitPrices {
    var long := inputTokens > LONG_CONTEXT;
    up.(input := if long && up.inputAbove > 0.0 then up.inputAbove else up.input,
        output := if long && up.outputAbove > 0.0 then up.outputAbove else up.output,
        inputAbove := 0.0, outputAbove := 0.0)
  }

  /** Long-context rates apply above 128000 tokens only, each on its own and only if it is set; nothing else changes. */
  lemma TierExact(up: UnitPrices, n: int)
    ensures var t := Tier(up, n);
            && (n <= 128000 ==> t.input == up.input && t.output == up.output)
            && (n > 128000 && up.inputAbove > 0.0 ==> t.input == up.inputAbove)
            && (n > 128000 && up.outputAbove > 0.0 ==> t.output == up.outputAbove)
            && (up.inputAbove <= 0.0 ==> t.input == up.input) && (up.outputAbove <= 0.0 ==> t.output == up.output)
            && t.inputAbove == 0.0 && t.outputAbove == 0.0
            && t.(input := up.input, output := up.output, inputAbove := up.inputAbove, outputAbove := up.outputAbove) == up
  {
  }

  /** The returned rates are final: applying a tier again, for any context size, changes nothing. */
  lemma TierSettles(up: UnitPrices, n: int, m: int)
    ensures Tier(Tier(up, n), m) == Tier(up, n)
  {
    hide Tier;
    TierExact(up, n);
    TierExact(Tier(up, n), m);
  }

  datatype Resolver = Resolver(overrides: map<OverrideKey, UnitPrices>, history: map<ModelKey, seq<HistoryEntry>>,
    litellm: map<ModelKey, UnitPrices>, byCanonical: map<string, UnitPrices>)

  ghost predicate Built(r: Resolver, canon: string -> string) {
    IsIndex(r.litellm, canon, r.byCanonical) && forall k :: k in r.history ==> Descending(r.history[k])
  }

  /** The price an org is charged, layer by layer; None is "unpriced". */
  ghost predicate Charged(r: Resolver, canon: string -> string, provider: string, model: string, ts: int, tokens: int, org: string,
    answer: Option<UnitPrices>)
  {
    var key, own := ModelKey(provider, model), OverrideKey(org, provider, model);
    if org != "" && own in r.overrides then
      answer == Some(Tier(r.overrides[own].(source := Overrides), tokens))
    else if key in r.history && exists e :: e in r.history[key] && e.effectiveFrom <= ts then
      exists e :: InForce(r.history[key], ts, Some(e))
        && answer == Some(Tier(e.prices.(source := History, effectiveFrom := e.effectiveFrom), tokens))
    else if key in r.litellm then
      answer == Some(Tier(r.litellm[key].(source := LiteLLM), tokens))
    else if exists k :: k in r.litellm && canon(k.model) == canon(model) then
      exists k, up :: Gives(r.litellm, canon, canon(model), k, up) && answer == Some(Tier(up.(source := LiteLLMNormalized), tokens))
    else answer == None
  }

  method Lookup(r: Resolver, canon: string -> string, provider: string, model: string, ts: int, tokens: int, org: string)
    returns (answer: Option<UnitPrices>)
    requires Built(r, canon)
    ensures Charged(r, canon, provider, model, ts, tokens, org, answer)
  {
    var key, own := ModelKey(provider, model), OverrideKey(org, provider, model);
    if org != "" && own in r.overrides {
      return Some(Tier(r.overrides[own].(source := Overrides), tokens));
    }
    if key in r.history {
      var e := FirstApplicable(r.history[key], ts);
      if e.Some? {
        return Some(Tier(e.value.prices.(source := History, effectiveFrom := e.value.effectiveFrom), tokens));
      }
    }
    if key in r.litellm {
      return Some(Tier(r.litellm[key].(source := LiteLLM), tokens));
    }
    var name := canon(model);
    if name in r.byCanonical {
      ghost var k :| Gives(r.litellm, canon, name, k, r.byCanonical[name]);
      return Some(Tier(r.byCanonical[name].(source := LiteLLMNormalized), tokens));
    }
    return None;
  }

  /** Two answers to one request agree when no model has two history entries of the same date. */
  lemma LookupDeterministic(r: Resolver, canon: string -> string, provider: string, model: string, ts: int, tokens: int, org: string,
    a: Option<UnitPrices>, b: Option<UnitPrices>)
    requires Charged(r, canon, provider, model, ts, tokens, org, a) && Charged(r, canon, provider, model, ts, tokens, org, b)
    requires forall k :: k in r.history ==> DistinctFrom(r.history[k])
    ensures a == b
  {
    hide Tier, Winner, InForce;
    var key, own := ModelKey(provider, model), OverrideKey(org, provider, model);
    if org != "" && own in r.overrides {
    } else if key in r.history && exists e :: e in r.history[key] && e.effectiveFrom <= ts {
      var entries := r.history[key];
      var ea :| InForce(entries, ts, Some(ea)) && a == Some(Tier(ea.prices.(source := History, effectiveFrom := ea.effectiveFrom), tokens));
      var eb :| InForce(entries, ts, Some(eb)) && b == Some(Tier(eb.prices.(source := History, effectiveFrom := eb.effectiveFrom), tokens));
      InForceUnique(entries, ts, ea, eb);
    } else if key !in r.litellm && exists k :: k in r.litellm && canon(k.model) == canon(model) {
      var ka, ua :| Gives(r.litellm, canon, canon(model), ka, ua) && a == Some(Tier(ua.(source := LiteLLMNormalized), tokens));
      var kb, ub :| Gives(r.litellm, canon, canon(model), kb, ub) && b == Some(Tier(ub.(source := LiteLLMNormalized), tokens));
      WinnerUnique(r.litellm, canon, canon(model), ka, kb);
    }
  }

  // ---- cost ----

  datatype Tokens = Tokens(input: int, output: int, cacheRead: int, cacheCreation: int, reasoning: int)

  function Cost(up: UnitPrices, tk: Tokens, inputIncludesCache: bool): real {
    var uncached := if !inputIncludesCache then tk.input
                    else if tk.input - tk.cacheRead - tk.cacheCreation < 0 then 0
                    else tk.input - tk.cacheRead - tk.cacheCreation;
    uncached as real * up.input + tk.cacheCreation as real * up.cacheCreation + tk.cacheRead as real * up.cacheRead
      + tk.output as real * up.output + tk.reasoning as real * up.reasoning
  }

  /** Each kind of token costs its own rate, and nothing else costs anything. */
  lemma CostPerToken(up: UnitPrices, tk: Tokens, n: int)
    ensures Cost(up, Tokens(0, 0, 0, 0, 0), false) == 0.0
    ensures Cost(up, tk.(input := tk.input + n), false) - Cost(up, tk, false) == n as real * up.input
    ensures Cost(up, tk.(output := tk.output + n), false) - Cost(up, tk, false) == n as real * up.output
    ensures Cost(up, tk.(cacheRead := tk.cacheRead + n), false) - Cost(up, tk, false) == n as real * up.cacheRead
    ensures Cost(up, tk.(cacheCreation := tk.cacheCreation + n), false) - Cost(up, tk, false) == n as real * up.cacheCreation
    ensures Cost(up, tk.(reasoning := tk.reasoning + n), false) - Cost(up, tk, false) == n as real * up.reasoning
  {
  }

  /** Which layer answers, as its source tag says: the org's own price, else the dated one in force, else the list price, else a canonical one. */
  lemma LayersExact(r: Resolver, canon: string -> string, provider: string, model: string, ts: int, tokens: int, org: string,
    answer: Option<UnitPrices>)
    requires Charged(r, canon, provider, model, ts, tokens, org, answer)
    ensures var key := ModelKey(provider, model);
            var own := org != "" && OverrideKey(org, provider, model) in r.overrides;
            var dated := key in r.history && exists e :: e in r.history[key] && e.effectiveFrom <= ts;
            && (answer.Some? && answer.value.source == Overrides <==> own)
            && (answer.Some? && answer.value.source == History <==> !own && dated)
            && (answer.Some? && answer.value.source == LiteLLM <==> !own && !dated && key in r.litellm)
            && (answer.None? <==> !own && !dated && forall k :: k in r.litellm ==> k != key && canon(k.model) != canon(model))
  {
  }
}
