/**
 The substring search of the query service: escaping a search term for LIKE, and the WHERE
 fragments that carry it together with their positional arguments.
 */
module Search {

  // ---- LIKE with ESCAPE '\' ----

  /** The LIKE predicate of section 8.5 of ISO/IEC 9075-2. A lone escape at the end matches nothing. */
  predicate Like(h: string, p: string)
    decreases |p|
  {
    if p == "" then h == ""
    else if p[0] == '%' then exists k :: 0 <= k <= |h| && Like(h[k..], p[1..])
    else if p[0] == '_' then h != "" && Like(h[1..], p[1..])
    else if p[0] == '\\' then |p| >= 2 && h != "" && h[0] == p[1] && Like(h[1..], p[2..])
    else h != "" && h[0] == p[0] && Like(h[1..], p[1..])
  }

  predicate Meta(c: char) {
    c == '\\' || c == '%' || c == '_'
  }

  /** likeEscaper: one pass, each metacharacter preceded by the escape character. */
  function Escape(k: string): string {
    if k == "" then "" else EscapeChar(k[0]) + Escape(k[1..])
  }

  function EscapeChar(c: char): string {
    if Meta(c) then ['\\', c] else [c]
  }

  function Pattern(k: string): string {
    "%" + Escape(k) + "%"
  }

  predicate Contains(h: string, k: string) {
    exists i :: 0 <= i <= |h| && k <= h[i..]
  }

  lemma EscapedHead(h: string, c: char, rest: string)
    ensures Like(h, EscapeChar(c) + rest) <==> h != "" && h[0] == c && Like(h[1..], rest)
  {
  }

  /** An escaped term matches itself and nothing else, and leaves the rest of the pattern to the rest of the text. */
  lemma {:induction false} EscapedPrefix(h: string, k: string, rest: string)
    ensures Like(h, Escape(k) + rest) <==> k <= h && Like(h[|k|..], rest)
    decreases |k|
  {
    hide Like;
    if k == "" {
      assert Escape(k) + rest == rest && h[0..] == h;
    } else {
      assert Escape(k) + rest == EscapeChar(k[0]) + (Escape(k[1..]) + rest);
      EscapedHead(h, k[0], Escape(k[1..]) + rest);
      if h != "" {
        EscapedPrefix(h[1..], k[1..], rest);
      }
    }
  }

  lemma AnythingMatches(h: string)
    ensures Like(h, "%")
  {
    assert "%"[1..] == "" && h[|h|..] == "";
    assert Like(h[|h|..], "%"[1..]);
  }

  /** Escaping preserves meaning: the pattern matches exactly the texts that contain the term. */
  lemma EscapingExact(h: string, k: string)
    ensures Like(h, Pattern(k)) <==> Contains(h, k)
  {
    var p := Pattern(k);
    assert p[1..] == Escape(k) + "%";
    forall i | 0 <= i <= |h|
      ensures Like(h[i..], p[1..]) <==> k <= h[i..]
    {
      EscapedPrefix(h[i..], k, "%");
      if k <= h[i..] {
        AnythingMatches(h[i..][|k|..]);
      }
    }
  }

  function Unescape(p: string): string
    decreases |p|
  {
    if p == "" then ""
    else if p[0] == '\\' && |p| >= 2 then [p[1]] + Unescape(p[2..])
    else [p[0]] + Unescape(p[1..])
  }

  /** No two terms share an escaped form. */
  lemma {:induction false} EscapeRoundTrip(k: string)
    ensures Unescape(Escape(k)) == k
  {
    if k != "" {
      EscapeRoundTrip(k[1..]);
      assert Escape(k)[|EscapeChar(k[0])|..] == Escape(k[1..]);
    }
  }

  lemma PercentHead(h: string, k: nat, rest: string)
    requires k <= |h| && Like(h[k..], rest)
    ensures Like(h, "%" + rest)
  {
    assert ("%" + rest)[1..] == rest;
  }

  /** Left raw, a term with a metacharacter can match texts that do not contain it. */
  lemma RawTermWidens()
    ensures Like("ab", "%" + ("_" + "%")) && !Contains("ab", "_")
  {
    hide Like;
    AnythingMatches("ab"[1..]);
    assert "ab"[0..] == "ab";
    PercentHead("ab", 0, "_" + "%");
    forall i | 0 <= i <= 2
      ensures !("_" <= "ab"[i..])
    {
      assert i < 2 ==> "ab"[i..][0] != '_';
    }
  }

  // ---- WHERE fragments with positional arguments ----

  // One placeholder-bearing term: column IN (?,...,?) or LOWER(column) LIKE ? ESCAPE '\'.
  datatype Term = InList(column: string, n: nat) | LikeTerm(column: string)

  // A conjunction of disjunctions, and the arguments bound to its placeholders from left to right.
  datatype Query = Query(where: seq<seq<Term>>, args: seq<string>)

  // What a row shows in each column, NULL already coalesced, and the case folding in use.
  datatype View = View(column: string -> string, fold: string -> string)

  function Arity(t: Term): nat {
    if t.InList? then t.n else 1
  }

  function AnyArity(terms: seq<Term>): nat {
    if terms == [] then 0 else AnyArity(terms[..|terms| - 1]) + Arity(terms[|terms| - 1])
  }

  function AllArity(where: seq<seq<Term>>): nat {
    if where == [] then 0 else AllArity(where[..|where| - 1]) + AnyArity(where[|where| - 1])
  }

  predicate Holds(t: Term, args: seq<string>, v: View)
    requires |args| == Arity(t)
  {
    if t.InList? then v.column(t.column) in args
    else Like(v.fold(v.column(t.column)), args[0])
  }

  predicate AnyHolds(terms: seq<Term>, args: seq<string>, v: View)
    requires |args| == AnyArity(terms)
  {
    terms != [] &&
    var n := AnyArity(terms[..|terms| - 1]);
    AnyHolds(terms[..|terms| - 1], args[..n], v) || Holds(terms[|terms| - 1], args[n..], v)
  }

  predicate Selects(q: Query, v: View)
    requires |q.args| == AllArity(q.where)
    decreases |q.where|
  {
    q.where == [] ||
    var front := q.where[..|q.where| - 1];
    var n := AllArity(front);
    Selects(Query(front, q.args[..n]), v) && AnyHolds(q.where[|q.where| - 1], q.args[n..], v)
  }

  predicate Aligned(q: Query) {
    |q.args| == AllArity(q.where)
  }

  lemma AppendConjunct(q: Query, terms: seq<Term>, args: seq<string>, v: View)
    requires Aligned(q) && |args| == AnyArity(terms)
    ensures var q' := Query(q.where + [terms], q.args + args);
            Aligned(q') && (Selects(q', v) <==> Selects(q, v) && AnyHolds(terms, args, v))
  {
  }

  lemma AppendTerm(terms: seq<Term>, args: seq<string>, t: Term, more: seq<string>, v: View)
    requires |args| == AnyArity(terms) && |more| == Arity(t)
    ensures AnyArity(terms + [t]) == |args + more|
    ensures AnyHolds(terms + [t], args + more, v) <==> AnyHolds(terms, args, v) || Holds(t, more, v)
  {
  }

  const SEAT_KEY := "COALESCE(NULLIF(seat_id, ''), owner_account_id)"

  ghost predicate SeatPasses(keys: seq<string>, like: string, v: View) {
    || (keys == [] && like == "")
    || v.column(SEAT_KEY) in keys
    || (like != "" && Contains(v.fold(v.column(SEAT_KEY)), v.fold(like)))
  }

  ghost predicate KeywordPasses(columns: seq<string>, keyword: string, v: View) {
    exists c :: c in columns && Contains(v.fold(v.column(c)), v.fold(keyword))
  }

  /**
   appendSeatFilter: the row passes the new filter exactly when its seat key is listed or
   contains the search term, both sides folded; without keys or a term nothing is added.
   */
  method AppendSeatFilter(q: Query, keys: seq<string>, like: string, fold: string -> string) returns (r: Query)
    requires Aligned(q)
    ensures Aligned(r) && (keys == [] && like == "" ==> r == q)
    ensures forall v: View :: v.fold == fold ==>
      (Selects(r, v) <==> (Selects(q, v) && (
        || (keys == [] && like == "")
        || v.column(SEAT_KEY) in keys
        || (like != "" && Contains(v.fold(v.column(SEAT_KEY)), v.fold(like))))))
  {
    hide Selects, Contains, Pattern, AllArity;
    var terms: seq<Term> := [];
    var args := q.args;
    if |keys| > 0 {
      terms := terms + [InList(SEAT_KEY, |keys|)];
      for i := 0 to |keys|
        invariant args == q.args + keys[..i]
      {
        args := args + [keys[i]];
      }
    }
    assert args == q.args + keys;
    ghost var pat := if like == "" then [] else [Pattern(fold(like))];
    if like != "" {
      terms := terms + [LikeTerm(SEAT_KEY)];
      args := args + [Pattern(fold(like))];
    }
    if |terms| == 0 {
      return q;
    }
    r := Query(q.where + [terms], args);
    assert args == q.args + (keys + pat);
    assert terms == SeatTermList(keys, like);
    SeatFilterMeets(q, keys, like, fold, pat);
  }

  lemma SeatFilterMeets(q: Query, keys: seq<string>, like: string, fold: string -> string, pat: seq<string>)
    requires Aligned(q) && (keys != [] || like != "")
    requires pat == if like == "" then [] else [Pattern(fold(like))]
    ensures var r := Query(q.where + [SeatTermList(keys, like)], q.args + (keys + pat));
            && Aligned(r)
            && forall v: View :: v.fold == fold ==>
              (Selects(r, v) <==> (Selects(q, v) && (
                || (keys == [] && like == "")
                || v.column(SEAT_KEY) in keys
                || (like != "" && Contains(v.fold(v.column(SEAT_KEY)), v.fold(like))))))
  {
    AlignedAfter(q, keys, like, pat);
    hide Selects, SeatPasses, SeatTermList, Pattern, Aligned, Contains, AllArity;
    var r := Query(q.where + [SeatTermList(keys, like)], q.args + (keys + pat));
    forall v: View | v.fold == fold
      ensures Selects(r, v) <==> (Selects(q, v) && (
                || (keys == [] && like == "")
                || v.column(SEAT_KEY) in keys
                || (like != "" && Contains(v.fold(v.column(SEAT_KEY)), v.fold(like)))))
    {
      SeatAppended(q, keys, like, pat, v);
      SeatPassesDef(keys, like, v);
    }
  }

  lemma SeatPassesDef(keys: seq<string>, like: string, v: View)
    ensures SeatPasses(keys, like, v) <==>
            (keys == [] && like == "") || v.column(SEAT_KEY) in keys || (like != "" && Contains(v.fold(v.column(SEAT_KEY)), v.fold(like)))
  {
  }

  /** The filter's terms: the list of keys if there are any, the search term if there is one. */
  function SeatTermList(keys: seq<string>, like: string): seq<Term> {
    (if keys == [] then [] else [InList(SEAT_KEY, |keys|)]) + (if like == "" then [] else [LikeTerm(SEAT_KEY)])
  }

  lemma SeatAppended(q: Query, keys: seq<string>, like: string, pat: seq<string>, v: View)
    requires Aligned(q) && (keys != [] || like != "")
    requires pat == if like == "" then [] else [Pattern(v.fold(like))]
    ensures var r := Query(q.where + [SeatTermList(keys, like)], q.args + (keys + pat));
            Aligned(r) && (Selects(r, v) <==> (Selects(q, v) && SeatPasses(keys, like, v)))
  {
    hide Like, Pattern, Contains, Selects, AnyHolds;
    SeatTerms(keys, v);
    EscapingExact(v.fold(v.column(SEAT_KEY)), v.fold(like));
    var first := SeatTermList(keys, "");
    if like != "" {
      AppendTerm(first, keys, LikeTerm(SEAT_KEY), pat, v);
      assert SeatTermList(keys, like) == first + [LikeTerm(SEAT_KEY)];
    } else {
      assert keys + pat == keys && SeatTermList(keys, like) == first;
    }
    AppendConjunct(q, SeatTermList(keys, like), keys + pat, v);
  }

  lemma SeatTerms(keys: seq<string>, v: View)
    ensures AnyArity(SeatTermList(keys, "")) == |keys|
    ensures AnyHolds(SeatTermList(keys, ""), keys, v) <==> v.column(SEAT_KEY) in keys
  {
    if keys != [] {
      AppendTerm([], [], InList(SEAT_KEY, |keys|), keys, v);
      assert [] + keys == keys && [] + [InList(SEAT_KEY, |keys|)] == SeatTermList(keys, "");
    }
  }

  lemma AlignedAfter(q: Query, keys: seq<string>, like: string, pat: seq<string>)
    requires Aligned(q) && |pat| == if like == "" then 0 else 1
    ensures Aligned(Query(q.where + [SeatTermList(keys, like)], q.args + (keys + pat)))
  {
    var terms, first := SeatTermList(keys, like), SeatTermList(keys, "");
    assert AnyArity(first) == |keys| by {
      if keys != [] { assert first[..0] == []; }
    }
    if like != "" {
      assert terms[..|terms| - 1] == first;
    } else {
      assert terms == first;
    }
    assert (q.where + [terms])[..|q.where|] == q.where;
  }

  /** The audit list's keyword filter: one LIKE term per rendered column, the same pattern bound to each. */
  method AppendKeyword(q: Query, columns: seq<string>, keyword: string, fold: string -> string) returns (r: Query)
    requires Aligned(q)
    ensures Aligned(r) && (keyword == "" ==> r == q)
    ensures forall v: View :: v.fold == fold ==>
      (Selects(r, v) <==> (Selects(q, v) && (
        keyword == "" || exists c :: c in columns && Contains(v.fold(v.column(c)), v.fold(keyword)))))
  {
    if keyword == "" {
      return q;
    }
    var pat := Pattern(fold(keyword));
    var terms, args: seq<string> := [], [];
    for i := 0 to |columns|
      invariant |args| == AnyArity(terms)
      invariant forall v: View :: v.fold == fold ==>
        (AnyHolds(terms, args, v) <==> KeywordPasses(columns[..i], keyword, v))
    {
      forall v: View | v.fold == fold
        ensures AnyArity(terms + [LikeTerm(columns[i])]) == |args + [pat]|
        ensures AnyHolds(terms + [LikeTerm(columns[i])], args + [pat], v) <==> KeywordPasses(columns[..i + 1], keyword, v)
      {
        AppendTerm(terms, args, LikeTerm(columns[i]), [pat], v);
        EscapingExact(fold(v.column(columns[i])), fold(keyword));
        assert columns[..i + 1] == columns[..i] + [columns[i]];
      }
      assert (terms + [LikeTerm(columns[i])])[..|terms|] == terms;
      terms, args := terms + [LikeTerm(columns[i])], args + [pat];
    }
    assert columns[..|columns|] == columns;
    r := Query(q.where + [terms], q.args + args);
    assert r.where[..|r.where| - 1] == q.where;
    forall v: View | v.fold == fold
      ensures Selects(r, v) <==> Selects(q, v) && AnyHolds(terms, args, v)
    {
      AppendConjunct(q, terms, args, v);
    }
  }
}
