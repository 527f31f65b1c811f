/**
 The one-time migration that turns fact rows holding total input tokens into rows holding
 pure input tokens and re-prices them. A run takes a snapshot of the rows it will convert and then updates them one
 by one through their event ids, which several rows may share. It may be cut off in between.
 */
module Migration {
  import opened Options
  import Pricing

  const OLD_VERSION := "0.1.0"
  const NEW_VERSION := "0.2.0"

  datatype Row = Row(provider: string, model: string, time: int, org: string,
    input: int, cached: int, creation: int, output: int, reasoning: int,
    version: string, billable: Option<string>, snapshot: Option<string>, currency: Option<string>)

  // The fact table: event ids and their rows. Nothing makes the ids distinct.
  type Facts = seq<(string, Row)>

  // The priced outcome of a lookup: the stored amount and the serialised rates.
  datatype Priced = Priced(amount: string, rates: string)

  // What one UPDATE carries.
  datatype Update = Update(input: int, price: Option<Priced>)

  /** The resolver: provider, model, time, context size, org and the row's token counts to a price, or no match. */
  type Resolver = (Row, int, int) -> Option<Priced>

  predicate Selected(r: Row) {
    r.version == OLD_VERSION || (r.snapshot.None? && r.billable.Some?)
  }

  /** Uncached input: an old row holds the total, a newer one is already pure. */
  function Pure(r: Row): int {
    if r.version == OLD_VERSION then
      (if r.input - r.cached - r.creation < 0 then 0 else r.input - r.cached - r.creation)
    else r.input
  }

  /** The context size that picks the price tier. */
  function TotalContext(r: Row): int {
    if r.version == OLD_VERSION then r.input else r.input + r.cached + r.creation
  }

  /** The update a row gives rise to, from its values in the snapshot. */
  function UpdateFor(resolver: Resolver, r: Row): Update {
    Update(Pure(r), resolver(r, Pure(r), TotalContext(r)))
  }

  /** The SET clause: rates and currency stay when there is no price, the amount does not. */
  function Stamp(r: Row, u: Update): Row {
    r.(input := u.input,
       billable := if u.price.Some? then Some(u.price.value.amount) else None,
       snapshot := if u.price.Some? then Some(u.price.value.rates) else r.snapshot,
       currency := if u.price.Some? then Some("USD") else r.currency,
       version := NEW_VERSION)
  }

  function Convert(resolver: Resolver, r: Row): Row {
    Stamp(r, UpdateFor(resolver, r))
  }

  /** The UPDATE: it reaches every row with the event id. */
  function Apply(t: Facts, id: string, u: Update): Facts {
    seq(|t|, i requires 0 <= i < |t| => if t[i].0 == id then (id, Stamp(t[i].1, u)) else t[i])
  }

  /** The table after the updates of the snapshot rows `order`, in that order. */
  function Updated(resolver: Resolver, t: Facts, order: seq<nat>): (u: Facts)
    requires Indices(t, order)
    ensures |u| == |t| && forall j :: 0 <= j < |t| ==> u[j].0 == t[j].0
  {
    if order == [] then t
    else
      var last := t[order[|order| - 1]];
      Apply(Updated(resolver, t, order[..|order| - 1]), last.0, UpdateFor(resolver, last.1))
  }

  predicate Indices(t: Facts, order: seq<nat>) {
    forall k :: 0 <= k < |order| ==> order[k] < |t|
  }

  /** The rows a cut-off run updated: selected ones, in any order. */
  predicate Batch(t: Facts, order: seq<nat>) {
    Indices(t, order) && forall k :: 0 <= k < |order| ==> Selected(t[order[k]].1)
  }

  /** The rows of a run that finishes: all the selected ones, each once. */
  predicate Complete(t: Facts, order: seq<nat>) {
    && Batch(t, order)
    && (forall k, l :: 0 <= k < l < |order| ==> order[k] != order[l])
    && (forall i :: 0 <= i < |t| && Selected(t[i].1) ==> i in order)
  }

  /** What the run is for: every selected row its own conversion, every other row as it was. */
  function Converted(resolver: Resolver, t: Facts): Facts {
    seq(|t|, i requires 0 <= i < |t| => if Selected(t[i].1) then (t[i].0, Convert(resolver, t[i].1)) else t[i])
  }

  class Table {
    var rows: Facts

    constructor (rows: Facts)
      ensures this.rows == rows
    {
      this.rows := rows;
    }

    /** One row: split its input and look its price up. */
    method Reprice(resolver: Resolver, r: Row) returns (u: Update)
      ensures u == UpdateFor(resolver, r) && Stamp(r, u) == Convert(resolver, r)
    {
      var pure, totalContext;
      if r.version == OLD_VERSION {
        pure := r.input - r.cached - r.creation;
        if pure < 0 {
          pure := 0;
        }
        totalContext := r.input;
      } else {
        pure := r.input;
        totalContext := r.input + r.cached + r.creation;
      }
      u := Update(pure, resolver(r, pure, totalContext));
    }

    /** The query: every selected row once, with its values as they stand, in no particular order. */
    method Select() returns (batch: Facts, ghost order: seq<nat>)
      ensures Indices(rows, order) && Complete(rows, order) && batch == Snapshot(rows, order)
      ensures forall i: nat :: i < |rows| ==>
        (i in order <==> rows[i].1.version == "0.1.0" || (rows[i].1.billable.Some? && rows[i].1.snapshot.None?))
    {
      var left := set i: nat | i < |rows| && Selected(rows[i].1);
      batch, order := [], [];
      while left != {}
        invariant Batch(rows, order) && batch == Snapshot(rows, order)
        invariant forall i :: i in left ==> 0 <= i < |rows| && Selected(rows[i].1) && i !in order
        invariant forall k, l :: 0 <= k < l < |order| ==> order[k] != order[l]
        invariant forall i :: 0 <= i < |rows| && Selected(rows[i].1) ==> i in left || i in order
        decreases |left|
      {
        var i :| i in left;
        left, batch, order := left - {i}, batch + [rows[i]], order + [i];
      }
    }

    /** One run; `budget` is the number of updates before the process dies, None for a run that finishes. */
    method Run(resolver: Resolver, dryRun: bool, budget: Option<nat>)
      returns (batch: Facts, ghost order: seq<nat>, updated: nat, converted: nat, backfilled: nat, repriced: nat, unpriced: nat)
      modifies this
      ensures Complete(old(rows), order) && batch == Snapshot(old(rows), order) && updated <= |batch|
      ensures rows == Updated(resolver, old(rows), order[..updated])
      ensures updated == (if dryRun then 0 else if budget.Some? && budget.value < |batch| then budget.value else |batch|)
      ensures updated == |batch| ==> (rows == Converted(resolver, old(rows)) <==> Separate(resolver, old(rows)))
      ensures dryRun || updated == |batch| ==>
        && converted == Count(batch, (r: Row) => r.version == OLD_VERSION) && backfilled == |batch| - converted
        && repriced == Count(batch, (r: Row) => UpdateFor(resolver, r).price.Some?) && unpriced == |batch| - repriced
    {
      hide Updated, Converted, Count, UpdateFor, Complete, Separate;
      batch, order := Select();
      ghost var t0 := rows;
      ghost var isOld, isPriced := (r: Row) => r.version == OLD_VERSION, (r: Row) => UpdateFor(resolver, r).price.Some?;
      updated, converted, backfilled, repriced, unpriced := 0, 0, 0, 0, 0;
      NothingYet(resolver, t0, batch, order, isOld);
      NothingYet(resolver, t0, batch, order, isPriced);
      for i := 0 to |batch|
        invariant updated == if dryRun then 0 else i
        invariant budget.Some? && !dryRun ==> updated <= budget.value
        invariant Indices(t0, order[..updated]) && rows == Updated(resolver, t0, order[..updated])
        invariant converted == Count(batch[..i], isOld) && backfilled == i - converted
        invariant repriced == Count(batch[..i], isPriced) && unpriced == i - repriced
      {
        if !dryRun && budget.Some? && updated == budget.value {
          return;
        }
        var (id, r) := batch[i];
        var u := Reprice(resolver, r);
        CountNext(batch, i, isOld);
        CountNext(batch, i, isPriced);
        if u.price.Some? {
          repriced := repriced + 1;
        } else {
          unpriced := unpriced + 1;
        }
        if r.version == OLD_VERSION {
          converted := converted + 1;
        } else {
          backfilled := backfilled + 1;
        }
        if !dryRun {
          UpdatedNext(resolver, t0, order, i);
          rows := Apply(rows, id, u);
          updated := updated + 1;
        }
      }
      assert batch[..|batch|] == batch && order[..|order|] == order;
      RunExact(resolver, t0, order);
    }
  }

  function Snapshot(t: Facts, order: seq<nat>): Facts
    requires Indices(t, order)
  {
    seq(|order|, k requires 0 <= k < |order| => t[order[k]])
  }

  function Count(batch: Facts, p: Row -> bool): nat {
    if batch == [] then 0 else Count(batch[..|batch| - 1], p) + if p(batch[|batch| - 1].1) then 1 else 0
  }

  lemma NothingYet(resolver: Resolver, t: Facts, batch: Facts, order: seq<nat>, p: Row -> bool)
    ensures Count(batch[..0], p) == 0 && Indices(t, order[..0]) && Updated(resolver, t, order[..0]) == t
  {
  }

  lemma CountNext(batch: Facts, i: nat, p: Row -> bool)
    requires i < |batch|
    ensures Count(batch[..i + 1], p) == Count(batch[..i], p) + if p(batch[i].1) then 1 else 0
  {
    assert batch[..i + 1][..i] == batch[..i];
  }

  lemma UpdatedNext(resolver: Resolver, t: Facts, order: seq<nat>, i: nat)
    requires Indices(t, order) && i < |order|
    ensures Updated(resolver, t, order[..i + 1])
         == Apply(Updated(resolver, t, order[..i]), t[order[i]].0, UpdateFor(resolver, t[order[i]].1))
  {
    assert order[..i + 1][..i] == order[..i];
  }

  // ---- when a run converts each row on its own ----

  /** Rows sharing an id do not disturb one another: selected ones write the same, other ones have that already. */
  predicate Separate(resolver: Resolver, t: Facts) {
    forall i, j :: 0 <= i < |t| && 0 <= j < |t| && Selected(t[i].1) && t[i].0 == t[j].0 ==>
      var u := UpdateFor(resolver, t[i].1);
      if Selected(t[j].1) then u == UpdateFor(resolver, t[j].1) else Stamp(t[j].1, u) == t[j].1
  }

  predicate UniqueIds(t: Facts) {
    forall i, j :: 0 <= i < j < |t| ==> t[i].0 != t[j].0
  }

  lemma StampTwice(r: Row, u: Update)
    ensures Stamp(Stamp(r, u), u) == Stamp(r, u) && !Selected(Stamp(r, u))
  {
  }

  /** What a stamped row shows of its update is all of it. */
  lemma StampTells(r: Row, s: Row, u: Update, v: Update)
    requires Stamp(r, u) == Stamp(s, v)
    ensures u == v
  {
  }

  /** Once its id was updated, a row shows the last of those updates, on top of r, and is not selected; else it is unchanged. */
  lemma {:induction false} LastUpdate(resolver: Resolver, t: Facts, order: seq<nat>, j: nat) returns (k: nat, r: Row)
    requires Indices(t, order) && j < |t|
    ensures k <= |order| && forall l :: k < l < |order| ==> t[order[l]].0 != t[j].0
    ensures k == |order| ==> (forall l :: 0 <= l < |order| ==> t[order[l]].0 != t[j].0) && Updated(resolver, t, order)[j] == t[j]
    ensures k < |order| ==> t[order[k]].0 == t[j].0 && !Selected(Updated(resolver, t, order)[j].1)
    ensures k < |order| ==> Updated(resolver, t, order)[j].1 == Stamp(r, UpdateFor(resolver, t[order[k]].1))
  {
    hide Stamp, UpdateFor, Selected;
    if order == [] {
      k, r := 0, t[j].1;
    } else {
      var n := |order| - 1;
      k, r := LastUpdate(resolver, t, order[..n], j);
      if t[order[n]].0 == t[j].0 {
        k, r := n, Updated(resolver, t, order[..n])[j].1;
        StampTwice(r, UpdateFor(resolver, t[order[n]].1));
      } else if k == n {
        k := |order|;
      }
    }
  }

  predicate Hit(t: Facts, order: seq<nat>, id: string)
    requires Indices(t, order)
  {
    exists k :: 0 <= k < |order| && t[order[k]].0 == id
  }

  /** An update a selected row `i` gives rise to, on a row that is as it was or converted already. */
  lemma SeparateStep(resolver: Resolver, t: Facts, i: nat, j: nat, row: (string, Row))
    requires Separate(resolver, t) && i < |t| && j < |t| && Selected(t[i].1) && t[i].0 == t[j].0
    requires row == t[j] || row == Converted(resolver, t)[j]
    ensures (t[j].0, Stamp(row.1, UpdateFor(resolver, t[i].1))) == Converted(resolver, t)[j]
  {
    StampTwice(t[j].1, UpdateFor(resolver, t[j].1));
  }

  lemma {:induction false} SeparateRun(resolver: Resolver, t: Facts, order: seq<nat>)
    requires Batch(t, order) && Separate(resolver, t)
    ensures forall j :: 0 <= j < |t| ==>
      Updated(resolver, t, order)[j] == if Hit(t, order, t[j].0) then Converted(resolver, t)[j] else t[j]
  {
    hide Separate, Selected, Stamp, UpdateFor;
    if order != [] {
      var n := |order| - 1;
      SeparateRun(resolver, t, order[..n]);
      forall j | 0 <= j < |t|
        ensures Updated(resolver, t, order)[j] == if Hit(t, order, t[j].0) then Converted(resolver, t)[j] else t[j]
      {
        if t[order[n]].0 == t[j].0 {
          SeparateStep(resolver, t, order[n], j, Updated(resolver, t, order[..n])[j]);
        }
      }
    }
  }

  /** A run that converts each row on its own shows that two rows of one id do not disturb one another. */
  lemma OwnUpdate(resolver: Resolver, t: Facts, order: seq<nat>, i: nat, j: nat)
    requires Complete(t, order) && Updated(resolver, t, order) == Converted(resolver, t)
    requires i < |t| && j < |t| && Selected(t[i].1) && t[i].0 == t[j].0
    ensures var u := UpdateFor(resolver, t[i].1);
            if Selected(t[j].1) then u == UpdateFor(resolver, t[j].1) else Stamp(t[j].1, u) == t[j].1
  {
    var at :| 0 <= at < |order| && order[at] == i;
    var k, r := LastUpdate(resolver, t, order, i);
    var l, s := LastUpdate(resolver, t, order, j);
    var u := UpdateFor(resolver, t[order[k]].1);
    StampTells(r, t[i].1, u, UpdateFor(resolver, t[i].1));
    if Selected(t[j].1) {
      StampTells(s, t[j].1, u, UpdateFor(resolver, t[j].1));
    } else {
      StampTwice(s, u);
    }
  }

  /**
   A run that finishes gives every selected row its own conversion and leaves the other rows alone exactly when
   selected rows that share an id carry the same update and an unselected one has that update's columns already.
   */
  lemma RunExact(resolver: Resolver, t: Facts, order: seq<nat>)
    requires Complete(t, order)
    ensures Updated(resolver, t, order) == Converted(resolver, t) <==> Separate(resolver, t)
  {
    hide Updated, UpdateFor, Stamp;
    if Separate(resolver, t) {
      SeparateRun(resolver, t, order);
      forall j | 0 <= j < |t|
        ensures Updated(resolver, t, order)[j] == Converted(resolver, t)[j]
      {
        if Selected(t[j].1) {
          var k :| 0 <= k < |order| && order[k] == j;
          assert t[order[k]].0 == t[j].0;
        }
      }
      assert Updated(resolver, t, order) == Converted(resolver, t);
    }
    if Updated(resolver, t, order) == Converted(resolver, t) {
      forall i, j | 0 <= i < |t| && 0 <= j < |t| && Selected(t[i].1) && t[i].0 == t[j].0
        ensures var u := UpdateFor(resolver, t[i].1);
                if Selected(t[j].1) then u == UpdateFor(resolver, t[j].1) else Stamp(t[j].1, u) == t[j].1
      {
        OwnUpdate(resolver, t, order, i, j);
      }
    }
  }

  lemma UniqueIdsConvert(resolver: Resolver, t: Facts, order: seq<nat>)
    requires UniqueIds(t) && Complete(t, order)
    ensures Updated(resolver, t, order) == Converted(resolver, t)
  {
    RunExact(resolver, t, order);
  }

  function OldRow(org: string, input: int): Row {
    Row("anthropic", "claude", 0, org, input, 0, 0, 5, 0, OLD_VERSION, Some("1"), None, None)
  }

  /** Two orgs' events under one id: a finished run leaves both with the input of whichever came last. */
  lemma SharedIdsCollide(resolver: Resolver, order: seq<nat>)
    requires Complete([("e", OldRow("a", 10)), ("e", OldRow("b", 20))], order)
    ensures var t := [("e", OldRow("a", 10)), ("e", OldRow("b", 20))];
            Updated(resolver, t, order)[0].1.input == Updated(resolver, t, order)[1].1.input
            && Updated(resolver, t, order) != Converted(resolver, t)
  {
    var t := [("e", OldRow("a", 10)), ("e", OldRow("b", 20))];
    var k, r := LastUpdate(resolver, t, order, 0);
    var l, s := LastUpdate(resolver, t, order, 1);
    var u := UpdateFor(resolver, t[order[k]].1);
    assert k == l;
    assert Converted(resolver, t)[0].1.input == 10 && Converted(resolver, t)[1].1.input == 20;
  }

  // ---- interrupted and repeated runs ----

  /** Any number of runs, one after another; each takes its own snapshot. */
  function Runs(resolver: Resolver, t: Facts, orders: seq<seq<nat>>): (u: Facts)
    requires forall k :: 0 <= k < |orders| ==> Indices(t, orders[k])
    ensures |u| == |t| && forall j :: 0 <= j < |t| ==> u[j].0 == t[j].0
  {
    if orders == [] then t
    else
      assert Indices(t, orders[|orders| - 1]);
      Updated(resolver, Runs(resolver, t, orders[..|orders| - 1]), orders[|orders| - 1])
  }

  /** Each run updates rows selected when it starts; it may be cut off, and repeat an update. */
  ghost predicate Interrupted(resolver: Resolver, t: Facts, orders: seq<seq<nat>>) {
    && (forall k :: 0 <= k < |orders| ==> Indices(t, orders[k]))
    && (orders != [] ==>
      && Interrupted(resolver, t, orders[..|orders| - 1])
      && Batch(Runs(resolver, t, orders[..|orders| - 1]), orders[|orders| - 1]))
  }

  /** The last run finishes. */
  ghost predicate Finished(resolver: Resolver, t: Facts, orders: seq<seq<nat>>) {
    && Interrupted(resolver, t, orders) && orders != []
    && Complete(Runs(resolver, t, orders[..|orders| - 1]), orders[|orders| - 1])
  }

  /** Selected rows that share an id give rise to the same update. */
  predicate Agreed(resolver: Resolver, t: Facts) {
    forall i, j :: 0 <= i < |t| && 0 <= j < |t| && Selected(t[i].1) && Selected(t[j].1) && t[i].0 == t[j].0 ==>
      UpdateFor(resolver, t[i].1) == UpdateFor(resolver, t[j].1)
  }

  /** The rows of the ids in `done` carry the update of their id, the others are as in `t`. */
  ghost predicate Halfway(resolver: Resolver, t: Facts, u: Facts, done: set<string>) {
    && |u| == |t|
    && (forall id :: id in done ==> exists i :: 0 <= i < |t| && Selected(t[i].1) && t[i].0 == id)
    && (forall j :: 0 <= j < |t| ==> u[j].0 == t[j].0)
    && (forall j :: 0 <= j < |t| && t[j].0 !in done ==> u[j] == t[j])
    && (forall i, j :: 0 <= i < |t| && 0 <= j < |t| && t[j].0 in done && Selected(t[i].1) && t[i].0 == t[j].0 ==>
      u[j].1 == Stamp(t[j].1, UpdateFor(resolver, t[i].1)))
  }

  lemma DoneUnselected(resolver: Resolver, t: Facts, u: Facts, done: set<string>, j: nat)
    requires Halfway(resolver, t, u, done) && j < |t| && Selected(u[j].1)
    ensures t[j].0 !in done && u[j] == t[j]
  {
    if t[j].0 in done {
      var i :| 0 <= i < |t| && Selected(t[i].1) && t[i].0 == t[j].0;
      StampTwice(t[j].1, UpdateFor(resolver, t[i].1));
    }
  }

  lemma HalfwayNext(resolver: Resolver, t: Facts, u: Facts, done: set<string>, i: nat)
    requires Agreed(resolver, t) && Halfway(resolver, t, u, done) && i < |t| && Selected(t[i].1)
    ensures Halfway(resolver, t, Apply(u, t[i].0, UpdateFor(resolver, t[i].1)), done + {t[i].0})
  {
    hide Stamp, UpdateFor, Selected;
    var v := UpdateFor(resolver, t[i].1);
    forall j | 0 <= j < |t| && t[j].0 == t[i].0
      ensures Stamp(u[j].1, v) == Stamp(t[j].1, v)
    {
      if t[j].0 in done {
        StampTwice(t[j].1, v);
      }
    }
  }

  lemma {:induction false} HalfwayRun(resolver: Resolver, t: Facts, u: Facts, done: set<string>, order: seq<nat>)
    returns (more: set<string>)
    requires Agreed(resolver, t) && Halfway(resolver, t, u, done) && Batch(u, order)
    ensures Halfway(resolver, t, Updated(resolver, u, order), more) && done <= more
    ensures forall k :: 0 <= k < |order| ==> t[order[k]].0 in more
  {
    hide Selected, UpdateFor, Stamp, Agreed, Apply;
    if order == [] {
      more := done;
    } else {
      var n := |order| - 1;
      more := HalfwayRun(resolver, t, u, done, order[..n]);
      DoneUnselected(resolver, t, u, done, order[n]);
      HalfwayNext(resolver, t, Updated(resolver, u, order[..n]), more, order[n]);
      more := more + {t[order[n]].0};
      forall k | 0 <= k < |order|
        ensures t[order[k]].0 in more
      {
        assert k < n ==> order[..n][k] == order[k];
      }
    }
  }

  lemma {:induction false} HalfwayRuns(resolver: Resolver, t: Facts, orders: seq<seq<nat>>) returns (done: set<string>)
    requires Agreed(resolver, t) && Interrupted(resolver, t, orders)
    ensures Halfway(resolver, t, Runs(resolver, t, orders), done)
    ensures Finished(resolver, t, orders) ==> forall i :: 0 <= i < |t| && Selected(t[i].1) ==> t[i].0 in done
  {
    hide Selected, UpdateFor, Stamp;
    if orders == [] {
      done := {};
    } else {
      var n := |orders| - 1;
      var before := HalfwayRuns(resolver, t, orders[..n]);
      done := HalfwayRun(resolver, t, Runs(resolver, t, orders[..n]), before, orders[n]);
      if Finished(resolver, t, orders) {
        forall i | 0 <= i < |t| && Selected(t[i].1)
          ensures t[i].0 in done
        {
          if t[i].0 !in before {
            var k :| 0 <= k < |orders[n]| && orders[n][k] == i;
          }
        }
      }
    }
  }

  /** The rows `order` and the selected ones before `n` that it lacks, `order` last. */
  lemma {:induction false} FillUp(t: Facts, order: seq<nat>, n: nat) returns (full: seq<nat>)
    requires n <= |t| && Batch(t, order) && forall k, l :: 0 <= k < l < |order| ==> order[k] != order[l]
    ensures Batch(t, full) && forall k, l :: 0 <= k < l < |full| ==> full[k] != full[l]
    ensures |full| >= |order| && full[|full| - |order|..] == order
    ensures forall i :: 0 <= i < n && Selected(t[i].1) ==> i in full
  {
    full := order;
    if n > 0 {
      full := FillUp(t, order, n - 1);
      if Selected(t[n - 1].1) && n - 1 !in full {
        full := [n - 1] + full;
      }
    }
  }

  /** A run that finishes with row `i`. */
  lemma EndsWith(resolver: Resolver, t: Facts, i: nat) returns (order: seq<nat>)
    requires i < |t| && Selected(t[i].1)
    ensures Finished(resolver, t, [order]) && Runs(resolver, t, [order]) == Updated(resolver, t, order)
    ensures Complete(t, order) && order != [] && order[|order| - 1] == i
  {
    order := FillUp(t, [i], |t|);
    assert order[|order| - 1..][0] == i;
    OneRun(resolver, t, order);
  }

  lemma OneRun(resolver: Resolver, t: Facts, order: seq<nat>)
    requires Complete(t, order)
    ensures Finished(resolver, t, [order]) && Runs(resolver, t, [order]) == Updated(resolver, t, order)
  {
    assert [order][..0] == [];
    assert Interrupted(resolver, t, []) && Runs(resolver, t, []) == t;
    assert Interrupted(resolver, t, [order]);
  }

  /**
   However runs are interrupted and whatever order their updates take, they end with one and the same table exactly
   when selected rows sharing an id give rise to the same update.
   */
  lemma OneOutcomeIff(resolver: Resolver, t: Facts)
    ensures Agreed(resolver, t) <==>
            forall a, b :: Finished(resolver, t, a) && Finished(resolver, t, b) ==> Runs(resolver, t, a) == Runs(resolver, t, b)
  {
    hide Updated, Separate, Converted, Batch, Complete, OnceEach, Agreed;
    if Agreed(resolver, t) {
      forall a, b | Finished(resolver, t, a) && Finished(resolver, t, b)
        ensures Runs(resolver, t, a) == Runs(resolver, t, b)
      {
        SameOutcome(resolver, t, a, b);
      }
    } else {
      var a, b := TwoOutcomes(resolver, t);
    }
  }

  lemma SameOutcome(resolver: Resolver, t: Facts, a: seq<seq<nat>>, b: seq<seq<nat>>)
    requires Agreed(resolver, t) && Finished(resolver, t, a) && Finished(resolver, t, b)
    ensures Runs(resolver, t, a) == Runs(resolver, t, b)
  {
    var x := HalfwayRuns(resolver, t, a);
    var y := HalfwayRuns(resolver, t, b);
    hide Runs, Halfway;
  }

  lemma TwoOutcomes(resolver: Resolver, t: Facts) returns (a: seq<seq<nat>>, b: seq<seq<nat>>)
    requires !Agreed(resolver, t)
    ensures Finished(resolver, t, a) && Finished(resolver, t, b) && Runs(resolver, t, a) != Runs(resolver, t, b)
  {
    hide Updated, Runs, UpdateFor, Stamp, Finished, Selected;
    var i, j :| 0 <= i < |t| && 0 <= j < |t| && Selected(t[i].1) && Selected(t[j].1) && t[i].0 == t[j].0
      && UpdateFor(resolver, t[i].1) != UpdateFor(resolver, t[j].1);
    var x := EndsWith(resolver, t, i);
    var y := EndsWith(resolver, t, j);
    a, b := [x], [y];
    var k, r := LastUpdate(resolver, t, x, j);
    var l, s := LastUpdate(resolver, t, y, j);
    var u, v := UpdateFor(resolver, t[i].1), UpdateFor(resolver, t[j].1);
    if Stamp(r, u) == Stamp(s, v) {
      StampTells(r, s, u, v);
    }
  }

  /** Interrupted runs leave every row untouched or converted once, exactly when rows do not disturb one another. */
  lemma ConvertsOnceIff(resolver: Resolver, t: Facts)
    ensures Separate(resolver, t) <==>
            (forall orders :: Interrupted(resolver, t, orders) ==> OnceEach(resolver, t, Runs(resolver, t, orders)))
  {
    hide Updated, Separate, Converted, Batch, Complete, OnceEach, Agreed;
    if Separate(resolver, t) {
      forall orders | Interrupted(resolver, t, orders)
        ensures OnceEach(resolver, t, Runs(resolver, t, orders))
      {
        ConvertsOnce(resolver, t, orders);
      }
    } else {
      DisturbedRun(resolver, t);
    }
  }

  predicate OnceEach(resolver: Resolver, t: Facts, u: Facts) {
    |u| == |t| && forall j :: 0 <= j < |t| ==> u[j] == t[j] || (Selected(t[j].1) && u[j] == Converted(resolver, t)[j])
  }

  lemma ConvertsOnce(resolver: Resolver, t: Facts, orders: seq<seq<nat>>)
    requires Separate(resolver, t) && Interrupted(resolver, t, orders)
    ensures OnceEach(resolver, t, Runs(resolver, t, orders))
    ensures Finished(resolver, t, orders) ==> Runs(resolver, t, orders) == Converted(resolver, t)
  {
    hide UpdateFor, Stamp, Selected, Updated;
    assert Agreed(resolver, t);
    var done := HalfwayRuns(resolver, t, orders);
    var u := Runs(resolver, t, orders);
    forall j | 0 <= j < |t|
      ensures u[j] == t[j] || (Selected(t[j].1) && u[j] == Converted(resolver, t)[j])
      ensures Finished(resolver, t, orders) ==> u[j] == Converted(resolver, t)[j]
    {
      if t[j].0 in done {
        var i :| 0 <= i < |t| && Selected(t[i].1) && t[i].0 == t[j].0;
        assert u[j].1 == Stamp(t[j].1, UpdateFor(resolver, t[i].1));
      }
    }
  }

  lemma DisturbedRun(resolver: Resolver, t: Facts)
    requires !Separate(resolver, t)
    ensures exists orders :: Interrupted(resolver, t, orders) && !OnceEach(resolver, t, Runs(resolver, t, orders))
  {
    hide Runs, Updated, Interrupted, UpdateFor, Stamp, Separate;
    var order := FillUp(t, [], |t|);
    OneRun(resolver, t, order);
    RunExact(resolver, t, order);
    var u := Runs(resolver, t, [order]);
    if OnceEach(resolver, t, u) {
      var j :| 0 <= j < |t| && u[j] != Converted(resolver, t)[j];
      var k, r := LastUpdate(resolver, t, order, j);
    }
  }

  /** Interrupted runs followed by one that finishes give every row its own conversion exactly under that condition. */
  lemma ResumableIff(resolver: Resolver, t: Facts)
    ensures Separate(resolver, t) <==>
            (forall orders :: Finished(resolver, t, orders) ==> Runs(resolver, t, orders) == Converted(resolver, t))
  {
    hide Updated, Separate, Converted, Batch, Complete, OnceEach, Agreed;
    if Separate(resolver, t) {
      forall orders | Finished(resolver, t, orders)
        ensures Runs(resolver, t, orders) == Converted(resolver, t)
      {
        ConvertsOnce(resolver, t, orders);
      }
    } else {
      UnconvertedRun(resolver, t);
    }
  }

  lemma UnconvertedRun(resolver: Resolver, t: Facts)
    requires !Separate(resolver, t)
    ensures exists orders :: Finished(resolver, t, orders) && Runs(resolver, t, orders) != Converted(resolver, t)
  {
    hide Runs, Updated, Separate, Converted, Finished;
    var order := FillUp(t, [], |t|);
    OneRun(resolver, t, order);
    RunExact(resolver, t, order);
    assert Finished(resolver, t, [order]);
  }

  /** After a run that finishes nothing is selected, so the next one finds nothing to do. */
  lemma Idempotent(resolver: Resolver, t: Facts, orders: seq<seq<nat>>)
    requires Finished(resolver, t, orders)
    ensures forall j :: 0 <= j < |t| ==> !Selected(Runs(resolver, t, orders)[j].1)
  {
    hide Updated, UpdateFor, Stamp, Selected;
    var n := |orders| - 1;
    var m := Runs(resolver, t, orders[..n]);
    forall j | 0 <= j < |t|
      ensures !Selected(Runs(resolver, t, orders)[j].1)
    {
      var k, r := LastUpdate(resolver, m, orders[n], j);
      assert Selected(m[j].1) ==> j in orders[n];
    }
  }

  /**
   The split adds up to the old total exactly when the old total covered both caches, and exactly then a price tier is
   chosen from the same context size before and after; the pure input is never subtracted from again. At any rates the
   converted row, priced as pure input, costs what the old one cost when its input was read as the total.
   */
  lemma SplitConservesInput(resolver: Resolver, r: Row)
    requires r.version == OLD_VERSION
    ensures var c := Convert(resolver, r);
            && (c.input + c.cached + c.creation == r.input <==> r.cached + r.creation <= r.input)
            && (TotalContext(c) == TotalContext(r) <==> r.cached + r.creation <= r.input)
            && Pure(c) == Pure(r)
            && forall up :: Pricing.Cost(up, Counts(c), false) == Pricing.Cost(up, Counts(r), true)
  {
  }

  function Counts(r: Row): Pricing.Tokens {
    Pricing.Tokens(r.input, r.output, r.cached, r.creation, r.reasoning)
  }

  /**
   A converted row, column by column: the priced amount and the rates it was priced with come from one lookup, made with the
   pure input and the whole context; without a price the amount goes and rates and currency stay.
   */
  lemma ConvertedRow(resolver: Resolver, r: Row)
    ensures var c := Convert(resolver, r);
            var total := r.version == "0.1.0";
            var pure := if total then (if r.cached + r.creation <= r.input then r.input - r.cached - r.creation else 0) else r.input;
            var price := resolver(r, pure, if total then r.input else r.input + r.cached + r.creation);
            && c.version == "0.2.0" && c.input == pure
            && (price.Some? ==> c.billable == Some(price.value.amount) && c.snapshot == Some(price.value.rates) && c.currency == Some("USD"))
            && (price.None? ==> c.billable == None && c.snapshot == r.snapshot && c.currency == r.currency)
            && c.(version := r.version, input := r.input, billable := r.billable, snapshot := r.snapshot, currency := r.currency) == r
  {
  }
}
