/**
 The resend contract: a delivery that met a transient failure is answered 503 and sent again.
 Over any series of deliveries, of any batches, under any faults, nothing stored is lost,
 changed or doubled, and whatever a 200 covers is stored.
 */
module UsageResend {
  import opened Database
  import opened Options
  import opened Sets
  import opened UsageIngest
  import WatermarkStore

  /** Rows are only added, never changed. */
  ghost predicate Keeps(a: Table, b: Table) {
    forall k :: k in a ==> k in b && b[k] == a[k]
  }

  predicate StoresRow(r: Result) {
    r.status.Accepted? || r.status.QuarantinedStatus?
  }

  function StoredCount(results: seq<Result>): nat {
    Count(results, (r: Result) => StoresRow(r))
  }

  /** Every row sits under its own key. */
  ghost predicate Keyed(env: Env, ods: Table) {
    forall k :: k in ods ==> k == KeyOf(env, ods[k].event)
  }

  /** The event passes every check before the insert. */
  predicate Sound(env: Env, e: Event) {
    Validate(e).None? && env.marshals(Defaulted(e))
  }

  /** No stored row of the same event carries another event time. */
  predicate SameTime(env: Env, ods: Table, e: Event) {
    KeyOf(env, e) in ods ==> ods[KeyOf(env, e)].event.time == e.time
  }

  function RowOf(env: Env, e: Event): Row {
    Row(Defaulted(e), Corrupt(env, Defaulted(e)))
  }

  /** The event is stored but its reply is lost: the insert meets a free key. */
  predicate Lost(env: Env, ods: Table, e: Event, fault: Fault) {
    fault.LostReply? && Sound(env, e) && env.admits(Defaulted(e)) && KeyOf(env, e) !in ods
  }

  lemma InsertShape(env: Env, ods: Table, e: Event, quarantined: bool, fault: Fault)
    ensures var (t, outcome) := Insert(env, ods, e, quarantined, fault);
            var lost := fault.LostReply? && env.admits(e) && KeyOf(env, e) !in ods;
            && (if outcome.Inserted? || lost then KeyOf(env, e) !in ods && t == ods[KeyOf(env, e) := Row(e, quarantined)] else t == ods)
            && !(outcome.Inserted? && lost)
  {
  }

  /** A row is added exactly when the answer says so or the reply is lost, under a free key, with the defaulted content. */
  lemma IngestOneShape(env: Env, ods: Table, e: Event, fault: Fault)
    ensures var s := IngestOne(env, ods, e, fault);
            && (if StoresRow(s.result) || Lost(env, ods, e, fault)
                then Sound(env, e) && KeyOf(env, e) !in ods && s.ods == ods[KeyOf(env, e) := RowOf(env, e)]
                else s.ods == ods)
            && !(StoresRow(s.result) && Lost(env, ods, e, fault))
  {
    InsertShape(env, ods, Defaulted(e), Corrupt(env, Defaulted(e)), fault);
    hide Insert;
  }

  lemma IngestOneKeeps(env: Env, ods: Table, e: Event, fault: Fault)
    requires Keyed(env, ods)
    ensures var s := IngestOne(env, ods, e, fault);
            && Keeps(ods, s.ods) && Keyed(env, s.ods)
            && |s.ods| == |ods| + (if StoresRow(s.result) then 1 else 0) + (if Lost(env, ods, e, fault) then 1 else 0)
            && (forall k :: k in s.ods && k !in ods ==> k == KeyOf(env, e) && Sound(env, e) && s.ods[k] == RowOf(env, e))
  {
    IngestOneShape(env, ods, e, fault);
    hide IngestOne, Lost;
  }

  /** A result that is not transient means the event is stored, unless a check or another constraint turned it away. */
  lemma IngestOneStores(env: Env, ods: Table, e: Event, fault: Fault)
    requires !IngestOne(env, ods, e, fault).result.transient
    requires Sound(env, e) && env.admits(Defaulted(e)) && SameTime(env, ods, e)
    ensures Stored(env, IngestOne(env, ods, e, fault).ods, e)
  {
  }

  lemma KeepsTransitive(a: Table, b: Table, c: Table)
    requires Keeps(a, b) && Keeps(b, c)
    ensures Keeps(a, c)
  {
  }

  /** New rows come from the batch, with the content their event had. */
  ghost predicate NewRowsFrom(env: Env, a: Table, b: Table, events: seq<Event>) {
    forall k :: k in b && k !in a ==>
      exists e :: e in events && k == KeyOf(env, e) && Sound(env, e) && b[k] == RowOf(env, e)
  }

  /** How many of the first n events are stored with their reply lost. */
  function LostCount(env: Env, ods: Table, events: seq<Event>, faults: nat -> Fault, n: nat): nat
    requires n <= |events|
  {
    if n == 0 then 0
    else
      LostCount(env, ods, events, faults, n - 1)
        + if Lost(env, Ingest(env, ods, events, faults, n - 1).ods, events[n - 1], faults(n - 1)) then 1 else 0
  }

  lemma {:induction false} NoneLost(env: Env, ods: Table, events: seq<Event>, faults: nat -> Fault, n: nat)
    requires n <= |events|
    ensures LostCount(env, ods, events, faults, n) == 0
       <==> forall k :: 0 <= k < n ==> !Lost(env, Ingest(env, ods, events, faults, k).ods, events[k], faults(k))
  {
    hide Lost, Ingest;
    if n > 0 {
      NoneLost(env, ods, events, faults, n - 1);
    }
  }

  lemma StoredNext(results: seq<Result>, r: Result)
    ensures StoredCount(results + [r]) == StoredCount(results) + (if StoresRow(r) then 1 else 0) && StoredCount([]) == 0
  {
    assert (results + [r])[..|results|] == results;
  }

  lemma {:induction false} IngestKeeps(env: Env, ods: Table, events: seq<Event>, faults: nat -> Fault, n: nat)
    requires n <= |events| && Keyed(env, ods)
    ensures var r := Ingest(env, ods, events, faults, n);
            && Keeps(ods, r.ods) && Keyed(env, r.ods)
            && |r.ods| == |ods| + StoredCount(r.results) + LostCount(env, ods, events, faults, n)
            && NewRowsFrom(env, ods, r.ods, events)
  {
    hide IngestOne, Keeps, Keyed, NewRowsFrom, StoredCount, Lost;
    if n > 0 {
      IngestKeeps(env, ods, events, faults, n - 1);
      var before := Ingest(env, ods, events, faults, n - 1);
      var e := events[n - 1];
      IngestOneKeeps(env, before.ods, e, faults(n - 1));
      var s := IngestOne(env, before.ods, e, faults(n - 1));
      KeepsTransitive(ods, before.ods, s.ods);
      StoredNext(before.results, s.result);
      NewRowsNext(env, ods, before.ods, s.ods, events, e);
    } else {
      StoredNext([], Result("", Rejected, "", false, false));
      NewRowsNone(env, ods, events);
    }
  }

  lemma NewRowsNone(env: Env, ods: Table, events: seq<Event>)
    ensures NewRowsFrom(env, ods, ods, events) && Keeps(ods, ods)
  {
  }

  lemma NewRowsNext(env: Env, a: Table, b: Table, c: Table, events: seq<Event>, e: Event)
    requires NewRowsFrom(env, a, b, events) && Keeps(b, c) && e in events
    requires forall k :: k in c && k !in b ==> k == KeyOf(env, e) && Sound(env, e) && c[k] == RowOf(env, e)
    ensures NewRowsFrom(env, a, c, events)
  {
    hide Sound, KeyOf, RowOf;
    forall k | k in c && k !in a
      ensures exists x :: x in events && k == KeyOf(env, x) && Sound(env, x) && c[k] == RowOf(env, x)
    {
      if k in b {
        var x :| x in events && k == KeyOf(env, x) && Sound(env, x) && b[k] == RowOf(env, x);
      }
    }
  }

  /** A table grown by rows of the batch still agrees with the time of an event of the batch. */
  lemma LeftSameTime(env: Env, ods: Table, left: Table, events: seq<Event>, j: nat)
    requires j < |events| && Keeps(ods, left) && NewRowsFrom(env, ods, left, events) && SameTime(env, ods, events[j])
    requires forall e :: e in events && e.org == events[j].org && e.id == events[j].id ==> e.time == events[j].time
    ensures SameTime(env, left, events[j])
  {
    var k := KeyOf(env, events[j]);
    if k in left && k !in ods {
      var e :| e in events && k == KeyOf(env, e) && Sound(env, e) && left[k] == RowOf(env, e);
      assert e.org == events[j].org && e.id == events[j].id;
    }
  }

  lemma StoredStaysIn(env: Env, a: Table, b: Table, e: Event)
    requires Keeps(a, b) && Stored(env, a, e)
    ensures Stored(env, b, e)
  {
  }

  /** After the first n events, event i < n of a run without transient results is stored. */
  lemma {:induction false} IngestStores(env: Env, ods: Table, events: seq<Event>, faults: nat -> Fault, n: nat, i: nat)
    requires i < n <= |events| && Keyed(env, ods)
    requires !Ingest(env, ods, events, faults, n).results[i].transient
    requires Sound(env, events[i]) && env.admits(Defaulted(events[i]))
    requires SameTime(env, ods, events[i])
    requires forall e :: e in events && e.org == events[i].org && e.id == events[i].id ==> e.time == events[i].time
    ensures Stored(env, Ingest(env, ods, events, faults, n).ods, events[i])
  {
    hide IngestOne, Keeps, Keyed, NewRowsFrom, Stored, SameTime, Sound, Defaulted, Lost;
    var before := Ingest(env, ods, events, faults, n - 1);
    IngestKeeps(env, ods, events, faults, n - 1);
    if i == n - 1 {
      LeftSameTime(env, ods, before.ods, events, i);
      IngestOneStores(env, before.ods, events[i], faults(i));
    } else {
      assert Ingest(env, ods, events, faults, n).results[i] == before.results[i];
      IngestStores(env, ods, events, faults, n - 1, i);
      IngestOneKeeps(env, before.ods, events[n - 1], faults(n - 1));
      StoredStaysIn(env, before.ods, Ingest(env, ods, events, faults, n).ods, events[i]);
    }
  }

  // ---- series of deliveries ----

  // One HTTP delivery: its batch and the faults it meets.
  datatype Post = Post(events: seq<Event>, script: Script)

  function Serve(env: Env, ods: Table, posts: seq<Post>): Table {
    if posts == [] then ods
    else
      var last := posts[|posts| - 1];
      BatchRun(env, Serve(env, ods, posts[..|posts| - 1]), last.events, last.script).ods
  }

  function Answer(env: Env, ods: Table, posts: seq<Post>, i: nat): (r: seq<Result>)
    requires i < |posts|
  {
    BatchRun(env, Serve(env, ods, posts[..i]), posts[i].events, posts[i].script).results
  }

  /** HandleBatch answers 200 exactly when no result is transient. */
  predicate Acknowledged(env: Env, ods: Table, posts: seq<Post>, i: nat)
    requires i < |posts|
  {
    !HasTransient(Answer(env, ods, posts, i))
  }

  /** The rows the responses of a series say they stored. */
  function StoredTotal(env: Env, ods: Table, posts: seq<Post>): nat {
    if posts == [] then 0
    else StoredTotal(env, ods, posts[..|posts| - 1]) + StoredCount(Answer(env, ods, posts, |posts| - 1))
  }

  function AllEvents(posts: seq<Post>): seq<Event> {
    if posts == [] then [] else AllEvents(posts[..|posts| - 1]) + posts[|posts| - 1].events
  }

  /** No reply of this delivery is lost: its commit left nothing behind unheard, and no insert of its last pass did. */
  ghost predicate HeardPost(env: Env, ods: Table, p: Post) {
    var left, faults := Left(env, ods, p.events, p.script), LastFaults(env, ods, p.events, p.script);
    && left == ods
    && forall k :: 0 <= k < |p.events| ==> !Lost(env, Ingest(env, left, p.events, faults, k).ods, p.events[k], faults(k))
  }

  /** The table an attempt leaves: grown by rows of the batch. */
  lemma LeftKeeps(env: Env, ods: Table, events: seq<Event>, s: Script)
    requires Keyed(env, ods)
    ensures var left := Left(env, ods, events, s);
            Keeps(ods, left) && Keyed(env, left) && NewRowsFrom(env, ods, left, events)
  {
    LeftExact(env, ods, events, s);
    IngestKeeps(env, ods, events, _ => NoFault, |events|);
    NewRowsNone(env, ods, events);
    hide Keeps, NewRowsFrom, Left, Prepared, Ingest;
  }

  lemma GrowthExact(a: Table, b: Table)
    requires Keeps(a, b)
    ensures |a| <= |b| && (|a| == |b| <==> b == a)
  {
    assert a.Keys <= b.Keys;
    KeysGrow(a.Keys, b.Keys);
    if |a| == |b| {
      assert forall k :: k in b ==> k in a.Keys;
      assert b == a;
    }
  }

  lemma {:induction false} KeysGrow(a: set<RowKey>, b: set<RowKey>)
    requires a <= b
    ensures |a| <= |b| && (|a| == |b| ==> a == b)
    decreases |a|
  {
    if a != {} {
      var x := Pick(a);
      KeysGrow(a - {x}, b - {x});
      assert a == a - {x} + {x} && b == b - {x} + {x};
    }
  }

  lemma PostKeeps(env: Env, ods: Table, p: Post)
    requires Keyed(env, ods)
    ensures var r := BatchRun(env, ods, p.events, p.script);
            && Keeps(ods, r.ods) && Keyed(env, r.ods) && NewRowsFrom(env, ods, r.ods, p.events)
            && |r.ods| >= |ods| + StoredCount(r.results)
            && (|r.ods| == |ods| + StoredCount(r.results) <==> HeardPost(env, ods, p))
  {
    hide *;
    var left, faults := Left(env, ods, p.events, p.script), LastFaults(env, ods, p.events, p.script);
    var r := Ingest(env, left, p.events, faults, |p.events|);
    BatchIsPerEvent(env, ods, p.events, p.script);
    LeftKeeps(env, ods, p.events, p.script);
    IngestKeeps(env, left, p.events, faults, |p.events|);
    KeepsTransitive(ods, left, r.ods);
    NewRowsTwice(env, ods, left, r.ods, p.events);
    GrowthExact(ods, left);
    NoneLost(env, left, p.events, faults, |p.events|);
    HeardDef(env, ods, p);
  }

  lemma HeardDef(env: Env, ods: Table, p: Post)
    ensures var left, faults := Left(env, ods, p.events, p.script), LastFaults(env, ods, p.events, p.script);
            HeardPost(env, ods, p) <==> (left == ods
              && forall k :: 0 <= k < |p.events| ==> !Lost(env, Ingest(env, left, p.events, faults, k).ods, p.events[k], faults(k)))
  {
  }

  lemma NewRowsTwice(env: Env, a: Table, b: Table, c: Table, events: seq<Event>)
    requires NewRowsFrom(env, a, b, events) && NewRowsFrom(env, b, c, events) && Keeps(b, c)
    ensures NewRowsFrom(env, a, c, events)
  {
    hide Sound, KeyOf, RowOf;
  }

  ghost predicate AllHeard(env: Env, ods: Table, posts: seq<Post>) {
    posts == [] ||
    (AllHeard(env, ods, posts[..|posts| - 1]) && HeardPost(env, Serve(env, ods, posts[..|posts| - 1]), posts[|posts| - 1]))
  }

  /**
   Over any series, lost replies included: stored rows keep their first content, every new row is
   some delivered event, and the table grows by at least what the responses counted as accepted
   or quarantined; by exactly that if and only if no reply was lost that had stored a row.
   */
  lemma {:induction false} SeriesKeeps(env: Env, ods: Table, posts: seq<Post>)
    requires Keyed(env, ods)
    ensures var t := Serve(env, ods, posts);
            && Keeps(ods, t) && Keyed(env, t) && NewRowsFrom(env, ods, t, AllEvents(posts))
            && |t| >= |ods| + StoredTotal(env, ods, posts)
            && (|t| == |ods| + StoredTotal(env, ods, posts) <==> AllHeard(env, ods, posts))
  {
    hide BatchRun, StoredCount, Keeps, Keyed, NewRowsFrom, HeardPost;
    if posts != [] {
      var front, last := posts[..|posts| - 1], posts[|posts| - 1];
      SeriesKeeps(env, ods, front);
      var mid, t := Serve(env, ods, front), Serve(env, ods, posts);
      PostKeeps(env, mid, last);
      KeepsTransitive(ods, mid, t);
      NewRowsJoin(env, ods, mid, t, AllEvents(front), last.events);
    } else {
      NewRowsNone(env, ods, []);
    }
  }

  /**
   The batch does under every replay what the per-event path alone does exactly when its attempt
   left the table as it was: that is, when no unheard commit had stored anything.
   */
  lemma BatchIsPerEventIff(env: Env, ods: Table, events: seq<Event>, s: Script)
    requires Keyed(env, ods)
    ensures (forall replay :: var s' := s.(replay := replay);
               BatchRun(env, ods, events, s') == Ingest(env, ods, events, LastFaults(env, ods, events, s'), |events|))
       <==> Left(env, ods, events, s) == ods
  {
    hide *;
    var left, quiet := Left(env, ods, events, s), s.(replay := _ => NoFault);
    forall replay
      ensures Left(env, ods, events, s.(replay := replay)) == left
    {
      LeftIgnoresReplay(env, ods, events, s, replay);
    }
    forall replay
      ensures var s' := s.(replay := replay);
              BatchRun(env, ods, events, s') == Ingest(env, left, events, LastFaults(env, ods, events, s'), |events|)
    {
      BatchIsPerEvent(env, ods, events, s.(replay := replay));
    }
    if left != ods {
      SecondPassDiffers(env, ods, events, s);
      assert BatchRun(env, ods, events, quiet) != Ingest(env, ods, events, LastFaults(env, ods, events, quiet), |events|);
    }
  }

  lemma LeftIgnoresReplay(env: Env, ods: Table, events: seq<Event>, s: Script, replay: nat -> Fault)
    ensures Left(env, ods, events, s.(replay := replay)) == Left(env, ods, events, s)
  {
    hide Ingest, TxReach;
  }

  lemma SecondPassDiffers(env: Env, ods: Table, events: seq<Event>, s: Script)
    requires Keyed(env, ods) && Left(env, ods, events, s) != ods
    ensures var quiet := s.(replay := _ => NoFault);
            BatchRun(env, ods, events, quiet) != Ingest(env, ods, events, LastFaults(env, ods, events, quiet), |events|)
  {
    var quiet, left := s.(replay := _ => NoFault), Left(env, ods, events, s);
    LeftExact(env, ods, events, s);
    LeftIgnoresReplay(env, ods, events, s, _ => NoFault);
    BatchIsPerEvent(env, ods, events, quiet);
    assert LastFaults(env, ods, events, quiet) == quiet.replay;
    hide *;
    LeftKeeps(env, ods, events, s);
    IngestKeeps(env, ods, events, quiet.replay, |events|);
    IngestKeeps(env, left, events, quiet.replay, |events|);
    NoneLost(env, ods, events, quiet.replay, |events|);
    NoneLost(env, left, events, quiet.replay, |events|);
    GrowthExact(ods, left);
  }

  lemma NewRowsJoin(env: Env, a: Table, b: Table, c: Table, es: seq<Event>, fs: seq<Event>)
    requires Keeps(a, b) && Keeps(b, c) && NewRowsFrom(env, a, b, es) && NewRowsFrom(env, b, c, fs)
    ensures NewRowsFrom(env, a, c, es + fs)
  {
  }

  lemma {:induction false} ServeSplit(env: Env, ods: Table, a: seq<Post>, b: seq<Post>)
    ensures Serve(env, ods, a + b) == Serve(env, Serve(env, ods, a), b)
    decreases |b|
  {
    hide BatchRun;
    if b == [] {
      assert a + b == a;
    } else {
      assert (a + b)[..|a + b| - 1] == a + b[..|b| - 1];
      ServeSplit(env, ods, a, b[..|b| - 1]);
    }
  }

  /** The proxy's contract: an event id carries one event time, in the table and in every delivery. */
  ghost predicate StableTimes(ods: Table, posts: seq<Post>) {
    && (forall e, f :: e in AllEvents(posts) && f in AllEvents(posts) && e.org == f.org && e.id == f.id ==> e.time == f.time)
    && (forall k, e :: k in ods && e in AllEvents(posts) && ods[k].event.org == e.org && ods[k].event.id == e.id ==>
          ods[k].event.time == e.time)
    && (forall k, l :: k in ods && l in ods && ods[k].event.org == ods[l].event.org && ods[k].event.id == ods[l].event.id ==>
          ods[k].event.time == ods[l].event.time)
  }

  lemma {:induction false} EventOfPost(posts: seq<Post>, i: nat, e: Event)
    requires i < |posts| && e in posts[i].events
    ensures e in AllEvents(posts)
    decreases |posts|
  {
    if i < |posts| - 1 {
      EventOfPost(posts[..|posts| - 1], i, e);
    }
  }

  lemma {:induction false} AllEventsPrefix(posts: seq<Post>, n: nat)
    requires n <= |posts|
    ensures forall e :: e in AllEvents(posts[..n]) ==> e in AllEvents(posts)
    decreases |posts|
  {
    if n < |posts| {
      AllEventsPrefix(posts[..|posts| - 1], n);
      assert posts[..|posts| - 1][..n] == posts[..n];
    } else {
      assert posts[..n] == posts;
    }
  }

  /** One acknowledged delivery stores its events. */
  lemma PostStores(env: Env, ods: Table, p: Post, j: nat)
    requires Keyed(env, ods) && j < |p.events| && !HasTransient(BatchRun(env, ods, p.events, p.script).results)
    requires Sound(env, p.events[j]) && env.admits(Defaulted(p.events[j]))
    requires SameTime(env, ods, p.events[j])
    requires forall e :: e in p.events && e.org == p.events[j].org && e.id == p.events[j].id ==> e.time == p.events[j].time
    ensures Stored(env, BatchRun(env, ods, p.events, p.script).ods, p.events[j])
  {
    var left, faults := Left(env, ods, p.events, p.script), LastFaults(env, ods, p.events, p.script);
    BatchIsPerEvent(env, ods, p.events, p.script);
    LeftKeeps(env, ods, p.events, p.script);
    LeftSameTime(env, ods, left, p.events, j);
    hide BatchRun, Committed, Left, NewRowsFrom, Keeps, Keyed, SameTime, Stored, LastFaults;
    var r := Ingest(env, left, p.events, faults, |p.events|);
    assert !r.results[j].transient;
    IngestStores(env, left, p.events, faults, |p.events|, j);
  }

  /** A row stored by one delivery is there at the end of the series. */
  lemma StoredStays(env: Env, ods: Table, a: seq<Post>, p: Post, b: seq<Post>, e: Event)
    requires Keyed(env, ods) && Stored(env, BatchRun(env, Serve(env, ods, a), p.events, p.script).ods, e)
    ensures Stored(env, Serve(env, ods, (a + [p]) + b), e)
  {
    ServeSplit(env, ods, a + [p], b);
    SeriesKeeps(env, ods, a + [p]);
    SeriesKeeps(env, Serve(env, ods, a + [p]), b);
    hide BatchRun, StoredTotal, Serve;
  }

  /** Whatever a 200 covers is stored by the end of the series, unless it was refused or another constraint swallowed it. */
  lemma AcknowledgedIsStored(env: Env, ods: Table, posts: seq<Post>, i: nat, j: nat)
    requires Keyed(env, ods) && StableTimes(ods, posts)
    requires i < |posts| && j < |posts[i].events| && Acknowledged(env, ods, posts, i)
    requires Sound(env, posts[i].events[j]) && env.admits(Defaulted(posts[i].events[j]))
    ensures Stored(env, Serve(env, ods, posts), posts[i].events[j])
  {
    assert !HasTransient(BatchRun(env, Serve(env, ods, posts[..i]), posts[i].events, posts[i].script).results);
    TimesBefore(env, ods, posts, i, j);
    hide *;
    PostStores(env, Serve(env, ods, posts[..i]), posts[i], j);
    StoredStays(env, ods, posts[..i], posts[i], posts[i + 1..], posts[i].events[j]);
    SplitAt(posts, i);
  }

  lemma SplitAt(posts: seq<Post>, i: nat)
    requires i < |posts|
    ensures (posts[..i] + [posts[i]]) + posts[i + 1..] == posts
  {
  }

  /** When delivery i starts, no row and no event of it contradicts the event's time. */
  lemma TimesBefore(env: Env, ods: Table, posts: seq<Post>, i: nat, j: nat)
    requires Keyed(env, ods) && StableTimes(ods, posts) && i < |posts| && j < |posts[i].events|
    ensures var e := posts[i].events[j];
            && Keyed(env, Serve(env, ods, posts[..i])) && SameTime(env, Serve(env, ods, posts[..i]), e)
            && forall f :: f in posts[i].events && f.org == e.org && f.id == e.id ==> f.time == e.time
  {
    SeriesKeeps(env, ods, posts[..i]);
    AllEventsPrefix(posts, i);
    forall f | f in posts[i].events
      ensures f in AllEvents(posts)
    {
      EventOfPost(posts, i, f);
    }
    TimesAgree(env, ods, Serve(env, ods, posts[..i]), posts, i, posts[i].events[j]);
  }

  lemma TimesAgree(env: Env, ods: Table, mid: Table, posts: seq<Post>, i: nat, e: Event)
    requires Keyed(env, ods) && Keyed(env, mid) && StableTimes(ods, posts) && i < |posts| && e in AllEvents(posts)
    requires Keeps(ods, mid) && NewRowsFrom(env, ods, mid, AllEvents(posts[..i]))
    requires forall f :: f in AllEvents(posts[..i]) ==> f in AllEvents(posts)
    ensures SameTime(env, mid, e)
  {
  }

  function Copies(ods: Table, org: string, id: string): set<RowKey> {
    set k | k in ods && k.org == org && k.id == id
  }

  /** Exactly once: however often it was sent, an acknowledged event has one row at the end. */
  lemma ExactlyOnce(env: Env, ods: Table, posts: seq<Post>, i: nat, j: nat)
    requires Keyed(env, ods) && StableTimes(ods, posts)
    requires i < |posts| && j < |posts[i].events| && Acknowledged(env, ods, posts, i)
    requires Sound(env, posts[i].events[j]) && env.admits(Defaulted(posts[i].events[j]))
    ensures var e := posts[i].events[j];
            Copies(Serve(env, ods, posts), e.org, e.id) == {KeyOf(env, e)}
  {
    hide BatchRun, HasTransient, StoredTotal, Serve, Validate;
    var e, t := posts[i].events[j], Serve(env, ods, posts);
    AcknowledgedIsStored(env, ods, posts, i, j);
    SeriesKeeps(env, ods, posts);
    EventOfPost(posts, i, e);
    forall k | k in Copies(t, e.org, e.id)
      ensures k == KeyOf(env, e)
    {
      if k in ods {
        assert ods[k].event.time == e.time;
      } else {
        var f :| f in AllEvents(posts) && k == KeyOf(env, f) && Sound(env, f) && t[k] == RowOf(env, f);
        assert f.time == e.time;
      }
    }
    assert KeyOf(env, e) in Copies(t, e.org, e.id);
  }

  /** A redelivery is a duplicate that changes nothing, and a conflict exactly when both hashes are known and differ. */
  lemma RedeliveryIsDuplicate(env: Env, ods: Table, e: Event, f: Event)
    requires StoresRow(IngestOne(env, ods, e, NoFault).result)
    requires f.org == e.org && f.id == e.id && f.time == e.time && Sound(env, f)
    requires env.dialect.Postgres? ==> env.admits(Defaulted(f))
    ensures var t := IngestOne(env, ods, e, NoFault).ods;
            var again := IngestOne(env, t, f, NoFault);
            && again.ods == t && again.result.status.Duplicated?
            && (again.result.conflict <==> e.hash != "" && f.hash != "" && e.hash != f.hash)
  {
    IngestOneShape(env, ods, e, NoFault);
  }

  /** SQLite only: resent with another event time, an event is refused for good and the stored row stays alone. */
  lemma UnstableTimeRefused(env: Env, ods: Table, e: Event, f: Event)
    requires env.dialect.Sqlite? && StoresRow(IngestOne(env, ods, e, NoFault).result)
    requires f.org == e.org && f.id == e.id && f.time != e.time && Sound(env, f)
    ensures var t := IngestOne(env, ods, e, NoFault).ods;
            var again := IngestOne(env, t, f, NoFault);
            again.ods == t && again.result.status.Rejected? && !again.result.transient && again.result.reason == "internal error"
  {
    IngestOneShape(env, ods, e, NoFault);
  }

  /** PostgreSQL only: resent with another event time, an event is stored twice. */
  lemma UnstableTimeDoubles(env: Env, e: Event, time: int)
    requires env.dialect.Postgres? && time != 0 && time != e.time
    requires var f := e.(time := time); Sound(env, e) && Sound(env, f) && env.admits(Defaulted(e)) && env.admits(Defaulted(f))
    ensures var f := e.(time := time);
            |Copies(IngestOne(env, IngestOne(env, map[], e, NoFault).ods, f, NoFault).ods, e.org, e.id)| == 2
  {
    var f := e.(time := time);
    assert Copies(IngestOne(env, IngestOne(env, map[], e, NoFault).ods, f, NoFault).ods, e.org, e.id) == {KeyOf(env, e), KeyOf(env, f)};
  }

  // ---- which events are quarantined ----

  /**
   The row holds the event under its own key, its two defaults filled in, and is quarantined exactly when the scheme of the
   event's hash is known and the hash does not verify against the metering fields.
   */
  predicate Records(env: Env, k: RowKey, row: Row, e: Event) {
    && e.id != "" && e.org != "" && e.time != 0 && e.occurred != 0 && e.requestStatus != ""
    && k.org == e.org && k.id == e.id && (if env.dialect.Postgres? then k.time == Some(e.time) else k.time == None)
    && row.event.(schema := e.schema, requests := e.requests) == e
    && (e.schema != 0 ==> row.event.schema == e.schema) && (e.schema == 0 ==> row.event.schema == 1)
    && (e.requests != 0 ==> row.event.requests == e.requests) && (e.requests == 0 ==> row.event.requests == 1)
    && (row.quarantined <==> env.schemeKnown(e.hash) && !env.verify(e.metering, e.hash))
  }

  lemma RowRecords(env: Env, e: Event)
    requires Sound(env, e)
    ensures Records(env, KeyOf(env, e), RowOf(env, e), e)
  {
  }

  /**
   An answer `accepted` or `quarantined` comes with the event's row: quarantined exactly when the hash is of a known scheme
   and does not verify, accepted when the scheme is unknown or empty or the hash verifies.
   */
  lemma QuarantineExact(env: Env, ods: Table, e: Event, fault: Fault)
    ensures var s := IngestOne(env, ods, e, fault);
            && (forall k :: k in s.ods && k !in ods ==> Records(env, k, s.ods[k], e))
            && (s.result.status.QuarantinedStatus? ==> env.schemeKnown(e.hash) && !env.verify(e.metering, e.hash))
            && (s.result.status.Accepted? ==> !env.schemeKnown(e.hash) || env.verify(e.metering, e.hash))
            && (s.result.status.QuarantinedStatus? || s.result.status.Accepted? ==>
                  exists k :: k in s.ods && k !in ods && (s.result.status.Accepted? <==> !s.ods[k].quarantined))
  {
    var s := IngestOne(env, ods, e, fault);
    IngestOneShape(env, ods, e, fault);
    VerdictShown(env, ods, e, fault);
    hide IngestOne;
    if StoresRow(s.result) || Lost(env, ods, e, fault) {
      RowRecords(env, e);
      assert KeyOf(env, e) in s.ods;
    }
  }

  lemma VerdictShown(env: Env, ods: Table, e: Event, fault: Fault)
    ensures var r := IngestOne(env, ods, e, fault).result;
            StoresRow(r) ==> (r.status.QuarantinedStatus? <==> RowOf(env, e).quarantined)
  {
  }

  /** The row of an event that is answered as stored, and what its flag says about the answer. */
  ghost predicate Answered(env: Env, ods: Table, e: Event, r: Result) {
    var k := KeyOf(env, e);
    k in ods && Records(env, k, ods[k], e) && (r.status.Accepted? <==> !ods[k].quarantined)
  }

  lemma OneAnswered(env: Env, ods: Table, e: Event, fault: Fault)
    requires StoresRow(IngestOne(env, ods, e, fault).result)
    ensures var s := IngestOne(env, ods, e, fault); Answered(env, s.ods, e, s.result)
  {
    IngestOneShape(env, ods, e, fault);
    VerdictShown(env, ods, e, fault);
    hide IngestOne, Records, RowOf, KeyOf, Lost;
    RowRecords(env, e);
  }

  lemma AnsweredStays(env: Env, a: Table, b: Table, e: Event, r: Result)
    requires Answered(env, a, e, r) && Keeps(a, b)
    ensures Answered(env, b, e, r)
  {
    hide Records, KeyOf;
  }

  lemma {:induction false} IngestVerdicts(env: Env, ods: Table, events: seq<Event>, faults: nat -> Fault, n: nat, i: nat)
    requires i < n <= |events| && Keyed(env, ods) && StoresRow(Ingest(env, ods, events, faults, n).results[i])
    ensures var r := Ingest(env, ods, events, faults, n); Answered(env, r.ods, events[i], r.results[i])
  {
    hide IngestOne, Keyed, NewRowsFrom, Answered, Lost, StoredCount, LostCount, StoresRow, Sound, Keeps, RowOf, KeyOf;
    var before := Ingest(env, ods, events, faults, n - 1);
    if i == n - 1 {
      OneAnswered(env, before.ods, events[i], faults(i));
    } else {
      assert Ingest(env, ods, events, faults, n).results[i] == before.results[i];
      IngestVerdicts(env, ods, events, faults, n - 1, i);
      IngestKeeps(env, ods, events, faults, n - 1);
      IngestOneKeeps(env, before.ods, events[n - 1], faults(n - 1));
      AnsweredStays(env, before.ods, Ingest(env, ods, events, faults, n).ods, events[i], before.results[i]);
    }
  }

  lemma PostVerdicts(env: Env, ods: Table, p: Post, j: nat)
    requires Keyed(env, ods) && j < |p.events| && StoresRow(BatchRun(env, ods, p.events, p.script).results[j])
    ensures var r := BatchRun(env, ods, p.events, p.script); Answered(env, r.ods, p.events[j], r.results[j])
  {
    BatchIsPerEvent(env, ods, p.events, p.script);
    LeftKeeps(env, ods, p.events, p.script);
    hide *;
    IngestVerdicts(env, Left(env, ods, p.events, p.script), p.events, LastFaults(env, ods, p.events, p.script), |p.events|, j);
  }

  /**
   Over any series of deliveries: every new row records one delivered event, and an event that was ever answered `accepted`
   or `quarantined` is stored in the end, billed exactly when that answer was `accepted`.
   */
  lemma SeriesVerdicts(env: Env, ods: Table, posts: seq<Post>, i: nat, j: nat)
    requires Keyed(env, ods) && i < |posts| && j < |posts[i].events|
    ensures var t := Serve(env, ods, posts);
            && (forall k :: k in t && k !in ods ==> exists e :: e in AllEvents(posts) && Records(env, k, t[k], e))
            && (var e, status := posts[i].events[j], Answer(env, ods, posts, i)[j].status;
                status.Accepted? || status.QuarantinedStatus? ==>
                  exists k :: k in t && Records(env, k, t[k], e) && (status.Accepted? <==> !t[k].quarantined))
  {
    NewRowsRecord(env, ods, posts);
    if StoresRow(Answer(env, ods, posts, i)[j]) {
      AnswerStays(env, ods, posts, i, j);
    }
    hide Serve, AllEvents, Records, KeyOf, BatchRun;
  }

  lemma AnswerStays(env: Env, ods: Table, posts: seq<Post>, i: nat, j: nat)
    requires Keyed(env, ods) && i < |posts| && j < |posts[i].events| && StoresRow(Answer(env, ods, posts, i)[j])
    ensures Answered(env, Serve(env, ods, posts), posts[i].events[j], Answer(env, ods, posts, i)[j])
  {
    assert |Answer(env, ods, posts, i)| == |posts[i].events|;
    hide BatchRun, Answered, Serve, StoresRow, NewRowsFrom, Keyed, StoredTotal, AllHeard, Keeps;
    SeriesKeeps(env, ods, posts[..i]);
    PostVerdicts(env, Serve(env, ods, posts[..i]), posts[i], j);
    ServedStays(env, ods, posts, i);
    AnsweredStays(env, BatchRun(env, Serve(env, ods, posts[..i]), posts[i].events, posts[i].script).ods, Serve(env, ods, posts),
      posts[i].events[j], Answer(env, ods, posts, i)[j]);
  }

  lemma NewRowsRecord(env: Env, ods: Table, posts: seq<Post>)
    requires Keyed(env, ods)
    ensures var t := Serve(env, ods, posts);
            forall k :: k in t && k !in ods ==> exists e :: e in AllEvents(posts) && Records(env, k, t[k], e)
  {
    hide Records, Serve, AllEvents, KeyOf, RowOf, Sound;
    var t := Serve(env, ods, posts);
    SeriesKeeps(env, ods, posts);
    forall k | k in t && k !in ods
      ensures exists e :: e in AllEvents(posts) && Records(env, k, t[k], e)
    {
      var e :| e in AllEvents(posts) && k == KeyOf(env, e) && Sound(env, e) && t[k] == RowOf(env, e);
      RowRecords(env, e);
    }
  }

  /** What stands in the table after delivery i stands in it at the end. */
  lemma ServedStays(env: Env, ods: Table, posts: seq<Post>, i: nat)
    requires Keyed(env, ods) && i < |posts|
    ensures Keeps(BatchRun(env, Serve(env, ods, posts[..i]), posts[i].events, posts[i].script).ods, Serve(env, ods, posts))
  {
    hide BatchRun, Keyed, Keeps;
    var a, b := posts[..i + 1], posts[i + 1..];
    assert a[..i] == posts[..i] && posts == a + b;
    ServeSplit(env, ods, a, b);
    SeriesKeeps(env, ods, a);
    SeriesKeeps(env, Serve(env, ods, a), b);
  }

  /** The answer to event i says it is stored, or its insert took effect with the reply lost. */
  predicate StoredAt(env: Env, ods: Table, events: seq<Event>, faults: nat -> Fault, n: nat, i: nat)
    requires i < n <= |events|
  {
    StoresRow(Ingest(env, ods, events, faults, n).results[i]) || Lost(env, Ingest(env, ods, events, faults, i).ods, events[i], faults(i))
  }

  /** Every new row of a pass is that of an event which was answered as stored, or whose reply was lost. */
  lemma {:induction false} NewRowsAnswered(env: Env, ods: Table, events: seq<Event>, faults: nat -> Fault, n: nat, k: RowKey)
    requires n <= |events| && k in Ingest(env, ods, events, faults, n).ods && k !in ods
    ensures exists i :: 0 <= i < n && KeyOf(env, events[i]) == k && StoredAt(env, ods, events, faults, n, i)
              && Ingest(env, ods, events, faults, n).ods[k] == RowOf(env, events[i])
  {
    hide IngestOne, KeyOf, RowOf, Lost, StoresRow;
    var before, r := Ingest(env, ods, events, faults, n - 1), Ingest(env, ods, events, faults, n);
    IngestOneShape(env, before.ods, events[n - 1], faults(n - 1));
    if k in before.ods && r.ods[k] == before.ods[k] {
      NewRowsAnswered(env, ods, events, faults, n - 1, k);
      var i :| 0 <= i < n - 1 && KeyOf(env, events[i]) == k && StoredAt(env, ods, events, faults, n - 1, i)
                 && before.ods[k] == RowOf(env, events[i]);
      assert r.results[i] == before.results[i];
      assert StoredAt(env, ods, events, faults, n, i);
    } else {
      assert StoredAt(env, ods, events, faults, n, n - 1);
    }
  }

  /** So a new numbered row's source is among those whose watermark advances after the batch, unless its reply was lost. */
  lemma NewRowsTouched(env: Env, ods: Table, events: seq<Event>, faults: nat -> Fault, k: RowKey)
    requires k in Ingest(env, ods, events, faults, |events|).ods && k !in ods
    ensures var r := Ingest(env, ods, events, faults, |events|);
            var e := r.ods[k].event;
            e.source != "" && e.num.Some? ==>
              WatermarkStore.Key(e.org, e.source) in Touched(events, r.results)
              || exists i :: 0 <= i < |events| && KeyOf(env, events[i]) == k
                   && Lost(env, Ingest(env, ods, events, faults, i).ods, events[i], faults(i))
  {
    NewRowsAnswered(env, ods, events, faults, |events|, k);
    hide Ingest, Lost, KeyOf;
  }

  // ---- batches that can never be acknowledged ----

  /** On PostgreSQL a row that breaks another constraint fails its statement, which counts as transient. */
  predicate Poison(env: Env, e: Event) {
    env.dialect.Postgres? && Sound(env, e) && !env.admits(Defaulted(e))
  }

  lemma PoisonStep(env: Env, ods: Table, e: Event, fault: Fault)
    ensures Poison(env, e) ==> IngestOne(env, ods, e, fault).result.transient
    ensures IngestOne(env, ods, e, NoFault).result.transient ==> Poison(env, e)
  {
  }

  lemma {:induction false} FaultFreeTransient(env: Env, ods: Table, events: seq<Event>, n: nat, i: nat)
    requires i < n <= |events|
    ensures Ingest(env, ods, events, _ => NoFault, n).results[i].transient <==> Poison(env, events[i])
  {
    hide IngestOne;
    PoisonStep(env, Ingest(env, ods, events, _ => NoFault, n - 1).ods, events[n - 1], NoFault);
    if i < n - 1 {
      FaultFreeTransient(env, ods, events, n - 1, i);
    }
  }

  lemma {:induction false} PoisonTransient(env: Env, ods: Table, events: seq<Event>, faults: nat -> Fault, n: nat, i: nat)
    requires i < n <= |events| && Poison(env, events[i])
    ensures Ingest(env, ods, events, faults, n).results[i].transient
  {
    hide IngestOne;
    PoisonStep(env, Ingest(env, ods, events, faults, n - 1).ods, events[n - 1], faults(n - 1));
    if i < n - 1 {
      PoisonTransient(env, ods, events, faults, n - 1, i);
    }
  }

  /**
   The resend loop can end for a batch exactly when none of its events is turned away by another
   constraint on PostgreSQL; such a batch is answered 503 however healthy the database is.
   */
  lemma AcknowledgeableIff(env: Env, ods: Table, events: seq<Event>)
    ensures (exists s: Script :: !HasTransient(BatchRun(env, ods, events, s).results)) <==> forall e :: e in events ==> !Poison(env, e)
  {
    if e :| e in events && Poison(env, e) {
      var i :| 0 <= i < |events| && events[i] == e;
      forall s: Script
        ensures HasTransient(BatchRun(env, ods, events, s).results)
      {
        BatchIsPerEvent(env, ods, events, s);
        PoisonTransient(env, Left(env, ods, events, s), events, LastFaults(env, ods, events, s), |events|, i);
      }
    } else {
      var s := Script(true, _ => NoFault, Refused, _ => NoFault);
      BatchIsPerEvent(env, ods, events, s);
      var all := Ingest(env, ods, events, _ => NoFault, |events|).results;
      forall i | 0 <= i < |all|
        ensures !all[i].transient
      {
        FaultFreeTransient(env, ods, events, |events|, i);
      }
      assert !HasTransient(BatchRun(env, ods, events, s).results);
    }
  }

  // ---- what the watermark sees ----

  /** The rows that carry a sequence number, as the watermark tables see them. */
  function Numbered(ods: Table): set<WatermarkStore.Delivery> {
    set k | k in ods && ods[k].event.source != "" && ods[k].event.num.Some? ::
      WatermarkStore.Delivery(ods[k].event.id, WatermarkStore.Key(ods[k].event.org, ods[k].event.source), ods[k].event.num.value)
  }

  /** The number of a newly stored event, billed or quarantined, counts as received for its source. */
  lemma StoredIsSeen(env: Env, ods: Table, e: Event, fault: Fault, lane: WatermarkStore.Lane)
    requires StoresRow(IngestOne(env, ods, e, fault).result) && e.source != "" && e.num.Some?
    ensures e.num.value in WatermarkStore.OdsSeqs(lane, Numbered(IngestOne(env, ods, e, fault).ods), WatermarkStore.Key(e.org, e.source))
  {
    var t := IngestOne(env, ods, e, fault).ods;
    var k := KeyOf(env, e);
    assert k in t && t[k].event == Defaulted(e);
    assert WatermarkStore.Delivery(e.id, WatermarkStore.Key(e.org, e.source), e.num.value) in Numbered(t);
  }
}
