/**
 Batch ingest of usage events: one transaction for the whole batch, and on any infrastructure
 fault a rollback and a replay event by event. Faults are a script, so every placement of them
 is covered.
 */
module UsageIngest {
  import opened Database
  import opened Options
  import opened Sets
  import opened WatermarkStore

  // The fields the content hash covers, nil already read as zero.
  datatype Metering = Metering(input: int, output: int, total: int, cacheRead: int, cacheCreation: int, model: string, provider: string)

  // A zero time or an empty string is the absent value. `rest` stands for the columns ingest never looks at.
  datatype Event = Event(id: string, org: string, time: int, occurred: int, requestStatus: string,
    schema: int, requests: int, hash: string, source: string, num: Option<int>, metering: Metering, rest: string)

  // What ingest asks of code outside the model: the hash scheme, JSON, and the table's other constraints.
  datatype Env = Env(dialect: Dialect, schemeKnown: string -> bool, verify: (Metering, string) -> bool,
    marshals: Event -> bool, admits: Event -> bool)

  // The unique key: PostgreSQL's contains the partition column.
  datatype RowKey = RowKey(org: string, id: string, time: Option<int>)

  // ingest_status and dwd_status both follow from the flag.
  datatype Row = Row(event: Event, quarantined: bool)

  type Table = map<RowKey, Row>

  // The two statements of an insert that may fail; LostReply: the first took effect, but an error came back.
  datatype Fault = NoFault | InsertFault | LostReply | VerifyFault

  datatype InsertOutcome = Inserted | Duplicate(conflict: bool) | Swallowed | Transient

  datatype Status = Accepted | QuarantinedStatus | Duplicated | Rejected

  datatype Result = Result(id: string, status: Status, reason: string, conflict: bool, transient: bool)

  function KeyOf(env: Env, e: Event): RowKey {
    RowKey(e.org, e.id, if env.dialect.Postgres? then Some(e.time) else None)
  }

  /** The reason an event is refused, if any, in the order the checks run. */
  function Validate(e: Event): Option<string> {
    if e.id == "" then Some("event_id is required")
    else if e.org == "" then Some("org_id is required")
    else if e.time == 0 then Some("event_time is required")
    else if e.occurred == 0 then Some("occurred_at is required")
    else if e.requestStatus == "" then Some("request_status is required")
    else None
  }

  function Defaulted(e: Event): Event {
    e.(schema := if e.schema == 0 then 1 else e.schema, requests := if e.requests == 0 then 1 else e.requests)
  }

  predicate Corrupt(env: Env, e: Event) {
    env.schemeKnown(e.hash) && !env.verify(e.metering, e.hash)
  }

  /** The row of the same event already stored, as the dedup check looks for it. */
  predicate Stored(env: Env, ods: Table, e: Event) {
    KeyOf(env, e) in ods && ods[KeyOf(env, e)].event.time == e.time
  }

  /**
   InsertEvent. SQLite's INSERT OR IGNORE swallows any constraint violation; PostgreSQL only
   ignores the key conflict, so another violation fails the statement.
   */
  function Insert(env: Env, ods: Table, e: Event, quarantined: bool, fault: Fault): (Table, InsertOutcome) {
    var key := KeyOf(env, e);
    if fault.InsertFault? || (env.dialect.Postgres? && !env.admits(e)) then (ods, Transient)
    else if key !in ods && env.admits(e) then (ods[key := Row(e, quarantined)], if fault.LostReply? then Transient else Inserted)
    else if fault.LostReply? || fault.VerifyFault? then (ods, Transient)
    else if Stored(env, ods, e) then
      var hash := ods[key].event.hash;
      (ods, Duplicate(e.hash != "" && hash != "" && hash != e.hash))
    else (ods, Swallowed)
  }

  datatype Step = Step(ods: Table, event: Event, result: Result)

  /** One event through ingestOne; the event comes back with its defaults filled in. */
  function IngestOne(env: Env, ods: Table, e: Event, fault: Fault): Step {
    var refused := Validate(e);
    if refused.Some? then Step(ods, e, Result(e.id, Rejected, refused.value, false, false))
    else
      var d := Defaulted(e);
      if !env.marshals(d) then Step(ods, d, Result(e.id, Rejected, "marshal raw event", false, false))
      else
        var q := Corrupt(env, d);
        var (ods', outcome) := Insert(env, ods, d, q, fault);
        Step(ods', d, match outcome
          case Transient => Result(e.id, Rejected, "transient storage failure", false, true)
          case Swallowed => Result(e.id, Rejected, "internal error", false, false)
          case Duplicate(conflict) => Result(e.id, Duplicated, "", conflict, false)
          case Inserted =>
            if q then Result(e.id, QuarantinedStatus, "content_hash mismatch", false, false)
            else Result(e.id, Accepted, "", false, false))
  }

  datatype Run = Run(ods: Table, events: seq<Event>, results: seq<Result>)

  /** The first n events of a batch, one after the other. */
  function Ingest(env: Env, ods: Table, events: seq<Event>, faults: nat -> Fault, n: nat): (r: Run)
    requires n <= |events|
    ensures |r.results| == n && |r.events| == |events|
  {
    if n == 0 then Run(ods, events, [])
    else
      var before := Ingest(env, ods, events, faults, n - 1);
      var s := IngestOne(env, before.ods, events[n - 1], faults(n - 1));
      Run(s.ods, before.events[n - 1 := s.event], before.results + [s.result])
  }

  predicate HasTransient(results: seq<Result>) {
    exists i :: 0 <= i < |results| && results[i].transient
  }

  /** How many events the transaction gets through before an infrastructure failure stops it. */
  function TxReach(env: Env, ods: Table, events: seq<Event>, faults: nat -> Fault, n: nat): (r: nat)
    requires n <= |events| && !HasTransient(Ingest(env, ods, events, faults, n).results)
    ensures r <= |events| && !HasTransient(Ingest(env, ods, events, faults, r).results)
    ensures r < |events| ==> HasTransient(Ingest(env, ods, events, faults, r + 1).results)
    decreases |events| - n
  {
    if n == |events| then n
    else if Ingest(env, ods, events, faults, n + 1).results[n].transient then n
    else TxReach(env, ods, events, faults, n + 1)
  }

  // One delivery's faults: opening, inside and committing the transaction, and during the replay.
  datatype Script = Script(begin: bool, inside: nat -> Fault, commit: Commit, replay: nat -> Fault)

  /** The transaction gets as far as its commit. */
  predicate Prepared(env: Env, ods: Table, events: seq<Event>, s: Script) {
    !s.begin && TxReach(env, ods, events, s.inside, 0) == |events|
  }

  predicate Committed(env: Env, ods: Table, events: seq<Event>, s: Script) {
    Prepared(env, ods, events, s) && s.commit.Heard?
  }

  /** What the transaction attempt has done by the time it ends, committed or not. */
  function Attempt(env: Env, ods: Table, events: seq<Event>, s: Script): (r: Run)
    ensures |r.events| == |events|
  {
    if s.begin then Run(ods, events, [])
    else
      var reach := TxReach(env, ods, events, s.inside, 0);
      Ingest(env, ods, events, s.inside, if reach < |events| then reach + 1 else reach)
  }

  /** The table a failed attempt leaves to the replay: as it was, unless the commit was durable after all. */
  function Left(env: Env, ods: Table, events: seq<Event>, s: Script): Table {
    if Prepared(env, ods, events, s) && s.commit.Unheard? then Attempt(env, ods, events, s).ods else ods
  }

  /** What IngestBatch does: a failed attempt has already defaulted some events. */
  function BatchRun(env: Env, ods: Table, events: seq<Event>, s: Script): Run {
    var attempt := Attempt(env, ods, events, s);
    if Committed(env, ods, events, s) then attempt else Ingest(env, Left(env, ods, events, s), attempt.events, s.replay, |events|)
  }

  // ---- rollback and replay ----

  /** A fault that did not surface in the result changed nothing. */
  lemma SilentFault(env: Env, ods: Table, e: Event, fault: Fault)
    requires !IngestOne(env, ods, e, fault).result.transient
    ensures IngestOne(env, ods, e, fault) == IngestOne(env, ods, e, NoFault)
  {
  }

  lemma {:induction false} SilentFaults(env: Env, ods: Table, events: seq<Event>, faults: nat -> Fault, n: nat)
    requires n <= |events| && !HasTransient(Ingest(env, ods, events, faults, n).results)
    ensures Ingest(env, ods, events, faults, n) == Ingest(env, ods, events, _ => NoFault, n)
  {
    if n > 0 {
      var before, all := Ingest(env, ods, events, faults, n - 1), Ingest(env, ods, events, faults, n);
      assert forall i :: 0 <= i < n - 1 ==> all.results[i] == before.results[i];
      SilentFaults(env, ods, events, faults, n - 1);
      assert !all.results[n - 1].transient;
      SilentFault(env, before.ods, events[n - 1], faults(n - 1));
    }
  }

  /** Filling in defaults early does not change what ingesting the event does. */
  lemma DefaultedFirst(env: Env, ods: Table, e: Event, fault: Fault, e': Event)
    requires e' == e || e' == IngestOne(env, ods, e, NoFault).event
    ensures IngestOne(env, ods, e', fault) == IngestOne(env, ods, e, fault)
  {
  }

  lemma IngestOneEvent(env: Env, ods: Table, ods': Table, e: Event, fault: Fault, fault': Fault)
    ensures IngestOne(env, ods, e, fault).event == IngestOne(env, ods', e, fault').event
  {
  }

  /** Each event of an attempt is as it was or as ingesting it leaves it. */
  lemma {:induction false} AttemptEvents(env: Env, ods: Table, events: seq<Event>, faults: nat -> Fault, n: nat, i: nat)
    requires n <= |events| && i < |events|
    ensures var e' := Ingest(env, ods, events, faults, n).events[i];
            e' == events[i] || e' == IngestOne(env, ods, events[i], NoFault).event
  {
    if n > 0 {
      AttemptEvents(env, ods, events, faults, n - 1, i);
      var before := Ingest(env, ods, events, faults, n - 1);
      IngestOneEvent(env, before.ods, ods, events[n - 1], faults(n - 1), NoFault);
    }
  }

  lemma {:induction false} ReplaySame(env: Env, ods: Table, events: seq<Event>, events': seq<Event>, faults: nat -> Fault, n: nat)
    requires n <= |events| == |events'|
    requires forall i :: 0 <= i < |events| ==> events'[i] == events[i] || events'[i] == IngestOne(env, ods, events[i], NoFault).event
    ensures var r, r' := Ingest(env, ods, events, faults, n), Ingest(env, ods, events', faults, n);
            r'.ods == r.ods && r'.results == r.results && r'.events[..n] == r.events[..n]
  {
    hide IngestOne;
    if n > 0 {
      ReplaySame(env, ods, events, events', faults, n - 1);
      var before := Ingest(env, ods, events, faults, n - 1);
      var before' := Ingest(env, ods, events', faults, n - 1);
      IngestOneEvent(env, before.ods, ods, events[n - 1], NoFault, NoFault);
      DefaultedFirst(env, before.ods, events[n - 1], faults(n - 1), events'[n - 1]);
      var r, r' := Ingest(env, ods, events, faults, n), Ingest(env, ods, events', faults, n);
      assert r.events[..n] == before.events[..n - 1] + [r.events[n - 1]];
      assert r'.events[..n] == before'.events[..n - 1] + [r'.events[n - 1]];
    }
  }

  lemma AttemptOnlyDefaults(env: Env, ods: Table, events: seq<Event>, s: Script)
    ensures var e' := Attempt(env, ods, events, s).events;
            forall i :: 0 <= i < |events| ==> e'[i] == events[i] || e'[i] == IngestOne(env, ods, events[i], NoFault).event
  {
    if !s.begin {
      var reach := TxReach(env, ods, events, s.inside, 0);
      forall i | 0 <= i < |events|
        ensures var e' := Attempt(env, ods, events, s).events[i];
                e' == events[i] || e' == IngestOne(env, ods, events[i], NoFault).event
      {
        AttemptEvents(env, ods, events, s.inside, if reach < |events| then reach + 1 else reach, i);
      }
    }
  }

  function LastFaults(env: Env, ods: Table, events: seq<Event>, s: Script): nat -> Fault {
    if Committed(env, ods, events, s) then (_ => NoFault) else s.replay
  }

  /** A durable attempt left what the fault-free per-event path leaves. */
  lemma LeftExact(env: Env, ods: Table, events: seq<Event>, s: Script)
    ensures Left(env, ods, events, s)
         == if Prepared(env, ods, events, s) && s.commit.Unheard? then Ingest(env, ods, events, _ => NoFault, |events|).ods else ods
  {
    if Prepared(env, ods, events, s) {
      SilentFaults(env, ods, events, s.inside, |events|);
    }
  }

  /**
   Whatever faults hit it, a batch ends with the rows, results and events of the per-event path
   on the table its attempt left: without faults if the transaction committed, else under the
   faults of the replay.
   */
  lemma BatchIsPerEvent(env: Env, ods: Table, events: seq<Event>, s: Script)
    ensures BatchRun(env, ods, events, s)
         == Ingest(env, Left(env, ods, events, s), events, LastFaults(env, ods, events, s), |events|)
  {
    if Committed(env, ods, events, s) {
      SilentFaults(env, ods, events, s.inside, |events|);
    } else {
      var left, attempt := Left(env, ods, events, s), Attempt(env, ods, events, s).events;
      AttemptOnlyDefaults(env, ods, events, s);
      forall i | 0 <= i < |events|
        ensures attempt[i] == events[i] || attempt[i] == IngestOne(env, left, events[i], NoFault).event
      {
        IngestOneEvent(env, left, ods, events[i], NoFault, NoFault);
      }
      ReplaySame(env, left, events, attempt, s.replay, |events|);
      var r, r' := Ingest(env, left, events, s.replay, |events|), Ingest(env, left, attempt, s.replay, |events|);
      hide Ingest, IngestOne, Attempt, Left, Committed;
      assert r.events == r.events[..|events|] && r'.events == r'.events[..|events|];
    }
  }

  /** A committed attempt reports no transient failure: a 200 for it is final. */
  lemma CommittedIsFinal(env: Env, ods: Table, events: seq<Event>, s: Script)
    requires Committed(env, ods, events, s)
    ensures !HasTransient(BatchRun(env, ods, events, s).results)
  {
  }

  // ---- the counters ----

  datatype Counters = Counters(accepted: int, quarantined: int, duplicated: int, rejected: int)

  datatype Metrics = Metrics(accepted: int, quarantined: int, duplicated: int, conflicts: int, rejected: int)

  function Count(results: seq<Result>, p: Result -> bool): (n: nat)
    ensures n <= |results|
  {
    if results == [] then 0
    else Count(results[..|results| - 1], p) + if p(results[|results| - 1]) then 1 else 0
  }

  function Tally(results: seq<Result>): Counters {
    Counters(Count(results, (r: Result) => r.status.Accepted?), Count(results, (r: Result) => r.status.QuarantinedStatus?),
      Count(results, (r: Result) => r.status.Duplicated?), Count(results, (r: Result) => r.status.Rejected?))
  }

  function Bumped(m: Metrics, results: seq<Result>): Metrics {
    Metrics(m.accepted + Count(results, (r: Result) => r.status.Accepted?),
      m.quarantined + Count(results, (r: Result) => r.status.QuarantinedStatus?),
      m.duplicated + Count(results, (r: Result) => r.status.Duplicated?),
      m.conflicts + Count(results, (r: Result) => r.status.Duplicated? && r.conflict),
      m.rejected + Count(results, (r: Result) => r.status.Rejected? && !r.transient))
  }

  /** The (org, source) pairs whose watermark the batch must advance. */
  function Touched(events: seq<Event>, results: seq<Result>): set<Key>
    requires |events| == |results|
  {
    set i | 0 <= i < |events| && !results[i].status.Rejected? && events[i].source != "" && events[i].num.Some? ::
      Key(events[i].org, events[i].source)
  }

  lemma {:induction false} OneStatusEach(results: seq<Result>)
    ensures var c := Tally(results);
            c.accepted + c.quarantined + c.duplicated + c.rejected == |results|
  {
    if results != [] {
      OneStatusEach(results[..|results| - 1]);
    }
  }

  class Service {
    const env: Env
    var ods: Table
    var metrics: Metrics

    constructor (env: Env)
      ensures this.env == env && ods == map[] && metrics == Metrics(0, 0, 0, 0, 0)
    {
      this.env := env;
      ods, metrics := map[], Metrics(0, 0, 0, 0, 0);
    }

    /** ingestOne on the given table, which is the transaction's view or the real one. */
    method IngestInto(table: Table, events: array<Event>, i: nat, fault: Fault) returns (table': Table, result: Result)
      requires i < events.Length
      modifies events
      ensures var s := IngestOne(env, table, old(events[i]), fault);
              table' == s.ods && result == s.result && events[..] == old(events[..])[i := s.event]
    {
      hide Insert, Corrupt, Validate;
      table' := table;
      var e := events[i];
      var refused := Validate(e);
      if refused.Some? {
        result := Result(e.id, Rejected, refused.value, false, false);
        return;
      }
      if e.schema == 0 {
        e := e.(schema := 1);
      }
      if e.requests == 0 {
        e := e.(requests := 1);
      }
      events[i] := e;
      if !env.marshals(e) {
        result := Result(e.id, Rejected, "marshal raw event", false, false);
        return;
      }
      var quarantined := Corrupt(env, e);
      var stored := Insert(env, table, e, quarantined, fault);
      table' := stored.0;
      match stored.1 {
        case Transient => result := Result(e.id, Rejected, "transient storage failure", false, true);
        case Swallowed => result := Result(e.id, Rejected, "internal error", false, false);
        case Duplicate(conflict) => result := Result(e.id, Duplicated, "", conflict, false);
        case Inserted =>
          if quarantined {
            result := Result(e.id, QuarantinedStatus, "content_hash mismatch", false, false);
          } else {
            result := Result(e.id, Accepted, "", false, false);
          }
      }
    }

    /** The whole batch in one transaction; false means it was rolled back, or that its commit reported an error. */
    method TryBatch(events: array<Event>, s: Script) returns (ok: bool, results: seq<Result>)
      modifies this`ods, events
      ensures ok == Committed(env, old(ods), old(events[..]), s)
      ensures events[..] == Attempt(env, old(ods), old(events[..]), s).events
      ensures ok ==> Run(ods, events[..], results) == Attempt(env, old(ods), old(events[..]), s)
      ensures ok ==> |results| == events.Length
      ensures !ok ==> ods == Left(env, old(ods), old(events[..]), s)
    {
      hide Ingest, IngestOne;
      results := [];
      if s.begin {
        return false, results;
      }
      ghost var batch, reach := events[..], TxReach(env, ods, events[..], s.inside, 0);
      var view := ods;
      var i := 0;
      IngestNone(env, ods, batch, s.inside);
      while i < events.Length
        invariant i <= reach && ods == old(ods)
        invariant Run(view, events[..], results) == Ingest(env, ods, batch, s.inside, i)
        invariant forall j :: i <= j < events.Length ==> events[j] == batch[j]
      {
        var result;
        IngestNext(env, ods, batch, s.inside, i);
        view, result := IngestInto(view, events, i, s.inside(i));
        results := results + [result];
        i := i + 1;
        if result.transient {
          ReachStops(env, ods, batch, s.inside, i - 1, reach);
          return false, results;
        }
      }
      if s.commit.Refused? {
        return false, results;
      }
      ods, ok := view, s.commit.Heard?;
    }

    method PerEvent(events: array<Event>, faults: nat -> Fault) returns (results: seq<Result>)
      modifies this`ods, events
      ensures Run(ods, events[..], results) == Ingest(env, old(ods), old(events[..]), faults, events.Length)
      ensures |results| == events.Length
    {
      ghost var batch, ods0 := events[..], ods;
      results := [];
      for i := 0 to events.Length
        invariant Run(ods, events[..], results) == Ingest(env, ods0, batch, faults, i)
        invariant forall j :: i <= j < events.Length ==> events[j] == batch[j]
      {
        var table, result := IngestInto(ods, events, i, faults(i));
        ods, results := table, results + [result];
      }
    }

    /** Counters, metrics and touched sources, from the results that were finally committed. */
    method TallyResults(events: array<Event>, results: seq<Result>) returns (c: Counters, touched: set<Key>)
      requires |results| == events.Length
      modifies this`metrics
      ensures c == Tally(results) && metrics == Bumped(old(metrics), results)
      ensures touched == Touched(events[..], results)
    {
      hide Touched;
      c, touched := Counters(0, 0, 0, 0), {};
      TouchedNone();
      for i := 0 to |results|
        invariant c == Tally(results[..i]) && metrics == Bumped(old(metrics), results[..i])
        invariant touched == Touched(events[..][..i], results[..i])
      {
        var r, e := results[i], events[i];
        assert results[..i + 1][..i] == results[..i];
        match r.status {
          case Accepted => c, metrics := c.(accepted := c.accepted + 1), metrics.(accepted := metrics.accepted + 1);
          case QuarantinedStatus => c, metrics := c.(quarantined := c.quarantined + 1), metrics.(quarantined := metrics.quarantined + 1);
          case Duplicated =>
            c, metrics := c.(duplicated := c.duplicated + 1), metrics.(duplicated := metrics.duplicated + 1);
            if r.conflict {
              metrics := metrics.(conflicts := metrics.conflicts + 1);
            }
          case Rejected =>
            c := c.(rejected := c.rejected + 1);
            if !r.transient {
              metrics := metrics.(rejected := metrics.rejected + 1);
            }
        }
        if !r.status.Rejected? && e.source != "" && e.num.Some? {
          touched := touched + {Key(e.org, e.source)};
        }
        TouchedStep(events[..], results, i);
      }
      assert results[..|results|] == results && events[..][..|results|] == events[..];
    }

    method IngestBatch(events: array<Event>, s: Script) returns (c: Counters, touched: set<Key>, results: seq<Result>)
      modifies this`ods, this`metrics, events
      ensures Run(ods, events[..], results) == BatchRun(env, old(ods), old(events[..]), s)
      ensures c == Tally(results) && metrics == Bumped(old(metrics), results) && touched == Touched(events[..], results)
    {
      hide Prepared, Attempt, Ingest, Tally, Bumped, Touched, Left;
      var ok;
      ok, results := TryBatch(events, s);
      if !ok {
        results := PerEvent(events, s.replay);
      }
      c, touched := TallyResults(events, results);
    }
  }

  lemma IngestNone(env: Env, ods: Table, events: seq<Event>, faults: nat -> Fault)
    ensures Ingest(env, ods, events, faults, 0) == Run(ods, events, [])
  {
  }

  lemma IngestNext(env: Env, ods: Table, events: seq<Event>, faults: nat -> Fault, i: nat)
    requires i < |events|
    ensures var r := Ingest(env, ods, events, faults, i);
            var s := IngestOne(env, r.ods, events[i], faults(i));
            Ingest(env, ods, events, faults, i + 1) == Run(s.ods, r.events[i := s.event], r.results + [s.result])
  {
  }

  lemma TouchedNone()
    ensures Touched([], []) == {}
  {
  }

  lemma TouchedStep(events: seq<Event>, results: seq<Result>, i: nat)
    requires i < |events| == |results|
    ensures var e, r := events[i], results[i];
            Touched(events[..i + 1], results[..i + 1]) == Touched(events[..i], results[..i])
              + if !r.status.Rejected? && e.source != "" && e.num.Some? then {Key(e.org, e.source)} else {}
  {
  }

  lemma ReachStops(env: Env, ods: Table, events: seq<Event>, faults: nat -> Fault, i: nat, reach: nat)
    requires i < |events| && i <= reach && reach == TxReach(env, ods, events, faults, 0)
    requires Ingest(env, ods, events, faults, i + 1).results[i].transient
    ensures reach == i
  {
    if i < reach {
      ResultsPrefix(env, ods, events, faults, i + 1, reach);
    }
  }

  lemma {:induction false} ResultsPrefix(env: Env, ods: Table, events: seq<Event>, faults: nat -> Fault, n: nat, m: nat)
    requires n <= m <= |events|
    ensures Ingest(env, ods, events, faults, n).results <= Ingest(env, ods, events, faults, m).results
  {
    if n < m {
      ResultsPrefix(env, ods, events, faults, n, m - 1);
    }
  }

  // ---- what the response says ----

  /** An event that lacks a field is refused for good, by the first field it lacks, and changes nothing. */
  lemma RefusalExact(env: Env, ods: Table, e: Event, fault: Fault)
    ensures var s := IngestOne(env, ods, e, fault);
            var refused := s.result.status.Rejected? && !s.result.transient && s.ods == ods && s.event == e;
            && (e.id == "" ==> refused && s.result.reason == "event_id is required")
            && (e.id != "" && e.org == "" ==> refused && s.result.reason == "org_id is required")
            && (e.id != "" && e.org != "" && e.time == 0 ==> refused && s.result.reason == "event_time is required")
            && (e.id != "" && e.org != "" && e.time != 0 && e.occurred == 0 ==> refused && s.result.reason == "occurred_at is required")
            && (e.id != "" && e.org != "" && e.time != 0 && e.occurred != 0 && e.requestStatus == "" ==>
                  refused && s.result.reason == "request_status is required")
  {
  }

  lemma {:induction false} CountExact(results: seq<Result>, p: Result -> bool, s: set<int>)
    requires s == set i | 0 <= i < |results| && p(results[i])
    ensures Count(results, p) == |s|
  {
    if results == [] {
      assert s == {};
    } else {
      var n := |results| - 1;
      var front := set i | 0 <= i < n && p(results[..n][i]);
      CountExact(results[..n], p, front);
      assert s == front + if p(results[n]) then {n} else {};
    }
  }

  /** Each counter is the number of results of its status. */
  lemma TallyExact(results: seq<Result>)
    ensures var c := Tally(results);
            && c.accepted == |set i | 0 <= i < |results| && results[i].status.Accepted?|
            && c.quarantined == |set i | 0 <= i < |results| && results[i].status.QuarantinedStatus?|
            && c.duplicated == |set i | 0 <= i < |results| && results[i].status.Duplicated?|
            && c.rejected == |set i | 0 <= i < |results| && results[i].status.Rejected?|
  {
    hide Count;
    CountExact(results, (r: Result) => r.status.Accepted?, set i | 0 <= i < |results| && results[i].status.Accepted?);
    CountExact(results, (r: Result) => r.status.QuarantinedStatus?, set i | 0 <= i < |results| && results[i].status.QuarantinedStatus?);
    CountExact(results, (r: Result) => r.status.Duplicated?, set i | 0 <= i < |results| && results[i].status.Duplicated?);
    CountExact(results, (r: Result) => r.status.Rejected?, set i | 0 <= i < |results| && results[i].status.Rejected?);
  }

  /** The metrics grow by the same, transient rejections left out; conflicts are counted among the duplicates. */
  lemma BumpedExact(m: Metrics, results: seq<Result>)
    ensures var c, m' := Tally(results), Bumped(m, results);
            && m'.accepted - m.accepted == c.accepted && m'.quarantined - m.quarantined == c.quarantined
            && m'.duplicated - m.duplicated == c.duplicated
            && m'.conflicts - m.conflicts == |set i | 0 <= i < |results| && results[i].status.Duplicated? && results[i].conflict|
            && m'.rejected - m.rejected == |set i | 0 <= i < |results| && results[i].status.Rejected? && !results[i].transient|
  {
    CountExact(results, (r: Result) => r.status.Duplicated? && r.conflict,
      set i | 0 <= i < |results| && results[i].status.Duplicated? && results[i].conflict);
    CountExact(results, (r: Result) => r.status.Rejected? && !r.transient,
      set i | 0 <= i < |results| && results[i].status.Rejected? && !results[i].transient);
    SameCounts(results);
    hide Count;
  }

  lemma {:induction false} SameCounts(results: seq<Result>)
    ensures Count(results, (r: Result) => r.status.Accepted?) == Tally(results).accepted
    ensures Count(results, (r: Result) => r.status.QuarantinedStatus?) == Tally(results).quarantined
    ensures Count(results, (r: Result) => r.status.Duplicated?) == Tally(results).duplicated
  {
    TallyExact(results);
    CountExact(results, (r: Result) => r.status.Accepted?, set i | 0 <= i < |results| && results[i].status.Accepted?);
    CountExact(results, (r: Result) => r.status.QuarantinedStatus?, set i | 0 <= i < |results| && results[i].status.QuarantinedStatus?);
    CountExact(results, (r: Result) => r.status.Duplicated?, set i | 0 <= i < |results| && results[i].status.Duplicated?);
  }

  /** No failing statement goes unnoticed: a complete event is answered as transient, so it is resent, whenever one failed. */
  lemma FaultsSurface(env: Env, ods: Table, e: Event, fault: Fault)
    requires Validate(e).None? && env.marshals(Defaulted(e))
    ensures var s := IngestOne(env, ods, e, fault);
            && (fault.InsertFault? || fault.LostReply? ==> s.result.transient)
            && (fault.InsertFault? ==> s.ods == ods)
            && (fault.VerifyFault? && s.ods == ods ==> s.result.transient)
            && (s.result.transient ==> s.result.status.Rejected? && s.result.reason == "transient storage failure")
  {
  }

  /** What else an answer says: the event's id, a reason unless it is stored or a duplicate, a conflict for a duplicate only. */
  lemma AnswerExact(env: Env, ods: Table, e: Event, fault: Fault)
    ensures var r := IngestOne(env, ods, e, fault).result;
            && r.id == e.id
            && (r.conflict ==> r.status.Duplicated?) && (r.transient ==> r.status.Rejected?)
            && (r.status.Accepted? || r.status.Duplicated? ==> r.reason == "")
            && (r.status.QuarantinedStatus? ==> r.reason == "content_hash mismatch")
            && (Validate(e).None? && !env.marshals(Defaulted(e)) ==> r.status.Rejected? && r.reason == "marshal raw event" && !r.transient)
            && (Validate(e).None? && env.marshals(Defaulted(e)) && r.status.Rejected? && !r.transient ==> r.reason == "internal error")
  {
  }

  /**
   A batch's transaction counts exactly when it opened, met no transient failure and its commit succeeded. If it left nothing
   the batch is just the event-by-event pass; if its commit was durable but unheard, that pass runs over what it left.
   */
  lemma BatchExact(env: Env, ods: Table, events: seq<Event>, s: Script)
    ensures var r, n := BatchRun(env, ods, events, s), |events|;
            var p := Ingest(env, ods, events, s.inside, n);
            var good := !s.begin && forall k :: 0 <= k < n ==> !p.results[k].transient;
            && (good && s.commit.Heard? ==> r == p)
            && (!good || s.commit.Refused? ==> r == Ingest(env, ods, events, s.replay, n))
            && (good && s.commit.Unheard? ==> r == Ingest(env, p.ods, events, s.replay, n))
  {
    var p := Ingest(env, ods, events, s.inside, |events|);
    PreparedExact(env, ods, events, s);
    BatchIsPerEvent(env, ods, events, s);
    hide Ingest, TxReach, HasTransient;
  }

  lemma PreparedExact(env: Env, ods: Table, events: seq<Event>, s: Script)
    ensures Prepared(env, ods, events, s) <==> !s.begin && !HasTransient(Ingest(env, ods, events, s.inside, |events|).results)
    ensures Prepared(env, ods, events, s) ==> Attempt(env, ods, events, s) == Ingest(env, ods, events, s.inside, |events|)
  {
    var reach := TxReach(env, ods, events, s.inside, 0);
    hide Ingest, TxReach;
    if reach < |events| {
      TransientStays(env, ods, events, s.inside, reach + 1);
    }
  }

  lemma TransientStays(env: Env, ods: Table, events: seq<Event>, faults: nat -> Fault, n: nat)
    requires n <= |events| && HasTransient(Ingest(env, ods, events, faults, n).results)
    ensures HasTransient(Ingest(env, ods, events, faults, |events|).results)
  {
    ResultsPrefix(env, ods, events, faults, n, |events|);
    hide Ingest;
    var a, b := Ingest(env, ods, events, faults, n).results, Ingest(env, ods, events, faults, |events|).results;
    var k :| 0 <= k < |a| && a[k].transient;
    assert b[k].transient;
  }
}
