/**
 The projector: pending ODS rows become DWD facts, failed ones are retried and at last
 dead-lettered. A scan is tried as one transaction and replayed row by row if that fails.
 */
module Projector {
  import opened Database
  import opened Facts
  import opened Options
  import opened Sets

  const DEAD_LETTER_THRESHOLD := 20
  const MAX_ROUNDS_PER_TICK := 400

  datatype Status = Pending | Retry(due: int) | Projected | DeadLetter | Quarantined

  datatype Row = Row(org: string, id: string, time: int, canary: bool, status: Status, retries: nat, rest: string)

  type Ods = map<int, Row>

  // The DWD unique key: PostgreSQL's contains the partition column.
  datatype FactKey = FactKey(org: string, id: string, day: Option<int>)

  type Dwd = map<FactKey, Fact>

  datatype Db = Db(ods: Ods, dwd: Dwd, checkpoint: int)

  // What the enricher adds to a row; admits: the DWD table's other constraints.
  datatype Enriched = Enriched(seat: string, period: string, tokens: int, usd: int, rest: string)

  datatype Env = Env(dialect: Dialect, admits: Fact -> bool)

  // A row as one scan read it.
  datatype Fetched = Fetched(odsId: int, rec: Row)

  // LostReply: the insert took effect as it would have, but an error came back.
  datatype Fault = NoFault | InsertFault | LostReply | VerifyFault

  // One projection's luck: what the enricher answers, which statement fails, and the clock.
  datatype Luck = Luck(enriched: Option<Enriched>, fault: Fault, markFails: bool, now: int)

  predicate Open(r: Row) {
    r.status.Pending? || r.status.Retry?
  }

  function KeyFor(env: Env, org: string, id: string, time: int): FactKey {
    FactKey(org, id, if env.dialect.Postgres? then Some(UtcDay(time)) else None)
  }

  function KeyOf(env: Env, f: Fact): FactKey {
    KeyFor(env, f.org, f.id, f.time)
  }

  /** retryDelay, in milliseconds. */
  function RetryDelay(count: nat): nat {
    if count <= 3 then 60000 else if count <= 10 then 600000 else 3600000
  }

  // ---- FetchPending ----

  predicate Due(r: Row, now: int) {
    r.status.Pending? || (r.status.Retry? && r.status.due <= now)
  }

  function Eligible(ods: Ods, now: int): set<int> {
    set i | i in ods && Due(ods[i], now)
  }

  lemma {:induction false} Least(s: set<int>) returns (m: int)
    requires s != {}
    ensures m in s && forall x :: x in s ==> m <= x
  {
    m := Pick(s);
    if s != {m} {
      var least := Least(s - {m});
      assert forall x :: x in s ==> x == m || x in s - {m};
      m := if m < least then m else least;
    }
  }

  lemma MinExists(s: set<int>)
    requires s != {}
    ensures exists m :: m in s && forall x :: x in s ==> m <= x
  {
    var m := Least(s);
  }

  function Min(s: set<int>): (m: int)
    requires s != {}
    ensures m in s && forall x :: x in s ==> m <= x
  {
    MinExists(s);
    var m :| m in s && forall x :: x in s ==> m <= x;
    m
  }

  /** ORDER BY ods_id LIMIT n. */
  function Lowest(ids: set<int>, n: nat): (r: seq<int>)
    ensures forall i :: i in r ==> i in ids
    decreases n
  {
    if n == 0 || ids == {} then []
    else
      var m := Min(ids);
      [m] + Lowest(ids - {m}, n - 1)
  }

  /** Sorted, as long as it can be, and everything left out is greater. */
  ghost predicate TakesLowest(r: seq<int>, ids: set<int>, n: nat) {
    && |r| == (if |ids| < n then |ids| else n)
    && (forall j, k :: 0 <= j < k < |r| ==> r[j] < r[k])
    && forall j, x :: 0 <= j < |r| && x in ids && x !in r ==> r[j] < x
  }

  lemma {:induction false} LowestExact(ids: set<int>, n: nat)
    ensures TakesLowest(Lowest(ids, n), ids, n)
    decreases n
  {
    if n > 0 && ids != {} {
      var m := Min(ids);
      LowestExact(ids - {m}, n - 1);
      var rest := Lowest(ids - {m}, n - 1);
      assert forall k :: 0 <= k < |rest| ==> rest[k] in rest;
      hide TakesLowest;
    }
  }

  function Read(ods: Ods, ids: seq<int>): (queue: seq<Fetched>)
    requires forall i :: i in ids ==> i in ods
    ensures |queue| == |ids|
    ensures forall j :: 0 <= j < |queue| ==> queue[j].odsId == ids[j] && ids[j] in ods && queue[j].rec == ods[ids[j]]
  {
    if ids == [] then []
    else
      var i := ids[0];
      assert i in ids;
      assert i in ods;
      [Fetched(i, ods[i])] + Read(ods, ids[1..])
  }

  function FetchPending(ods: Ods, now: int, limit: nat): (queue: seq<Fetched>)
  {
    var ids := Lowest(Eligible(ods, now), limit);
    assert forall i :: i in ids ==> i in Eligible(ods, now);
    Read(ods, ids)
  }

  // ---- one row ----

  datatype Written = Inserted | Duplicate | Failed(statement: bool)

  /** The unique keys besides the one the insert ignores conflicts on. */
  predicate Clashes(env: Env, dwd: Dwd, f: Fact) {
    exists k :: k in dwd
      && ((dwd[k].odsId == f.odsId && (env.dialect.Postgres? ==> UtcDay(dwd[k].time) == UtcDay(f.time)))
          || (env.dialect.Postgres? && dwd[k].id == f.id && UtcDay(dwd[k].time) == UtcDay(f.time)))
  }

  /**
   The DWD insert. SQLite's INSERT OR IGNORE swallows every violation, PostgreSQL only the
   conflict on its target; after a swallowed row the same event must be found stored.
   */
  function InsertFact(env: Env, dwd: Dwd, f: Fact, fault: Fault): (Dwd, Written) {
    var key := KeyOf(env, f);
    var refused := !env.admits(f) || (key !in dwd && Clashes(env, dwd, f));
    if fault.InsertFault? || (env.dialect.Postgres? && refused) then (dwd, Failed(true))
    else if key !in dwd && !refused then (dwd[key := f], if fault.LostReply? then Failed(true) else Inserted)
    else if fault.LostReply? || fault.VerifyFault? then (dwd, Failed(true))
    else if key in dwd && UtcDay(dwd[key].time) == UtcDay(f.time) then (dwd, Duplicate)
    else (dwd, Failed(false))
  }

  // The mark a projection ends with.
  datatype Outcome = ToProjected | ToRetry | ToDeadLetter

  /** handleErrorOn: retry until the threshold is reached. */
  function HandleError(rec: Row): Outcome {
    if rec.retries + 1 >= DEAD_LETTER_THRESHOLD then ToDeadLetter else ToRetry
  }

  // What a projection did before its mark; poisoned: a statement failed on the way.
  datatype Phase = Phase(dwd: Dwd, outcome: Outcome, fact: Option<Fact>, poisoned: bool)

  function FactFor(f: Fetched, e: Enriched): Fact {
    Fact(f.odsId, f.rec.org, f.rec.id, f.rec.time, e.seat, e.period, e.tokens, e.usd, e.rest)
  }

  function Write(env: Env, dwd: Dwd, f: Fetched, luck: Luck): Phase {
    if f.rec.canary then Phase(dwd, ToProjected, None, false)
    else if luck.enriched.None? then Phase(dwd, HandleError(f.rec), None, false)
    else
      var fact := FactFor(f, luck.enriched.value);
      var (dwd', written) := InsertFact(env, dwd, fact, luck.fault);
      match written
      case Inserted => Phase(dwd', ToProjected, Some(fact), false)
      case Duplicate => Phase(dwd', ToProjected, None, false)
      case Failed(statement) => Phase(dwd', HandleError(f.rec), None, statement)
  }

  /** MarkProjected, MarkRetry, MarkDeadLetter: unguarded UPDATEs of the row with this id and event time. */
  function Marked(ods: Ods, f: Fetched, outcome: Outcome, now: int): Ods {
    if f.odsId !in ods || ods[f.odsId].time != f.rec.time then ods
    else
      var row := ods[f.odsId];
      ods[f.odsId := match outcome
        case ToProjected => row.(status := Projected)
        case ToRetry => row.(status := Retry(now + RetryDelay(f.rec.retries + 1)), retries := f.rec.retries + 1)
        case ToDeadLetter => row.(status := DeadLetter)]
  }

  datatype Result = Result(outcome: Outcome, failed: bool, fact: Option<Fact>)

  datatype Done = Done(db: Db, result: Result)

  /** projectOneOn. In a PostgreSQL transaction no statement succeeds after one that failed. */
  function ProjectOne(env: Env, db: Db, f: Fetched, luck: Luck, tx: bool): Done {
    var p := Write(env, db.dwd, f, luck);
    var failed := luck.markFails || (tx && env.dialect.Postgres? && p.poisoned);
    Done(Db(if failed then db.ods else Marked(db.ods, f, p.outcome, luck.now), p.dwd, db.checkpoint),
      Result(p.outcome, failed, p.fact))
  }

  // ---- a scan ----

  datatype Run = Run(db: Db, results: seq<Result>)

  function Project(env: Env, db: Db, queue: seq<Fetched>, luck: nat -> Luck, tx: bool, n: nat): (r: Run)
    requires n <= |queue|
    ensures |r.results| == n
  {
    if n == 0 then Run(db, [])
    else
      var before := Project(env, db, queue, luck, tx, n - 1);
      var d := ProjectOne(env, before.db, queue[n - 1], luck(n - 1), tx);
      Run(d.db, before.results + [d.result])
  }

  predicate Clean(results: seq<Result>) {
    forall i :: 0 <= i < |results| ==> !results[i].failed
  }

  function LastOds(queue: seq<Fetched>): (m: int)
    ensures m >= 0 && forall f :: f in queue ==> f.odsId <= m
    ensures m > 0 ==> exists f :: f in queue && f.odsId == m
  {
    if queue == [] then 0
    else
      var m, f := LastOds(queue[..|queue| - 1]), queue[|queue| - 1];
      assert forall g :: g in queue ==> g == f || g in queue[..|queue| - 1];
      if f.odsId > m then f.odsId else m
  }

  function Checkpointed(db: Db, queue: seq<Fetched>): Db {
    if LastOds(queue) > 0 then db.(checkpoint := LastOds(queue)) else db
  }

  // One scan's luck; each flag is a failure. cancelled: the context is done after the scan.
  datatype Script = Script(now: int, fetch: bool, begin: bool, inside: nat -> Luck, save: bool, commit: Commit,
    replay: nat -> Luck, replaySave: bool, cancelled: bool)

  /** The transaction gets as far as its commit. */
  predicate Prepared(env: Env, db: Db, queue: seq<Fetched>, s: Script) {
    !s.begin && (LastOds(queue) > 0 ==> !s.save) && Clean(Project(env, db, queue, s.inside, true, |queue|).results)
  }

  predicate Committed(env: Env, db: Db, queue: seq<Fetched>, s: Script) {
    Prepared(env, db, queue, s) && s.commit.Heard?
  }

  /** The tables a failed attempt leaves to the replay: as they were, unless its commit was durable after all. */
  function Left(env: Env, db: Db, queue: seq<Fetched>, s: Script): Db {
    if Prepared(env, db, queue, s) && s.commit.Unheard?
    then Checkpointed(Project(env, db, queue, s.inside, true, |queue|).db, queue)
    else db
  }

  /** The rows a scan fetches; a failed query fetches none. */
  function ScanQueue(db: Db, limit: nat, s: Script): seq<Fetched> {
    if s.fetch then [] else FetchPending(db.ods, s.now, limit)
  }

  /** The luck of a scan's last pass, and the tables that pass starts from. */
  function LastLuck(env: Env, db: Db, batched: bool, queue: seq<Fetched>, s: Script): nat -> Luck {
    if batched && Committed(env, db, queue, s) then s.inside else s.replay
  }

  function Base(env: Env, db: Db, batched: bool, queue: seq<Fetched>, s: Script): Db {
    if batched && !Committed(env, db, queue, s) then Left(env, db, queue, s) else db
  }

  /** scanOnce: the transaction if it commits, else the replay. batched: a batch database is wired. */
  function Scan(env: Env, db: Db, batched: bool, limit: nat, s: Script): (r: Run)
    ensures |r.results| == |ScanQueue(db, limit, s)|
  {
    var queue := ScanQueue(db, limit, s);
    if batched && Committed(env, db, queue, s) then
      var r := Project(env, db, queue, s.inside, true, |queue|);
      Run(Checkpointed(r.db, queue), r.results)
    else
      var r := Project(env, Base(env, db, batched, queue, s), queue, s.replay, false, |queue|);
      Run(if s.replaySave then r.db else Checkpointed(r.db, queue), r.results)
  }

  // rounds: the scans done; short: the last one fetched less than a full batch.
  datatype Drained = Drained(db: Db, rounds: nat, short: bool)

  /** drainOnce, with at most `cap` scans, the first of them number i. */
  function Drain(env: Env, db: Db, batched: bool, limit: nat, scripts: nat -> Script, i: nat, cap: nat): Drained
    requires i <= cap
    decreases cap - i
  {
    if i == cap then Drained(db, i, false)
    else
      var r := Scan(env, db, batched, limit, scripts(i));
      if |r.results| < limit then Drained(r.db, i + 1, true)
      else if scripts(i).cancelled then Drained(r.db, i + 1, false)
      else Drain(env, r.db, batched, limit, scripts, i + 1, cap)
  }

  // ---- metrics ----

  datatype Metrics = Metrics(scans: nat, projected: nat, retried: nat, deadLetter: nat)

  /** bumpOutcome: a failed MarkProjected does not count, a failed error mark does. */
  function Bumped(m: Metrics, r: Result): Metrics {
    match r.outcome
    case ToProjected => if r.failed then m else m.(projected := m.projected + 1)
    case ToRetry => m.(retried := m.retried + 1)
    case ToDeadLetter => m.(deadLetter := m.deadLetter + 1)
  }

  function BumpedAll(m: Metrics, results: seq<Result>): Metrics {
    if results == [] then m
    else Bumped(BumpedAll(m, results[..|results| - 1]), results[|results| - 1])
  }

  /** The facts a run inserted, in order: the ones handed to the quota materializer. */
  function NewFacts(results: seq<Result>): seq<Fact> {
    if results == [] then []
    else
      var r := results[|results| - 1];
      NewFacts(results[..|results| - 1]) + if r.fact.Some? then [r.fact.value] else []
  }

  class Worker {
    const env: Env
    const batched: bool
    const batchSize: nat
    var db: Db
    var metrics: Metrics

    constructor (env: Env, batched: bool, batchSize: nat, db: Db)
      ensures this.env == env && this.batched == batched && this.batchSize == batchSize
      ensures this.db == db && metrics == Metrics(0, 0, 0, 0)
    {
      this.env, this.batched, this.batchSize, this.db := env, batched, batchSize, db;
      metrics := Metrics(0, 0, 0, 0);
    }

    method HandleErrorOn(view: Db, f: Fetched, luck: Luck, poisoned: bool) returns (view': Db, outcome: Outcome, failed: bool)
      ensures outcome == HandleError(f.rec) && failed == (luck.markFails || poisoned)
      ensures view' == if failed then view else view.(ods := Marked(view.ods, f, outcome, luck.now))
    {
      view', failed := view, luck.markFails || poisoned;
      var newRetryCount := f.rec.retries + 1;
      outcome := if newRetryCount >= DEAD_LETTER_THRESHOLD then ToDeadLetter else ToRetry;
      if !failed {
        view' := view.(ods := Marked(view.ods, f, outcome, luck.now));
      }
    }

    /** Projects one row on the given tables: the transaction's view or the real ones. */
    method ProjectOneOn(view: Db, f: Fetched, luck: Luck, tx: bool) returns (view': Db, result: Result)
      ensures Done(view', result) == ProjectOne(env, view, f, luck, tx)
    {
      view' := view;
      var outcome, failed, fact := ToProjected, luck.markFails, None;
      if !f.rec.canary {
        if luck.enriched.None? {
          view', outcome, failed := HandleErrorOn(view, f, luck, false);
          return view', Result(outcome, failed, None);
        }
        var built := FactFor(f, luck.enriched.value);
        var written := InsertFact(env, view.dwd, built, luck.fault);
        view' := view.(dwd := written.0);
        if written.1.Failed? {
          view', outcome, failed := HandleErrorOn(view', f, luck, tx && env.dialect.Postgres? && written.1.statement);
          return view', Result(outcome, failed, None);
        }
        if written.1.Inserted? {
          fact := Some(built);
        }
      }
      if !failed {
        view' := view'.(ods := Marked(view.ods, f, ToProjected, luck.now));
      }
      result := Result(ToProjected, failed, fact);
    }

    /** One scan's rows in one transaction; false means it was rolled back, or that its commit reported an error. */
    method ProjectBatchTx(queue: seq<Fetched>, s: Script) returns (ok: bool, facts: seq<Fact>)
      modifies this`db, this`metrics
      ensures ok == Committed(env, old(db), queue, s)
      ensures !ok ==> db == Left(env, old(db), queue, s) && metrics == old(metrics)
      ensures ok ==> var r := Project(env, old(db), queue, s.inside, true, |queue|);
                     db == Checkpointed(r.db, queue) && metrics == BumpedAll(old(metrics), r.results) && facts == NewFacts(r.results)
    {
      hide Project, ProjectOne, NewFacts, BumpedAll, Bumped, LastOds;
      facts := [];
      if s.begin {
        return false, facts;
      }
      var view, bumps, lastOdsID := db, [], 0;
      ProjectNone(env, db, queue, s.inside, true);
      for i := 0 to |queue|
        invariant db == old(db) && metrics == old(metrics)
        invariant Run(view, bumps) == Project(env, db, queue, s.inside, true, i)
        invariant Clean(bumps) && facts == NewFacts(bumps) && lastOdsID == LastOds(queue[..i])
      {
        ProjectNext(env, db, queue, s.inside, true, i);
        NewFactsNext(queue, bumps, ProjectOne(env, view, queue[i], s.inside(i), true).result, i);
        var result;
        view, result := ProjectOneOn(view, queue[i], s.inside(i), true);
        bumps := bumps + [result];
        if result.failed {
          FailureStays(env, db, queue, s.inside, true, i + 1, |queue|);
          return false, [];
        }
        if result.fact.Some? {
          facts := facts + [result.fact.value];
        }
        if queue[i].odsId > lastOdsID {
          lastOdsID := queue[i].odsId;
        }
      }
      assert queue[..|queue|] == queue;
      if lastOdsID > 0 {
        if s.save {
          return false, [];
        }
        view := view.(checkpoint := lastOdsID);
      }
      if s.commit.Refused? {
        return false, [];
      }
      db, ok := view, s.commit.Heard?;
      if !ok {
        return false, [];
      }
      BumpAll(bumps);
    }

    method BumpAll(bumps: seq<Result>)
      modifies this`metrics
      ensures metrics == BumpedAll(old(metrics), bumps)
    {
      for i := 0 to |bumps|
        invariant metrics == BumpedAll(old(metrics), bumps[..i])
      {
        assert bumps[..i + 1][..i] == bumps[..i];
        Bump(bumps[i]);
      }
      assert bumps[..|bumps|] == bumps;
    }

    method Bump(r: Result)
      modifies this`metrics
      ensures metrics == Bumped(old(metrics), r)
    {
      match r.outcome {
        case ToProjected =>
          if !r.failed {
            metrics := metrics.(projected := metrics.projected + 1);
          }
        case ToRetry => metrics := metrics.(retried := metrics.retried + 1);
        case ToDeadLetter => metrics := metrics.(deadLetter := metrics.deadLetter + 1);
      }
    }

    method ProjectPerEvent(queue: seq<Fetched>, s: Script) returns (facts: seq<Fact>)
      modifies this`db, this`metrics
      ensures var r := Project(env, old(db), queue, s.replay, false, |queue|);
              && db == (if s.replaySave then r.db else Checkpointed(r.db, queue))
              && metrics == BumpedAll(old(metrics), r.results) && facts == NewFacts(r.results)
    {
      hide Project, ProjectOne, NewFacts, BumpedAll, Bumped, LastOds;
      facts := [];
      ghost var results := [];
      var lastOdsID := 0;
      ProjectNone(env, db, queue, s.replay, false);
      for i := 0 to |queue|
        invariant Run(db, results) == Project(env, old(db), queue, s.replay, false, i)
        invariant metrics == BumpedAll(old(metrics), results) && facts == NewFacts(results)
        invariant lastOdsID == LastOds(queue[..i])
      {
        ProjectNext(env, old(db), queue, s.replay, false, i);
        NewFactsNext(queue, results, ProjectOne(env, db, queue[i], s.replay(i), false).result, i);
        BumpedNext(old(metrics), results, ProjectOne(env, db, queue[i], s.replay(i), false).result);
        var result;
        db, result := ProjectOneOn(db, queue[i], s.replay(i), false);
        results := results + [result];
        Bump(result);
        if result.fact.Some? {
          facts := facts + [result.fact.value];
        }
        if queue[i].odsId > lastOdsID {
          lastOdsID := queue[i].odsId;
        }
      }
      assert queue[..|queue|] == queue;
      if lastOdsID > 0 && !s.replaySave {
        db := db.(checkpoint := lastOdsID);
      }
    }

    /** One scan; facts are the new ones, for the quota materializer. */
    method ScanOnce(s: Script) returns (n: nat, facts: seq<Fact>)
      modifies this`db, this`metrics
      ensures var r := Scan(env, old(db), batched, batchSize, s);
              && db == r.db && n == |r.results| && facts == NewFacts(r.results)
              && metrics == BumpedAll(old(metrics).(scans := old(metrics).scans + 1), r.results)
    {
      metrics := metrics.(scans := metrics.scans + 1);
      if s.fetch {
        return 0, [];
      }
      var queue := FetchPending(db.ods, s.now, batchSize);
      if |queue| == 0 {
        return 0, [];
      }
      var ok := false;
      if batched {
        ok, facts := ProjectBatchTx(queue, s);
      }
      if !ok {
        facts := ProjectPerEvent(queue, s);
      }
      n := |queue|;
    }

    method DrainOnce(scripts: nat -> Script) returns (rounds: nat)
      modifies this`db, this`metrics
      ensures var d := Drain(env, old(db), batched, batchSize, scripts, 0, MAX_ROUNDS_PER_TICK);
              db == d.db && rounds == d.rounds
    {
      hide Scan, Drain, BumpedAll, NewFacts;
      rounds := 0;
      while rounds < MAX_ROUNDS_PER_TICK
        invariant rounds <= MAX_ROUNDS_PER_TICK
        invariant Drain(env, db, batched, batchSize, scripts, rounds, MAX_ROUNDS_PER_TICK)
               == Drain(env, old(db), batched, batchSize, scripts, 0, MAX_ROUNDS_PER_TICK)
      {
        DrainNext(env, db, batched, batchSize, scripts, rounds, MAX_ROUNDS_PER_TICK);
        var n, _ := ScanOnce(scripts(rounds));
        rounds := rounds + 1;
        if n < batchSize {
          return;
        }
        if scripts(rounds - 1).cancelled {
          return;
        }
      }
      DrainNext(env, db, batched, batchSize, scripts, MAX_ROUNDS_PER_TICK, MAX_ROUNDS_PER_TICK);
    }
  }

  lemma DrainNext(env: Env, db: Db, batched: bool, limit: nat, scripts: nat -> Script, i: nat, cap: nat)
    requires i <= cap
    ensures var r := Scan(env, db, batched, limit, scripts(i));
            Drain(env, db, batched, limit, scripts, i, cap)
            == (if i == cap then Drained(db, i, false)
                else if |r.results| < limit then Drained(r.db, i + 1, true)
                else if scripts(i).cancelled then Drained(r.db, i + 1, false)
                else Drain(env, r.db, batched, limit, scripts, i + 1, cap))
  {
  }

  lemma ProjectNone(env: Env, db: Db, queue: seq<Fetched>, luck: nat -> Luck, tx: bool)
    ensures Project(env, db, queue, luck, tx, 0) == Run(db, []) && NewFacts([]) == [] && forall m :: BumpedAll(m, []) == m
  {
  }

  lemma BumpedNext(m: Metrics, results: seq<Result>, r: Result)
    ensures BumpedAll(m, results + [r]) == Bumped(BumpedAll(m, results), r)
  {
    assert (results + [r])[..|results|] == results;
  }

  lemma ProjectNext(env: Env, db: Db, queue: seq<Fetched>, luck: nat -> Luck, tx: bool, i: nat)
    requires i < |queue|
    ensures var r := Project(env, db, queue, luck, tx, i);
            var d := ProjectOne(env, r.db, queue[i], luck(i), tx);
            Project(env, db, queue, luck, tx, i + 1) == Run(d.db, r.results + [d.result])
  {
  }

  lemma NewFactsNext(queue: seq<Fetched>, results: seq<Result>, r: Result, i: nat)
    requires i < |queue|
    ensures NewFacts(results + [r]) == NewFacts(results) + if r.fact.Some? then [r.fact.value] else []
    ensures LastOds(queue[..i + 1]) == if queue[i].odsId > LastOds(queue[..i]) then queue[i].odsId else LastOds(queue[..i])
  {
    assert (results + [r])[..|results|] == results && queue[..i + 1][..i] == queue[..i];
  }

  lemma {:induction false} FailureStays(env: Env, db: Db, queue: seq<Fetched>, luck: nat -> Luck, tx: bool, n: nat, m: nat)
    requires 0 < n <= m <= |queue| && Project(env, db, queue, luck, tx, n).results[n - 1].failed
    ensures !Clean(Project(env, db, queue, luck, tx, m).results)
  {
    ResultsPrefix(env, db, queue, luck, tx, n, m);
    assert Project(env, db, queue, luck, tx, m).results[n - 1].failed;
  }

  lemma {:induction false} ResultsPrefix(env: Env, db: Db, queue: seq<Fetched>, luck: nat -> Luck, tx: bool, n: nat, m: nat)
    requires n <= m <= |queue|
    ensures Project(env, db, queue, luck, tx, n).results <= Project(env, db, queue, luck, tx, m).results
  {
    if n < m {
      ResultsPrefix(env, db, queue, luck, tx, n, m - 1);
    }
  }
}
