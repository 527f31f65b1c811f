/** What the projected facts contain: the row's identity and one enrichment that was given for that row. */
module ProjectorFacts {
  import opened Database
  import opened Facts
  import opened Options
  import opened Projector
  import opened ProjectorSafety

  /** The fact has the row's id, org, event id and time, and the enrichment's seat, period, amounts and other columns. */
  predicate Carries(fact: Fact, f: Fetched, e: Enriched) {
    && fact.odsId == f.odsId && fact.org == f.rec.org && fact.id == f.rec.id && fact.time == f.rec.time
    && fact.seat == e.seat && fact.period == e.period
    && fact.tokens == e.tokens && fact.usd == e.usd && fact.rest == e.rest
  }

  /** The projection of this row was answered by the enricher, and the fact carries that answer. */
  predicate FromLuck(fact: Fact, f: Fetched, luck: Luck) {
    luck.enriched.Some? && Carries(fact, f, luck.enriched.value)
  }

  /** The key a row's fact is stored under, column by column. */
  predicate UnderKey(env: Env, k: FactKey, f: Fetched) {
    k.org == f.rec.org && k.id == f.rec.id && (if env.dialect.Postgres? then k.day == Some(UtcDay(f.rec.time)) else k.day == None)
  }

  /**
   One projection: it changes no stored fact, and a fact it adds stands under the row's key and carries the row and the
   enrichment just given for it; so does the fact it reports, and that one is in the table.
   */
  lemma ProjectionFacts(env: Env, db: Db, f: Fetched, luck: Luck, tx: bool)
    ensures var d := ProjectOne(env, db, f, luck, tx);
            && Grows(db.dwd, d.db.dwd)
            && (forall k :: k in d.db.dwd && k !in db.dwd ==> UnderKey(env, k, f) && !f.rec.canary && FromLuck(d.db.dwd[k], f, luck))
            && (d.result.fact.Some? ==>
                  && FromLuck(d.result.fact.value, f, luck)
                  && exists k :: k in d.db.dwd && k !in db.dwd && d.db.dwd[k] == d.result.fact.value)
  {
    if !f.rec.canary && luck.enriched.Some? {
      var fact := FactFor(f, luck.enriched.value);
      InsertShape(env, db.dwd, fact, luck.fault);
      hide InsertFact;
      var d := ProjectOne(env, db, f, luck, tx);
      if d.result.fact.Some? {
        assert KeyOf(env, fact) in d.db.dwd && KeyOf(env, fact) !in db.dwd;
      }
    }
  }

  /** A pass: each new fact comes from one of its rows with that row's answer. */
  lemma {:induction false} PassFacts(env: Env, db: Db, queue: seq<Fetched>, luck: nat -> Luck, tx: bool, n: nat)
    requires n <= |queue|
    ensures var r := Project(env, db, queue, luck, tx, n);
            && Grows(db.dwd, r.db.dwd)
            && forall k :: k in r.db.dwd && k !in db.dwd ==> exists j :: 0 <= j < n && FromLuck(r.db.dwd[k], queue[j], luck(j))
  {
    hide ProjectOne, FromLuck;
    if n > 0 {
      PassFacts(env, db, queue, luck, tx, n - 1);
      ProjectionFacts(env, Project(env, db, queue, luck, tx, n - 1).db, queue[n - 1], luck(n - 1), tx);
    }
  }

  /** Each reported fact carries its row and answer and is in the table. */
  ghost predicate Reported(fact: Option<Fact>, f: Fetched, luck: Luck, before: Dwd, after: Dwd) {
    fact.Some? ==> FromLuck(fact.value, f, luck) && exists k :: k in after && k !in before && after[k] == fact.value
  }

  lemma ReportedLater(fact: Option<Fact>, f: Fetched, luck: Luck, a: Dwd, b: Dwd, c: Dwd)
    ensures Reported(fact, f, luck, a, b) && Grows(b, c) ==> Reported(fact, f, luck, a, c)
    ensures Reported(fact, f, luck, b, c) && Grows(a, b) ==> Reported(fact, f, luck, a, c)
  {
    hide FromLuck;
  }

  lemma {:induction false} PassReports(env: Env, db: Db, queue: seq<Fetched>, luck: nat -> Luck, tx: bool, n: nat, j: nat)
    requires j < n <= |queue|
    ensures var r := Project(env, db, queue, luck, tx, n); Reported(r.results[j].fact, queue[j], luck(j), db.dwd, r.db.dwd)
  {
    hide ProjectOne, Reported, Grows, FromLuck;
    var before, r := Project(env, db, queue, luck, tx, n - 1), Project(env, db, queue, luck, tx, n);
    PassFacts(env, db, queue, luck, tx, n - 1);
    OneReported(env, before.db, queue[n - 1], luck(n - 1), tx);
    if j < n - 1 {
      assert r.results[j] == before.results[j];
      PassReports(env, db, queue, luck, tx, n - 1, j);
    }
    ReportedLater(r.results[j].fact, queue[j], luck(j), db.dwd, before.db.dwd, r.db.dwd);
  }

  lemma OneReported(env: Env, db: Db, f: Fetched, luck: Luck, tx: bool)
    ensures var d := ProjectOne(env, db, f, luck, tx); Grows(db.dwd, d.db.dwd) && Reported(d.result.fact, f, luck, db.dwd, d.db.dwd)
  {
    ProjectionFacts(env, db, f, luck, tx);
  }

  /** The facts a scan reports, which are handed to quota, carry their rows and the answers of its last pass, and are stored so. */
  lemma ScanFacts(env: Env, db: Db, batched: bool, limit: nat, s: Script, j: nat)
    requires j < |Scan(env, db, batched, limit, s).results|
    ensures var r, queue := Scan(env, db, batched, limit, s), ScanQueue(db, limit, s);
            var fact := r.results[j].fact;
            fact.Some? ==>
              && FromLuck(fact.value, queue[j], LastLuck(env, db, batched, queue, s)(j))
              && exists k :: k in r.db.dwd && r.db.dwd[k] == fact.value
  {
    var queue := ScanQueue(db, limit, s);
    var base, luck := Base(env, db, batched, queue, s), LastLuck(env, db, batched, queue, s);
    PassReports(env, base, queue, luck, batched && Committed(env, db, queue, s), |queue|, j);
    hide Project, ScanQueue, Prepared, FromLuck;
  }

  // ---- every reachable state ----

  /** The step projects the row, or tries to, with this answer of the enricher. */
  ghost predicate Gives(s: State, a: Action, f: Fetched, e: Enriched) {
    match a
    case Transact(luck, _) =>
      s.pc.Ready? && exists j :: 0 <= j < |s.pc.queue| && s.pc.queue[j] == f && luck(j).enriched == Some(e)
    case WriteFact(luck) => s.pc.Working? && s.pc.queue != [] && s.pc.queue[0] == f && luck.enriched == Some(e)
    case _ => false
  }

  /** Some step before the n-th gave this answer for the fact's row, and the fact carries both. */
  ghost predicate Given(env: Env, actions: seq<Action>, n: nat, fact: Fact)
    requires n <= |actions|
  {
    exists i, f, e :: 0 <= i < n && Gives(At(env, actions, i), actions[i], f, e) && Carries(fact, f, e)
  }

  lemma StepGives(env: Env, s: State, a: Action, k: FactKey)
    requires k in Step(env, s, a).db.dwd
    ensures (k in s.db.dwd && Step(env, s, a).db.dwd[k] == s.db.dwd[k]) ||
            exists f, e :: Gives(s, a, f, e) && Carries(Step(env, s, a).db.dwd[k], f, e)
  {
    hide Carries, FetchPending, Marked;
    if a.Transact? && s.pc.Ready? {
      TransactGives(env, s, a.batchLuck, a.reply, k);
    } else if a.WriteFact? && s.pc.Working? && s.pc.queue != [] {
      var f := s.pc.queue[0];
      ProjectionFacts(env, s.db, f, a.luck, false);
      assert ProjectOne(env, s.db, f, a.luck, false).db.dwd == Step(env, s, a).db.dwd;
      if k !in s.db.dwd {
        assert Gives(s, a, f, a.luck.enriched.value);
      }
    }
  }

  lemma TransactGives(env: Env, s: State, luck: nat -> Luck, reply: Commit, k: FactKey)
    requires s.pc.Ready? && k in Step(env, s, Transact(luck, reply)).db.dwd
    ensures var t := Step(env, s, Transact(luck, reply));
            (k in s.db.dwd && t.db.dwd[k] == s.db.dwd[k]) ||
            exists f, e :: Gives(s, Transact(luck, reply), f, e) && Carries(t.db.dwd[k], f, e)
  {
    hide Carries, Project;
    var queue := s.pc.queue;
    PassFacts(env, s.db, queue, luck, true, |queue|);
    var r := Project(env, s.db, queue, luck, true, |queue|);
    if k !in s.db.dwd {
      var j :| 0 <= j < |queue| && FromLuck(r.db.dwd[k], queue[j], luck(j));
      assert Gives(s, Transact(luck, reply), queue[j], luck(j).enriched.value);
    }
  }

  lemma {:induction false} FactsGiven(env: Env, actions: seq<Action>, n: nat, k: FactKey)
    requires n <= |actions| && k in At(env, actions, n).db.dwd
    ensures Given(env, actions, n, At(env, actions, n).db.dwd[k])
  {
    hide At, Step, Gives, Carries;
    if n == 0 {
      Initially(env, actions);
      assert false;
    } else {
      AtNext(env, actions, n - 1);
      StepGives(env, At(env, actions, n - 1), actions[n - 1], k);
      if k in At(env, actions, n - 1).db.dwd && At(env, actions, n).db.dwd[k] == At(env, actions, n - 1).db.dwd[k] {
        FactsGiven(env, actions, n - 1, k);
      }
    }
  }

  lemma Initially(env: Env, actions: seq<Action>)
    ensures At(env, actions, 0) == INIT
  {
  }

  /**
   In every reachable state each DWD fact belongs to a stored row of its own org, event id and time, and its seat, period
   and amounts are those of one answer the enricher gave when that row was projected.
   */
  lemma ReachableFacts(env: Env, actions: seq<Action>, k: FactKey)
    requires k in Execute(env, INIT, actions).db.dwd
    ensures var db := Execute(env, INIT, actions).db;
            var fact := db.dwd[k];
            && fact.odsId in db.ods && fact.org == db.ods[fact.odsId].org && fact.id == db.ods[fact.odsId].id
            && fact.time == db.ods[fact.odsId].time
            && exists i, f, e :: 0 <= i < |actions| && Gives(At(env, actions, i), actions[i], f, e) && f.odsId == fact.odsId
                 && fact.seat == e.seat && fact.period == e.period && fact.tokens == e.tokens && fact.usd == e.usd && fact.rest == e.rest
  {
    assert actions[..|actions|] == actions;
    FactsGiven(env, actions, |actions|, k);
    hide Execute, Gives;
    FactHasRow(env, actions, k);
    var fact := At(env, actions, |actions|).db.dwd[k];
    var i, f, e :| 0 <= i < |actions| && Gives(At(env, actions, i), actions[i], f, e) && Carries(fact, f, e);
  }

  lemma FactHasRow(env: Env, actions: seq<Action>, k: FactKey)
    requires k in Execute(env, INIT, actions).db.dwd
    ensures var db := Execute(env, INIT, actions).db;
            var fact := db.dwd[k];
            && fact.odsId in db.ods && fact.org == db.ods[fact.odsId].org && fact.id == db.ods[fact.odsId].id
            && fact.time == db.ods[fact.odsId].time
  {
    ExecuteSafe(env, INIT, actions);
    hide Execute;
  }

  /** No failing statement goes unnoticed: the row is not marked projected, and in a PostgreSQL transaction its mark fails as well. */
  lemma FaultsSurface(env: Env, db: Db, f: Fetched, luck: Luck, tx: bool)
    requires !f.rec.canary && luck.enriched.Some?
    requires luck.fault.InsertFault? || luck.fault.LostReply? || (luck.fault.VerifyFault? && Write(env, db.dwd, f, luck).dwd == db.dwd)
    ensures var r := ProjectOne(env, db, f, luck, tx).result;
            !r.outcome.ToProjected? && r.fact.None? && (tx && env.dialect.Postgres? ==> r.failed)
  {
    hide Clashes, UtcDay;
  }

  /** Another fact of the same event id, or of the same ODS id, on the same UTC day: PostgreSQL's other unique keys, SQLite's without the day. */
  predicate Taken(env: Env, other: Fact, fact: Fact) {
    if env.dialect.Postgres? then UtcDay(other.time) == UtcDay(fact.time) && (other.id == fact.id || other.odsId == fact.odsId)
    else other.odsId == fact.odsId
  }

  /**
   The insert on its own, without faults: under a free key it stores an admissible fact that no other fact clashes with; a
   refused one fails the statement on PostgreSQL, and on SQLite is found to be swallowed; a taken key is a duplicate only if
   the stored fact is of the same UTC day.
   */
  lemma InsertExact(env: Env, dwd: Dwd, f: Fact)
    ensures var (after, written) := InsertFact(env, dwd, f, NoFault);
            var key := KeyOf(env, f);
            var clash := exists k :: k in dwd && Taken(env, dwd[k], f);
            && (written.Inserted? <==> key !in dwd && env.admits(f) && !clash)
            && after == (if written.Inserted? then dwd[key := f] else dwd)
            && (key !in dwd && (clash || !env.admits(f)) ==> written == Failed(env.dialect.Postgres?))
            && (key in dwd && (env.admits(f) || env.dialect.Sqlite?) ==>
                  written == if UtcDay(dwd[key].time) == UtcDay(f.time) then Duplicate else Failed(false))
  {
    hide UtcDay;
    if k :| k in dwd && Taken(env, dwd[k], f) {
      assert Clashes(env, dwd, f);
    }
  }

  /** A mark reaches the row with this id and event time only, and changes its status and, for a retry, its due time and count. */
  lemma MarkExact(ods: Ods, f: Fetched, outcome: Outcome, now: int)
    ensures var after := Marked(ods, f, outcome, now);
            && after.Keys == ods.Keys && (forall i :: i in ods && (i != f.odsId || ods[i].time != f.rec.time) ==> after[i] == ods[i])
            && (f.odsId in ods && ods[f.odsId].time == f.rec.time ==>
                  var a, b := ods[f.odsId], after[f.odsId];
                  var n := f.rec.retries + 1;
                  && (outcome.ToProjected? ==> b == a.(status := Projected))
                  && (outcome.ToDeadLetter? ==> b == a.(status := DeadLetter))
                  && (outcome.ToRetry? ==>
                        b == a.(retries := n, status := Retry(now + 60000 * (if n <= 3 then 1 else if n <= 10 then 10 else 60)))))
  {
  }

  /** On PostgreSQL a refused fact fails its statement, so in a transaction the row's mark fails too and the batch is replayed. */
  lemma RefusedPoisons(env: Env, db: Db, f: Fetched, luck: Luck)
    requires env.dialect.Postgres? && !f.rec.canary && luck.enriched.Some?
    requires var fact := FactFor(f, luck.enriched.value);
             !env.admits(fact) || (KeyOf(env, fact) !in db.dwd && exists k :: k in db.dwd && Taken(env, db.dwd[k], fact))
    ensures var r := ProjectOne(env, db, f, luck, true).result; r.failed && !r.outcome.ToProjected?
  {
    hide UtcDay;
    var fact := FactFor(f, luck.enriched.value);
    if k :| k in db.dwd && Taken(env, db.dwd[k], fact) {
      assert Clashes(env, db.dwd, fact);
    }
  }

  /** Otherwise its mark fails exactly when the mark's own statement does. */
  lemma UnrefusedMarks(env: Env, db: Db, f: Fetched, luck: Luck, tx: bool)
    requires f.rec.canary || luck.enriched.None? ||
             (luck.fault.NoFault? && env.admits(FactFor(f, luck.enriched.value))
              && (KeyOf(env, FactFor(f, luck.enriched.value)) in db.dwd
                  || forall k :: k in db.dwd ==> !Taken(env, db.dwd[k], FactFor(f, luck.enriched.value))))
    ensures ProjectOne(env, db, f, luck, tx).result.failed <==> luck.markFails
  {
    hide UtcDay;
  }

  // ---- what becomes of a scan's transaction ----

  /**
   A scan's transaction counts exactly when it opened, no mark in it failed, its checkpoint was saved and its commit succeeded.
   If it did not leave anything the scan is just the row-by-row one; if its commit was durable but unheard, the row-by-row pass
   runs over what it left.
   */
  lemma ScanExact(env: Env, db: Db, limit: nat, s: Script)
    requires forall i :: i in db.ods ==> i > 0
    ensures var queue, r := ScanQueue(db, limit, s), Scan(env, db, true, limit, s);
            var p := Project(env, db, queue, s.inside, true, |queue|);
            var good := !s.begin && Clean(p.results) && (queue == [] || !s.save);
            && (good && s.commit.Heard? ==> r.results == p.results && r.db.ods == p.db.ods && r.db.dwd == p.db.dwd)
            && (!good || s.commit.Refused? ==> r == Scan(env, db, false, limit, s))
            && (good && s.commit.Unheard? ==>
                  r.results == Project(env, Checkpointed(p.db, queue), queue, s.replay, false, |queue|).results)
  {
    PositiveIds(db, limit, s);
    hide ScanQueue, Project, Prepared, LastOds, Checkpointed;
    var queue := ScanQueue(db, limit, s);
    PreparedExact(env, db, queue, s);
    CheckpointedTables(Project(env, db, queue, s.inside, true, |queue|).db, queue);
  }

  lemma CheckpointedTables(db: Db, queue: seq<Fetched>)
    ensures Checkpointed(db, queue).ods == db.ods && Checkpointed(db, queue).dwd == db.dwd
  {
  }

  lemma PreparedExact(env: Env, db: Db, queue: seq<Fetched>, s: Script)
    requires forall f :: f in queue ==> f.odsId > 0
    ensures Prepared(env, db, queue, s) <==>
              !s.begin && Clean(Project(env, db, queue, s.inside, true, |queue|).results) && (queue == [] || !s.save)
  {
    LastPositive(queue);
    hide Clean;
  }

  lemma LastPositive(queue: seq<Fetched>)
    requires forall f :: f in queue ==> f.odsId > 0
    ensures LastOds(queue) > 0 <==> queue != []
  {
    if queue != [] {
      assert queue[0] in queue && LastOds(queue) >= queue[0].odsId;
    }
  }

  lemma PositiveIds(db: Db, limit: nat, s: Script)
    requires forall i :: i in db.ods ==> i > 0
    ensures forall f :: f in ScanQueue(db, limit, s) ==> f.odsId > 0
  {
    FetchedFresh(db.ods, s.now, limit);
    forall f | f in ScanQueue(db, limit, s)
      ensures f.odsId > 0
    {
      var queue := FetchPending(db.ods, s.now, limit);
      var k :| 0 <= k < |queue| && queue[k] == f;
      assert Fresh(db.ods, queue[k]);
    }
  }

  /** Outside a PostgreSQL transaction a mark fails exactly when its own statement does. */
  lemma MarksOnTheirOwn(env: Env, db: Db, f: Fetched, luck: Luck, tx: bool)
    requires !tx || env.dialect.Sqlite?
    ensures ProjectOne(env, db, f, luck, tx).result.failed <==> luck.markFails
  {
  }
}
