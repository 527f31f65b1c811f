/**
 Crash safety of the projector: one worker, ingest running beside it, a stop allowed between
 any two writes, and commits and inserts whose success may go unheard.
 */
module ProjectorSafety {
  import opened Database
  import opened Facts
  import opened Options
  import opened Projector

  // ---- what always holds of the tables ----

  /** The ODS unique key. */
  ghost predicate UniqueEvents(env: Env, ods: Ods) {
    forall i, j :: i in ods && j in ods && SameOdsKey(env, ods[i], ods[j]) ==> i == j
  }

  predicate SameOdsKey(env: Env, a: Row, b: Row) {
    a.org == b.org && a.id == b.id && (env.dialect.Postgres? ==> a.time == b.time)
  }

  function RowKey(env: Env, r: Row): FactKey {
    KeyFor(env, r.org, r.id, r.time)
  }

  predicate Describes(r: Row, f: Fact) {
    f.org == r.org && f.id == r.id && f.time == r.time && !r.canary && !r.status.Quarantined?
  }

  /** Every fact has its row, which is neither a canary nor quarantined. */
  ghost predicate FactsHaveRows(env: Env, ods: Ods, dwd: Dwd) {
    forall k :: k in dwd ==> KeyOf(env, dwd[k]) == k && dwd[k].odsId in ods && Describes(ods[dwd[k].odsId], dwd[k])
  }

  /** Every projected row that is not a canary has its fact. */
  ghost predicate ProjectedHaveFacts(env: Env, ods: Ods, dwd: Dwd) {
    forall i :: i in ods && ods[i].status.Projected? && !ods[i].canary ==> RowKey(env, ods[i]) in dwd
  }

  ghost predicate OpenBounded(ods: Ods) {
    forall i :: i in ods && Open(ods[i]) ==> ods[i].retries < DEAD_LETTER_THRESHOLD
  }

  ghost predicate Inv(env: Env, db: Db) {
    UniqueEvents(env, db.ods) && FactsHaveRows(env, db.ods, db.dwd) && ProjectedHaveFacts(env, db.ods, db.dwd) && OpenBounded(db.ods)
  }

  // ---- one projection ----

  predicate SameColumns(a: Row, b: Row) {
    a.(status := b.status, retries := b.retries) == b
  }

  /** The row is still as the scan read it. */
  predicate Fresh(ods: Ods, f: Fetched) {
    f.odsId in ods && ods[f.odsId] == f.rec && Open(f.rec)
  }

  /** The row the scan read, whatever its status has become since; it was below the threshold then. */
  predicate Known(ods: Ods, f: Fetched) {
    && f.odsId in ods && SameColumns(ods[f.odsId], f.rec) && !ods[f.odsId].status.Quarantined?
    && f.rec.retries < DEAD_LETTER_THRESHOLD
  }

  ghost predicate Grows(a: Dwd, b: Dwd) {
    forall k :: k in a ==> k in b && b[k] == a[k]
  }

  /** The mark may be written: a projected row has its fact, a retried one is below the threshold. */
  predicate Earned(env: Env, dwd: Dwd, rec: Row, outcome: Outcome) {
    match outcome
    case ToProjected => rec.canary || RowKey(env, rec) in dwd
    case ToRetry => rec.retries + 1 < DEAD_LETTER_THRESHOLD
    case ToDeadLetter => true
  }

  ghost predicate OneMoreFact(env: Env, dwd: Dwd, f: Fact, dwd': Dwd) {
    KeyOf(env, f) !in dwd && dwd' == dwd[KeyOf(env, f) := f]
  }

  /** A reported fact is new and is all that is new; an unreported one is stored only if its reply was lost. */
  ghost predicate Inserts(env: Env, dwd: Dwd, fact: Option<Fact>, fault: Fault, dwd': Dwd) {
    match fact
    case Some(f) => OneMoreFact(env, dwd, f, dwd')
    case None => dwd' == dwd || (fault.LostReply? && exists f :: OneMoreFact(env, dwd, f, dwd'))
  }

  lemma InsertShape(env: Env, dwd: Dwd, f: Fact, fault: Fault)
    ensures var (dwd', written) := InsertFact(env, dwd, f, fault);
            && (written.Inserted? ==> OneMoreFact(env, dwd, f, dwd'))
            && (!written.Inserted? ==> dwd' == dwd || (fault.LostReply? && OneMoreFact(env, dwd, f, dwd')))
            && (written.Inserted? || written.Duplicate? ==> KeyOf(env, f) in dwd')
            && (fault.InsertFault? ==> written.Failed?) && (fault.VerifyFault? ==> !written.Duplicate?)
  {
  }

  lemma FactKeeps(env: Env, ods: Ods, dwd: Dwd, f: Fetched, e: Enriched, dwd': Dwd)
    requires FactsHaveRows(env, ods, dwd) && Known(ods, f) && !f.rec.canary && OneMoreFact(env, dwd, FactFor(f, e), dwd')
    ensures FactsHaveRows(env, ods, dwd') && Grows(dwd, dwd')
  {
  }

  lemma WriteKeeps(env: Env, ods: Ods, dwd: Dwd, f: Fetched, luck: Luck)
    requires FactsHaveRows(env, ods, dwd) && Known(ods, f)
    ensures var p := Write(env, dwd, f, luck);
            && FactsHaveRows(env, ods, p.dwd) && Grows(dwd, p.dwd) && Earned(env, p.dwd, f.rec, p.outcome)
            && Inserts(env, dwd, p.fact, luck.fault, p.dwd)
  {
    hide InsertFact, FactsHaveRows, OneMoreFact;
    if !f.rec.canary && luck.enriched.Some? {
      var fact := FactFor(f, luck.enriched.value);
      InsertShape(env, dwd, fact, luck.fault);
      var p := Write(env, dwd, f, luck);
      if p.dwd != dwd {
        FactKeeps(env, ods, dwd, f, luck.enriched.value, p.dwd);
      }
    }
  }

  lemma MarkKeeps(env: Env, db: Db, f: Fetched, outcome: Outcome, now: int)
    requires Inv(env, db) && Known(db.ods, f) && Earned(env, db.dwd, f.rec, outcome)
    ensures Inv(env, db.(ods := Marked(db.ods, f, outcome, now)))
  {
  }

  /** A row after a mark that was earned when it read `rec`. */
  function MarkedRow(row: Row, rec: Row, outcome: Outcome, now: int): Row {
    match outcome
    case ToProjected => row.(status := Projected)
    case ToRetry => row.(status := Retry(now + RetryDelay(rec.retries + 1)), retries := rec.retries + 1)
    case ToDeadLetter => row.(status := DeadLetter)
  }

  function RowAfter(row: Row, rec: Row, r: Result, now: int): Row {
    if r.failed then row else MarkedRow(row, rec, r.outcome, now)
  }

  lemma MarkedOds(ods: Ods, f: Fetched, outcome: Outcome, now: int)
    requires Known(ods, f)
    ensures Marked(ods, f, outcome, now) == ods[f.odsId := MarkedRow(ods[f.odsId], f.rec, outcome, now)]
    ensures Known(Marked(ods, f, outcome, now), f)
  {
  }

  lemma ProjectOneKeeps(env: Env, db: Db, f: Fetched, luck: Luck, tx: bool)
    requires Inv(env, db) && Known(db.ods, f)
    ensures var d := ProjectOne(env, db, f, luck, tx);
            && Inv(env, d.db) && Grows(db.dwd, d.db.dwd)
            && d.db.ods == db.ods[f.odsId := RowAfter(db.ods[f.odsId], f.rec, d.result, luck.now)]
            && Inserts(env, db.dwd, d.result.fact, luck.fault, d.db.dwd)
  {
    hide Write, Inv, Marked, MarkedRow, FactsHaveRows, Earned, Grows, Inserts;
    InvFacts(env, db);
    WriteKeeps(env, db.ods, db.dwd, f, luck);
    var p := Write(env, db.dwd, f, luck);
    GrowthKeeps(env, db, p.dwd);
    MarkKeeps(env, db.(dwd := p.dwd), f, p.outcome, luck.now);
    MarkedOds(db.ods, f, p.outcome, luck.now);
    assert db.ods[f.odsId := db.ods[f.odsId]] == db.ods;
  }

  lemma InvFacts(env: Env, db: Db)
    requires Inv(env, db)
    ensures FactsHaveRows(env, db.ods, db.dwd)
  {
  }

  lemma GrowthKeeps(env: Env, db: Db, dwd: Dwd)
    requires Inv(env, db) && Grows(db.dwd, dwd) && FactsHaveRows(env, db.ods, dwd)
    ensures Inv(env, db.(dwd := dwd))
  {
  }

  // ---- a queue ----

  predicate EachOnce(queue: seq<Fetched>) {
    forall j, k :: 0 <= j < k < |queue| ==> queue[j].odsId != queue[k].odsId
  }

  /** As a scan reads it: rows still unchanged, each once. */
  ghost predicate FreshQueue(ods: Ods, queue: seq<Fetched>) {
    (forall k :: 0 <= k < |queue| ==> Fresh(ods, queue[k])) && EachOnce(queue)
  }

  ghost predicate KnownQueue(ods: Ods, queue: seq<Fetched>) {
    (forall k :: 0 <= k < |queue| ==> Known(ods, queue[k])) && EachOnce(queue)
  }

  lemma FetchedFresh(ods: Ods, now: int, limit: nat)
    ensures FreshQueue(ods, FetchPending(ods, now, limit))
  {
    var ids := Lowest(Eligible(ods, now), limit);
    LowestExact(Eligible(ods, now), limit);
    assert forall k :: 0 <= k < |ids| ==> ids[k] in ids && ids[k] in Eligible(ods, now);
    hide Lowest;
  }

  lemma FreshKnown(env: Env, db: Db, queue: seq<Fetched>)
    requires Inv(env, db) && FreshQueue(db.ods, queue)
    ensures KnownQueue(db.ods, queue)
  {
    forall k | 0 <= k < |queue|
      ensures Known(db.ods, queue[k])
    {
      assert Fresh(db.ods, queue[k]);
    }
  }

  /** What a pass over the first n rows of the queue has done. */
  ghost predicate Passed(env: Env, db: Db, queue: seq<Fetched>, luck: nat -> Luck, n: nat, r: Run)
    requires n <= |queue| && |r.results| == n
  {
    && Inv(env, r.db) && Grows(db.dwd, r.db.dwd) && r.db.ods.Keys == db.ods.Keys
    && (forall k :: 0 <= k < n && queue[k].odsId in db.ods && queue[k].odsId in r.db.ods ==>
          r.db.ods[queue[k].odsId] == RowAfter(db.ods[queue[k].odsId], queue[k].rec, r.results[k], luck(k).now))
    && (forall i :: i in db.ods && (forall k :: 0 <= k < n ==> queue[k].odsId != i) ==> r.db.ods[i] == db.ods[i])
  }

  lemma PassNext(env: Env, db: Db, queue: seq<Fetched>, luck: nat -> Luck, n: nat, before: Run, d: Done)
    requires EachOnce(queue) && n < |queue| && queue[n].odsId in db.ods
    requires |before.results| == n && Passed(env, db, queue, luck, n, before)
    requires Inv(env, d.db) && Grows(before.db.dwd, d.db.dwd)
    requires d.db.ods == before.db.ods[queue[n].odsId := RowAfter(db.ods[queue[n].odsId], queue[n].rec, d.result, luck(n).now)]
    ensures Passed(env, db, queue, luck, n + 1, Run(d.db, before.results + [d.result]))
  {
    hide Inv, RowAfter;
    assert d.db.ods.Keys == before.db.ods.Keys;
    var results := before.results + [d.result];
    forall k | 0 <= k < n + 1 && queue[k].odsId in db.ods && queue[k].odsId in d.db.ods
      ensures d.db.ods[queue[k].odsId] == RowAfter(db.ods[queue[k].odsId], queue[k].rec, results[k], luck(k).now)
    {
      if k < n {
        assert queue[k].odsId != queue[n].odsId && results[k] == before.results[k];
      }
    }
  }

  lemma PassNone(env: Env, db: Db, queue: seq<Fetched>, luck: nat -> Luck)
    requires Inv(env, db)
    ensures Passed(env, db, queue, luck, 0, Run(db, []))
  {
    hide Inv;
  }

  /** Each fetched row ends with its own mark, or as it was if its mark failed; no other row changes. */
  lemma {:induction false} ProjectKeeps(env: Env, db: Db, queue: seq<Fetched>, luck: nat -> Luck, tx: bool, n: nat)
    requires Inv(env, db) && KnownQueue(db.ods, queue) && n <= |queue|
    ensures Passed(env, db, queue, luck, n, Project(env, db, queue, luck, tx, n))
  {
    hide *;
    if n > 0 {
      ProjectKeeps(env, db, queue, luck, tx, n - 1);
      var before, f := Project(env, db, queue, luck, tx, n - 1), queue[n - 1];
      StillKnown(env, db, queue, luck, n - 1, before);
      ProjectNext(env, db, queue, luck, tx, n - 1);
      ProjectOneKeeps(env, before.db, f, luck(n - 1), tx);
      PassNext(env, db, queue, luck, n - 1, before, ProjectOne(env, before.db, f, luck(n - 1), tx));
    } else {
      ProjectNone(env, db, queue, luck, tx);
      PassNone(env, db, queue, luck);
    }
  }

  /** The next row of a pass is as the pass found it. */
  lemma StillKnown(env: Env, db: Db, queue: seq<Fetched>, luck: nat -> Luck, n: nat, r: Run)
    requires KnownQueue(db.ods, queue) && n < |queue| && |r.results| == n && Passed(env, db, queue, luck, n, r)
    ensures Inv(env, r.db) && EachOnce(queue) && Known(r.db.ods, queue[n])
    ensures queue[n].odsId in db.ods && queue[n].odsId in r.db.ods && r.db.ods[queue[n].odsId] == db.ods[queue[n].odsId]
  {
    assert Known(db.ods, queue[n]);
    assert queue[n].odsId in r.db.ods.Keys;
    hide Inv;
  }

  lemma PassedRow(env: Env, db: Db, queue: seq<Fetched>, luck: nat -> Luck, r: Run, k: nat)
    requires KnownQueue(db.ods, queue) && |r.results| == |queue| && Passed(env, db, queue, luck, |queue|, r) && k < |queue|
    ensures var i := queue[k].odsId;
            i in db.ods && i in r.db.ods && r.db.ods[i] == RowAfter(db.ods[i], queue[k].rec, r.results[k], luck(k).now)
  {
    hide Inv, RowAfter;
    assert Known(db.ods, queue[k]);
    assert queue[k].odsId in r.db.ods.Keys;
  }

  /** After a pass the queue still names the rows it named. */
  lemma PassedKnown(env: Env, db: Db, queue: seq<Fetched>, luck: nat -> Luck, r: Run)
    requires KnownQueue(db.ods, queue) && |r.results| == |queue| && Passed(env, db, queue, luck, |queue|, r)
    ensures KnownQueue(r.db.ods, queue) && Inv(env, r.db)
  {
    forall k | 0 <= k < |queue|
      ensures Known(r.db.ods, queue[k])
    {
      PassedRow(env, db, queue, luck, r, k);
      assert Known(db.ods, queue[k]);
    }
    hide Inv;
  }

  // ---- the machine ----

  // Ready: fetched, the transaction not tried yet. Working: the replay. Marking: the head of the queue has been
  // written and waits for its mark. unheard: the transaction was durable after all. last: the scan's highest id.
  datatype Pc =
    | Idle
    | Ready(queue: seq<Fetched>, last: int)
    | Working(queue: seq<Fetched>, last: int, unheard: bool)
    | Marking(queue: seq<Fetched>, last: int, unheard: bool, outcome: Outcome)

  datatype State = State(db: Db, pc: Pc)

  datatype Action =
    | Arrive(odsId: int, row: Row)
    | Fetch(now: int, limit: nat)
    | Transact(batchLuck: nat -> Luck, reply: Commit)
    | WriteFact(luck: Luck)
    | WriteMark(fails: bool, at: int)
    | Finish(save: bool)
    | Crash

  const INIT := State(Db(map[], map[], 0), Idle)

  /** Ingest may store this row: the id and the unique key are free. */
  ghost predicate Admissible(env: Env, ods: Ods, odsId: int, row: Row) {
    && odsId !in ods && (row.status.Pending? || row.status.Quarantined?) && row.retries == 0
    && forall i :: i in ods ==> !SameOdsKey(env, ods[i], row)
  }

  /** One step; an action that cannot be taken leaves the state alone. */
  ghost function Step(env: Env, s: State, a: Action): State {
    match a
    case Arrive(odsId, row) =>
      if Admissible(env, s.db.ods, odsId, row) then s.(db := s.db.(ods := s.db.ods[odsId := row])) else s
    case Fetch(now, limit) =>
      if !s.pc.Idle? then s
      else
        var queue := FetchPending(s.db.ods, now, limit);
        s.(pc := Ready(queue, LastOds(queue)))
    case Transact(luck, reply) =>
      if !s.pc.Ready? then s
      else
        var queue := s.pc.queue;
        var r := Project(env, s.db, queue, luck, true, |queue|);
        if !Clean(r.results) || reply.Refused? then s.(pc := Working(queue, s.pc.last, false))
        else State(Checkpointed(r.db, queue), if reply.Heard? then Idle else Working(queue, s.pc.last, true))
    case WriteFact(luck) =>
      if !s.pc.Working? || s.pc.queue == [] then s
      else
        var p := Write(env, s.db.dwd, s.pc.queue[0], luck);
        State(s.db.(dwd := p.dwd), Marking(s.pc.queue, s.pc.last, s.pc.unheard, p.outcome))
    case WriteMark(fails, at) =>
      if !s.pc.Marking? || s.pc.queue == [] then s
      else State(if fails then s.db else s.db.(ods := Marked(s.db.ods, s.pc.queue[0], s.pc.outcome, at)),
                 Working(s.pc.queue[1..], s.pc.last, s.pc.unheard))
    case Finish(save) =>
      if !s.pc.Working? || s.pc.queue != [] then s
      else State(if save && s.pc.last > 0 then s.db.(checkpoint := s.pc.last) else s.db, Idle)
    case Crash => s.(pc := Idle)
  }

  ghost function Execute(env: Env, s: State, actions: seq<Action>): State {
    if actions == [] then s
    else Step(env, Execute(env, s, actions[..|actions| - 1]), actions[|actions| - 1])
  }

  /** The replay runs over rows that a durable attempt has already marked. */
  predicate Replays(pc: Pc) {
    (pc.Working? || pc.Marking?) && pc.unheard
  }

  ghost predicate Safe(env: Env, s: State) {
    && Inv(env, s.db)
    && (!s.pc.Idle? ==> KnownQueue(s.db.ods, s.pc.queue) && (!Replays(s.pc) ==> FreshQueue(s.db.ods, s.pc.queue)))
    && (s.pc.Marking? ==> s.pc.queue != [] && Earned(env, s.db.dwd, s.pc.queue[0].rec, s.pc.outcome))
  }

  predicate Closed(r: Row) {
    !Open(r)
  }

  /** No row is lost and its columns never change. */
  ghost predicate Preserves(a: Ods, b: Ods) {
    forall i :: i in a ==> i in b && SameColumns(b[i], a[i])
  }

  /** ... and a closed row stays as it is. */
  ghost predicate Settles(a: Ods, b: Ods) {
    forall i :: i in a ==> i in b && RowSettles(a[i], b[i])
  }

  predicate RowSettles(a: Row, b: Row) {
    SameColumns(b, a) && (Closed(a) ==> b == a)
  }

  /** The replay of an unheard commit writes another mark than the row is closed with. */
  predicate Reopens(s: State, a: Action) {
    && a.WriteMark? && !a.fails && s.pc.Marking? && s.pc.unheard && s.pc.queue != [] && s.pc.queue[0].odsId in s.db.ods
    && var row := s.db.ods[s.pc.queue[0].odsId];
       Closed(row) && MarkedRow(row, s.pc.queue[0].rec, s.pc.outcome, a.at) != row
  }

  lemma ArriveKeeps(env: Env, db: Db, odsId: int, row: Row)
    requires Inv(env, db) && Admissible(env, db.ods, odsId, row)
    ensures Inv(env, db.(ods := db.ods[odsId := row]))
  {
  }

  lemma QueueStays(ods: Ods, ods': Ods, queue: seq<Fetched>)
    requires forall k :: 0 <= k < |queue| && queue[k].odsId in ods ==>
               queue[k].odsId in ods' && ods'[queue[k].odsId] == ods[queue[k].odsId]
    ensures FreshQueue(ods, queue) ==> FreshQueue(ods', queue)
    ensures KnownQueue(ods, queue) ==> KnownQueue(ods', queue)
  {
  }

  lemma MarkSafe(env: Env, s: State, fails: bool, at: int)
    requires Safe(env, s) && s.pc.Marking?
    ensures var s' := Step(env, s, WriteMark(fails, at));
            && Safe(env, s') && Preserves(s.db.ods, s'.db.ods)
            && (Settles(s.db.ods, s'.db.ods) <==> !Reopens(s, WriteMark(fails, at)))
  {
    var queue, f := s.pc.queue, s.pc.queue[0];
    assert Known(s.db.ods, f) && (!s.pc.unheard ==> Fresh(s.db.ods, f));
    if !fails {
      MarkKeeps(env, s.db, f, s.pc.outcome, at);
    }
    MarkedOds(s.db.ods, f, s.pc.outcome, at);
    var row := if fails then s.db.ods[f.odsId] else MarkedRow(s.db.ods[f.odsId], f.rec, s.pc.outcome, at);
    assert s.db.ods[f.odsId := s.db.ods[f.odsId]] == s.db.ods;
    hide Inv, Marked, FreshQueue, KnownQueue;
    var s' := Step(env, s, WriteMark(fails, at));
    assert s'.db.ods == s.db.ods[f.odsId := row];
    assert f.odsId in s.db.ods;
  }

  lemma WriteSafe(env: Env, s: State, luck: Luck)
    requires Safe(env, s) && s.pc.Working? && s.pc.queue != []
    ensures var s' := Step(env, s, WriteFact(luck)); Safe(env, s') && s'.db.ods == s.db.ods
  {
    assert Known(s.db.ods, s.pc.queue[0]);
    WriteKeeps(env, s.db.ods, s.db.dwd, s.pc.queue[0], luck);
    var p := Write(env, s.db.dwd, s.pc.queue[0], luck);
    GrowthKeeps(env, s.db, p.dwd);
    hide Write, Inv, FreshQueue, KnownQueue, Grows, FactsHaveRows;
  }

  lemma TransactSafe(env: Env, s: State, luck: nat -> Luck, reply: Commit)
    requires Safe(env, s) && s.pc.Ready?
    ensures var s' := Step(env, s, Transact(luck, reply)); Safe(env, s') && Settles(s.db.ods, s'.db.ods)
  {
    hide Inv, Passed, Project, FreshQueue, KnownQueue, Checkpointed, Settles, Clean;
    var queue := s.pc.queue;
    var r := Project(env, s.db, queue, luck, true, |queue|);
    ProjectKeeps(env, s.db, queue, luck, true, |queue|);
    PassedSettles(env, s.db, queue, luck, r);
    PassedKnown(env, s.db, queue, luck, r);
    CheckpointKeeps(env, r.db, queue);
    SettlesOn(s.db.ods, s.db.ods, s.db.ods);
  }

  lemma CheckpointKeeps(env: Env, db: Db, queue: seq<Fetched>)
    requires Inv(env, db)
    ensures Inv(env, Checkpointed(db, queue)) && Checkpointed(db, queue).ods == db.ods && Checkpointed(db, queue).dwd == db.dwd
  {
  }

  lemma PassedSettles(env: Env, db: Db, queue: seq<Fetched>, luck: nat -> Luck, r: Run)
    requires FreshQueue(db.ods, queue) && KnownQueue(db.ods, queue)
    requires |r.results| == |queue| && Passed(env, db, queue, luck, |queue|, r)
    ensures Settles(db.ods, r.db.ods) && Inv(env, r.db)
  {
    hide Inv, KnownQueue;
    forall i | i in db.ods
      ensures i in r.db.ods && RowSettles(db.ods[i], r.db.ods[i])
    {
      assert i in r.db.ods.Keys;
      if k :| 0 <= k < |queue| && queue[k].odsId == i {
        assert Fresh(db.ods, queue[k]);
        PassedRow(env, db, queue, luck, r, k);
      }
    }
  }

  /** Every step keeps the tables consistent; closed rows stay closed as they are exactly unless it reopens one. */
  lemma StepSafe(env: Env, s: State, a: Action)
    requires Safe(env, s)
    ensures var s' := Step(env, s, a);
            && Safe(env, s') && Preserves(s.db.ods, s'.db.ods)
            && (Settles(s.db.ods, s'.db.ods) <==> !Reopens(s, a))
  {
    hide Inv, Settles, Preserves, FreshQueue, KnownQueue, FetchPending, Admissible;
    SettlesOn(s.db.ods, s.db.ods, s.db.ods);
    match a {
      case Arrive(odsId, row) =>
        if Admissible(env, s.db.ods, odsId, row) {
          ArriveKeeps(env, s.db, odsId, row);
          ArriveSettles(env, s.db.ods, odsId, row, if s.pc.Idle? then [] else s.pc.queue);
        }
      case Fetch(now, limit) =>
        FetchedFresh(s.db.ods, now, limit);
        FreshKnown(env, s.db, FetchPending(s.db.ods, now, limit));
      case Transact(luck, reply) =>
        if s.pc.Ready? {
          TransactSafe(env, s, luck, reply);
          SettlesOn(s.db.ods, Step(env, s, a).db.ods, Step(env, s, a).db.ods);
        }
      case WriteFact(luck) =>
        if s.pc.Working? && s.pc.queue != [] {
          WriteSafe(env, s, luck);
        }
      case WriteMark(fails, at) =>
        if s.pc.Marking? {
          MarkSafe(env, s, fails, at);
        }
      case Finish(save) =>
        InvIgnoresCheckpoint(env, s.db);
      case Crash =>
    }
  }

  lemma InvIgnoresCheckpoint(env: Env, db: Db)
    requires Inv(env, db)
    ensures forall c :: Inv(env, db.(checkpoint := c))
  {
  }

  lemma ArriveSettles(env: Env, ods: Ods, odsId: int, row: Row, queue: seq<Fetched>)
    requires Admissible(env, ods, odsId, row)
    ensures var ods' := ods[odsId := row];
            && Settles(ods, ods') && Preserves(ods, ods')
            && (FreshQueue(ods, queue) ==> FreshQueue(ods', queue)) && (KnownQueue(ods, queue) ==> KnownQueue(ods', queue))
  {
    QueueStays(ods, ods[odsId := row], queue);
    hide FreshQueue, KnownQueue;
  }

  /** No commit in the run reported an error and was durable all the same. */
  ghost predicate AllHeard(actions: seq<Action>) {
    forall a :: a in actions ==> !(a.Transact? && a.reply.Unheard?)
  }

  /** Every run keeps the tables consistent and the worker's queue to rows it knows. */
  lemma {:induction false} ExecuteSafe(env: Env, s: State, actions: seq<Action>)
    requires Safe(env, s)
    ensures var s' := Execute(env, s, actions);
            && Safe(env, s') && Preserves(s.db.ods, s'.db.ods)
            && (AllHeard(actions) && !Replays(s.pc) ==> !Replays(s'.pc) && Settles(s.db.ods, s'.db.ods))
  {
    if actions != [] {
      var front, last := actions[..|actions| - 1], actions[|actions| - 1];
      assert last in actions && forall a :: a in front ==> a in actions;
      ExecuteSafe(env, s, front);
      var mid := Execute(env, s, front);
      StepSafe(env, mid, last);
      SettlesOn(s.db.ods, mid.db.ods, Step(env, mid, last).db.ods);
      hide Safe, Step, Settles, Preserves, Replays, Reopens;
    } else {
      hide Safe;
    }
  }

  lemma SettlesOn(a: Ods, b: Ods, c: Ods)
    ensures Settles(a, a) && (Settles(a, b) ==> Preserves(a, b))
    ensures Settles(a, b) && Settles(b, c) ==> Settles(a, c)
    ensures Preserves(a, b) && Preserves(b, c) ==> Preserves(a, c)
  {
  }

  /** The replay of one row is the machine's two steps, so a stop between them is covered. */
  lemma ReplayIsTwoSteps(env: Env, db: Db, queue: seq<Fetched>, last: int, unheard: bool, luck: Luck)
    requires queue != []
    ensures var written := Step(env, State(db, Working(queue, last, unheard)), WriteFact(luck));
            var marked := Step(env, written, WriteMark(luck.markFails, luck.now));
            marked == State(ProjectOne(env, db, queue[0], luck, false).db, Working(queue[1..], last, unheard))
  {
  }

  /** A fact of this event. */
  predicate FactOf(f: Fact, r: Row) {
    f.org == r.org && f.id == r.id && UtcDay(f.time) == UtcDay(r.time)
  }

  /** In every reachable state the tables agree row by row. */
  ghost predicate Consistent(ods: Ods, dwd: Dwd) {
    && (forall i :: i in ods && ods[i].status.Projected? && !ods[i].canary ==>
          exists k :: k in dwd && FactOf(dwd[k], ods[i]) && forall k' :: k' in dwd && FactOf(dwd[k'], ods[i]) ==> k' == k)
    && (forall i, k :: i in ods && k in dwd && (ods[i].canary || ods[i].status.Quarantined?) ==> dwd[k].odsId != i)
    && (forall k :: k in dwd ==> dwd[k].odsId in ods && FactOf(dwd[k], ods[dwd[k].odsId]))
    && (forall k, k' :: k in dwd && k' in dwd && dwd[k].odsId == dwd[k'].odsId ==> k == k')
  }

  /**
   Crash safety: whatever the interleaving of arrivals, scans, transactions, single writes and
   stops, lost replies included, a projected row has exactly one fact, canaries and quarantined
   rows have none, every fact has its row; and as long as no durable commit goes unheard, closed
   rows never change again.
   */
  lemma CrashSafe(env: Env, past: seq<Action>, future: seq<Action>)
    ensures var s := Execute(env, INIT, past);
            && Consistent(s.db.ods, s.db.dwd)
            && Preserves(s.db.ods, Execute(env, s, future).db.ods)
            && (AllHeard(past) && AllHeard(future) ==> Settles(s.db.ods, Execute(env, s, future).db.ods))
  {
    hide Execute, Settles, Preserves;
    assert Safe(env, INIT);
    ExecuteSafe(env, INIT, past);
    ExecuteSafe(env, Execute(env, INIT, past), future);
  }

  ghost function At(env: Env, actions: seq<Action>, i: nat): State
    requires i <= |actions|
  {
    Execute(env, INIT, actions[..i])
  }

  lemma AtNext(env: Env, actions: seq<Action>, i: nat)
    requires i < |actions|
    ensures At(env, actions, i + 1) == Step(env, At(env, actions, i), actions[i]) && Safe(env, At(env, actions, i))
  {
    assert actions[..i + 1][..i] == actions[..i];
    ExecuteSafe(env, INIT, actions[..i]);
  }

  ghost predicate Absorbing(env: Env, actions: seq<Action>) {
    forall i, j :: 0 <= i <= j <= |actions| ==> Settles(At(env, actions, i).db.ods, At(env, actions, j).db.ods)
  }

  /** Projected, dead_letter and quarantined are absorbing over a run exactly when none of its steps reopens a row. */
  lemma AbsorbingIff(env: Env, actions: seq<Action>)
    ensures Absorbing(env, actions) <==> forall i :: 0 <= i < |actions| ==> !Reopens(At(env, actions, i), actions[i])
  {
    hide At, Settles, Reopens;
    forall i | 0 <= i < |actions|
      ensures Settles(At(env, actions, i).db.ods, At(env, actions, i + 1).db.ods) <==> !Reopens(At(env, actions, i), actions[i])
    {
      AtNext(env, actions, i);
      StepSafe(env, At(env, actions, i), actions[i]);
    }
    if Absorbing(env, actions) {
      forall i | 0 <= i < |actions|
        ensures !Reopens(At(env, actions, i), actions[i])
      {
        assert Settles(At(env, actions, i).db.ods, At(env, actions, i + 1).db.ods);
      }
    }
    if forall i :: 0 <= i < |actions| ==> !Reopens(At(env, actions, i), actions[i]) {
      forall i, j | 0 <= i <= j <= |actions|
        ensures Settles(At(env, actions, i).db.ods, At(env, actions, j).db.ods)
      {
        SettledSpan(env, actions, i, j);
      }
    }
  }

  lemma {:induction false} SettledSpan(env: Env, actions: seq<Action>, i: nat, j: nat)
    requires i <= j <= |actions|
    requires forall k :: i <= k < j ==> Settles(At(env, actions, k).db.ods, At(env, actions, k + 1).db.ods)
    ensures Settles(At(env, actions, i).db.ods, At(env, actions, j).db.ods)
    decreases j - i
  {
    hide At, Settles;
    if i == j {
      SettlesOn(At(env, actions, i).db.ods, At(env, actions, i).db.ods, At(env, actions, i).db.ods);
    } else {
      SettledSpan(env, actions, i, j - 1);
      SettlesOn(At(env, actions, i).db.ods, At(env, actions, j - 1).db.ods, At(env, actions, j).db.ods);
    }
  }

  /** With one ODS row per event, a projected row's fact is its own. */
  lemma OwnFact(env: Env, db: Db, i: int)
    requires Inv(env, db) && i in db.ods && db.ods[i].status.Projected? && !db.ods[i].canary
    requires forall j :: j in db.ods && db.ods[j].org == db.ods[i].org && db.ods[j].id == db.ods[i].id ==> j == i
    ensures RowKey(env, db.ods[i]) in db.dwd && db.dwd[RowKey(env, db.ods[i])].odsId == i
  {
  }
}
