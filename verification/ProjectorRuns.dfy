/**
 Runs of the projector's step machine that reach the awkward states, and what twin events of
 two orgs come to in every run.
 */
module ProjectorRuns {
  import opened Database
  import opened Facts
  import opened Options
  import opened Projector
  import opened ProjectorSafety
  import opened ProjectorProgress

  ghost predicate Reachable(env: Env, s: State) {
    exists actions: seq<Action> :: Execute(env, INIT, actions) == s
  }

  lemma Start(env: Env)
    ensures Reachable(env, INIT)
  {
    assert Execute(env, INIT, []) == INIT;
  }

  lemma Take(env: Env, s: State, a: Action) returns (next: State)
    requires Reachable(env, s)
    ensures next == Step(env, s, a) && Reachable(env, next)
  {
    var actions :| Execute(env, INIT, actions) == s;
    assert (actions + [a])[..|actions + [a]| - 1] == actions;
    next := Step(env, s, a);
    assert Execute(env, INIT, actions + [a]) == next;
  }

  // ---- one row ----

  /** A scan of a table with one due row fetches it. */
  lemma FetchesOnly(ods: Ods, i: int, now: int)
    requires i in ods && Eligible(ods, now) == {i}
    ensures FetchPending(ods, now, 1) == [Fetched(i, ods[i])]
  {
    assert Lowest({i}, 1) == [Min({i})] + Lowest({i} - {Min({i})}, 0) == [i];
    var queue := FetchPending(ods, now, 1);
    assert |queue| == 1 && queue[0] == Fetched(i, ods[i]);
  }

  lemma FetchesSolo(ods: Ods, row: Row, now: int)
    requires ods == map[1 := row] && Due(row, now)
    ensures FetchPending(ods, now, 1) == [Fetched(1, row)]
  {
    assert Eligible(ods, now) == {1};
    FetchesOnly(ods, 1, now);
  }

  lemma PassOne(env: Env, db: Db, f: Fetched, luck: nat -> Luck, tx: bool)
    ensures var d := ProjectOne(env, db, f, luck(0), tx); Project(env, db, [f], luck, tx, 1) == Run(d.db, [d.result])
  {
    assert Project(env, db, [f], luck, tx, 0) == Run(db, []);
  }

  /** From a new row of an empty database, a state in which it is fetched. */
  lemma ReadyRow(env: Env, row: Row) returns (s: State)
    requires row.status.Pending? && row.retries == 0
    ensures Reachable(env, s) && s == State(Db(map[1 := row], map[], 0), Ready([Fetched(1, row)], 1))
  {
    Start(env);
    s := Take(env, INIT, Arrive(1, row));
    assert s == State(Db(map[1 := row], map[], 0), Idle);
    FetchesSolo(s.db.ods, row, 0);
    s := Take(env, s, Fetch(0, 1));
  }

  /** A row the enricher knows and the fact table admits. */
  predicate Admitted(env: Env, row: Row, e: Enriched) {
    row.status.Pending? && row.retries == 0 && !row.canary && env.admits(FactFor(Fetched(1, row), e))
  }

  lemma StoresFirst(env: Env, row: Row, e: Enriched, now: int)
    requires Admitted(env, row, e)
    ensures Write(env, map[], Fetched(1, row), Luck(Some(e), NoFault, false, now))
         == Phase(map[RowKey(env, row) := FactFor(Fetched(1, row), e)], ToProjected, Some(FactFor(Fetched(1, row), e)), false)
  {
  }

  // ---- an unheard commit ----

  /**
   A reachable step that reopens a projected row: its transaction was durable but reported an
   error, and the replay's enrichment fails.
   */
  lemma UnheardCommitReopens(env: Env, row: Row, e: Enriched)
    requires Admitted(env, row, e)
    ensures exists s, a :: Reachable(env, s) && 1 in s.db.ods && s.db.ods[1].status.Projected?
              && 1 in Step(env, s, a).db.ods && Step(env, s, a).db.ods[1].status.Retry?
  {
    hide Write, Reachable;
    var good, bad := Luck(Some(e), NoFault, false, 0), Luck(None, NoFault, false, 0);
    var f := Fetched(1, row);
    var s := ReadyRow(env, row);
    StoresFirst(env, row, e, 0);
    PassOne(env, s.db, f, _ => good, true);
    s := Take(env, s, Transact(_ => good, Unheard));
    var done := row.(status := Projected);
    assert s.db.ods == map[1 := done] && s.pc == Working([f], 1, true);
    FailsUnenriched(env, s.db.dwd, f, 0);
    s := Take(env, s, WriteFact(bad));
    assert s.db.ods == map[1 := done] && s.pc == Marking([f], 1, true, ToRetry);
    var a := WriteMark(false, 0);
    assert Step(env, s, a).db.ods[1].status.Retry?;
  }

  lemma FailsUnenriched(env: Env, dwd: Dwd, f: Fetched, now: int)
    requires !f.rec.canary
    ensures Write(env, dwd, f, Luck(None, NoFault, false, now)) == Phase(dwd, HandleError(f.rec), None, false)
  {
  }

  // ---- two workers ----

  datatype Duo = Duo(db: Db, a: Pc, b: Pc)

  datatype Who = A | B

  /** A step of one of two workers on the same tables. */
  ghost function DuoStep(env: Env, d: Duo, who: Who, action: Action): Duo {
    var s := Step(env, State(d.db, if who.A? then d.a else d.b), action);
    if who.A? then Duo(s.db, s.pc, d.b) else Duo(s.db, d.a, s.pc)
  }

  ghost function DuoExecute(env: Env, d: Duo, steps: seq<(Who, Action)>): Duo {
    if steps == [] then d
    else DuoStep(env, DuoExecute(env, d, steps[..|steps| - 1]), steps[|steps| - 1].0, steps[|steps| - 1].1)
  }

  lemma DuoTake(env: Env, steps: seq<(Who, Action)>, who: Who, action: Action)
    ensures DuoExecute(env, Duo(INIT.db, Idle, Idle), steps + [(who, action)])
         == DuoStep(env, DuoExecute(env, Duo(INIT.db, Idle, Idle), steps), who, action)
  {
    assert (steps + [(who, action)])[..|steps|] == steps;
  }

  /** With two workers a run in which every reply is heard reopens a projected row: the constraint to one is needed. */
  lemma TwoWorkersReopen(env: Env, row: Row, e: Enriched) returns (steps: seq<(Who, Action)>)
    requires Admitted(env, row, e)
    ensures steps != []
    ensures var before := DuoExecute(env, Duo(INIT.db, Idle, Idle), steps[..|steps| - 1]);
            var after := DuoExecute(env, Duo(INIT.db, Idle, Idle), steps);
            && (forall i :: 0 <= i < |steps| && steps[i].1.Transact? ==> !steps[i].1.reply.Unheard?)
            && 1 in before.db.ods && before.db.ods[1].status.Projected? && 1 in after.db.ods && after.db.ods[1].status.Retry?
  {
    hide Write, DuoExecute;
    var init := Duo(INIT.db, Idle, Idle);
    var good, bad := Luck(Some(e), NoFault, false, 0), Luck(None, NoFault, false, 0);
    var f, done := Fetched(1, row), row.(status := Projected);
    var ready := Ready([f], 1);
    steps := [];
    assert DuoExecute(env, init, []) == init by {
      DuoStart(env, init);
    }
    DuoTake(env, steps, A, Arrive(1, row));
    steps := steps + [(A, Arrive(1, row))];
    assert DuoExecute(env, init, steps) == Duo(Db(map[1 := row], map[], 0), Idle, Idle);
    FetchesSolo(map[1 := row], row, 0);
    DuoTake(env, steps, A, Fetch(0, 1));
    steps := steps + [(A, Fetch(0, 1))];
    DuoTake(env, steps, B, Fetch(0, 1));
    steps := steps + [(B, Fetch(0, 1))];
    assert DuoExecute(env, init, steps) == Duo(Db(map[1 := row], map[], 0), ready, ready);
    StoresFirst(env, row, e, 0);
    PassOne(env, Db(map[1 := row], map[], 0), f, _ => good, true);
    DuoTake(env, steps, A, Transact(_ => good, Heard));
    steps := steps + [(A, Transact(_ => good, Heard))];
    assert DuoExecute(env, init, steps).db.ods == map[1 := done] && DuoExecute(env, init, steps).b == ready;
    DuoTake(env, steps, B, Transact(_ => good, Refused));
    steps := steps + [(B, Transact(_ => good, Refused))];
    assert DuoExecute(env, init, steps).db.ods == map[1 := done] && DuoExecute(env, init, steps).b == Working([f], 1, false);
    FailsUnenriched(env, DuoExecute(env, init, steps).db.dwd, f, 0);
    DuoTake(env, steps, B, WriteFact(bad));
    steps := steps + [(B, WriteFact(bad))];
    assert DuoExecute(env, init, steps).db.ods == map[1 := done] && DuoExecute(env, init, steps).b == Marking([f], 1, false, ToRetry);
    DuoTake(env, steps, B, WriteMark(false, 0));
    ghost var before := steps;
    steps := steps + [(B, WriteMark(false, 0))];
    assert steps[..|steps| - 1] == before;
  }

  lemma DuoStart(env: Env, d: Duo)
    ensures DuoExecute(env, d, []) == d
  {
  }

  // ---- a dead letter with a fact ----

  /** One failing projection of the only row, from fetch to mark. */
  lemma FailOnce(env: Env, s: State, row: Row) returns (next: State)
    requires Reachable(env, s) && s.pc.Idle? && s.db.ods == map[1 := row] && Open(row) && !row.canary
    ensures Reachable(env, next) && next.pc.Idle? && next.db.dwd == s.db.dwd
    ensures next.db.ods == map[1 := MarkedRow(row, row, HandleError(row), 0)]
  {
    hide Write, Reachable, HandleError, MarkedRow;
    var f, now := Fetched(1, row), if row.status.Retry? then row.status.due else 0;
    FetchesSolo(s.db.ods, row, now);
    next := Take(env, s, Fetch(now, 1));
    next := Take(env, next, Transact(_ => Luck(None, NoFault, false, 0), Refused));
    assert next == State(s.db, Working([f], 1, false));
    FailsUnenriched(env, s.db.dwd, f, 0);
    next := Take(env, next, WriteFact(Luck(None, NoFault, false, 0)));
    assert next == State(s.db, Marking([f], 1, false, HandleError(row)));
    next := Take(env, next, WriteMark(false, 0));
    MarksSolo(s.db.ods, row, HandleError(row));
    next := Take(env, next, Crash);
  }

  lemma MarksSolo(ods: Ods, row: Row, outcome: Outcome)
    requires ods == map[1 := row]
    ensures Marked(ods, Fetched(1, row), outcome, 0) == map[1 := MarkedRow(row, row, outcome, 0)]
  {
  }

  /** A row whose fact is stored but whose mark failed goes on failing: after n failures it is as they left it, fact and all. */
  lemma {:induction false} FailOn(env: Env, row: Row, e: Enriched, n: nat) returns (s: State, left: Row)
    requires Admitted(env, row, e) && n <= DEAD_LETTER_THRESHOLD
    ensures Reachable(env, s) && s.pc.Idle? && s.db.ods == map[1 := left] && RowKey(env, row) in s.db.dwd
    ensures SameColumns(left, row) && (if n < DEAD_LETTER_THRESHOLD then Open(left) && left.retries == n else left.status.DeadLetter?)
  {
    hide Reachable;
    if n == 0 {
      s := ReadyRow(env, row);
      s := Take(env, s, Transact(_ => Luck(None, NoFault, false, 0), Refused));
      StoresFirst(env, row, e, 0);
      hide Write;
      s := Take(env, s, WriteFact(Luck(Some(e), NoFault, false, 0)));
      s := Take(env, s, Crash);
      left := row;
    } else {
      hide Step;
      s, left := FailOn(env, row, e, n - 1);
      s := FailOnce(env, s, left);
      left := MarkedRow(left, left, HandleError(left), 0);
    }
  }

  /** dead_letter does not mean unbilled: a reachable dead-lettered row has its fact. */
  lemma DeadLetterWithFact(env: Env, row: Row, e: Enriched)
    requires Admitted(env, row, e)
    ensures exists s :: Reachable(env, s) && 1 in s.db.ods && s.db.ods[1].status.DeadLetter? && RowKey(env, s.db.ods[1]) in s.db.dwd
  {
    hide Reachable;
    var s, left := FailOn(env, row, e, DEAD_LETTER_THRESHOLD);
    assert s.db.ods[1] == left && RowKey(env, left) == RowKey(env, row);
  }

  // ---- twins of two orgs ----

  /** No two facts share an event id and a day: PostgreSQL's key without the org. */
  ghost predicate TwinFree(env: Env, dwd: Dwd) {
    env.dialect.Postgres? ==>
      forall k, l :: k in dwd && l in dwd && dwd[k].id == dwd[l].id && UtcDay(dwd[k].time) == UtcDay(dwd[l].time) ==> k == l
  }

  lemma WriteTwinFree(env: Env, dwd: Dwd, f: Fetched, luck: Luck)
    requires TwinFree(env, dwd)
    ensures TwinFree(env, Write(env, dwd, f, luck).dwd)
  {
    hide UtcDay;
  }

  lemma {:induction false} PassTwinFree(env: Env, db: Db, queue: seq<Fetched>, luck: nat -> Luck, tx: bool, n: nat)
    requires TwinFree(env, db.dwd) && n <= |queue|
    ensures TwinFree(env, Project(env, db, queue, luck, tx, n).db.dwd)
  {
    hide TwinFree, Write, ProjectOne;
    if n > 0 {
      PassTwinFree(env, db, queue, luck, tx, n - 1);
      var before := Project(env, db, queue, luck, tx, n - 1);
      WriteTwinFree(env, before.db.dwd, queue[n - 1], luck(n - 1));
      WritesDwd(env, before.db, queue[n - 1], luck(n - 1), tx);
    }
  }

  lemma StepTwinFree(env: Env, s: State, a: Action)
    requires TwinFree(env, s.db.dwd)
    ensures TwinFree(env, Step(env, s, a).db.dwd)
  {
    hide TwinFree, Write, Project, FetchPending;
    if a.Transact? && s.pc.Ready? {
      PassTwinFree(env, s.db, s.pc.queue, a.batchLuck, true, |s.pc.queue|);
    }
    if a.WriteFact? && s.pc.Working? && s.pc.queue != [] {
      WriteTwinFree(env, s.db.dwd, s.pc.queue[0], a.luck);
    }
  }

  lemma {:induction false} RunTwinFree(env: Env, actions: seq<Action>)
    ensures TwinFree(env, Execute(env, INIT, actions).db.dwd)
  {
    if actions != [] {
      RunTwinFree(env, actions[..|actions| - 1]);
      StepTwinFree(env, Execute(env, INIT, actions[..|actions| - 1]), actions[|actions| - 1]);
      hide Step, TwinFree;
    }
  }

  predicate Twins(a: Row, b: Row) {
    a.id == b.id && a.org != b.org && UtcDay(a.time) == UtcDay(b.time) && !a.canary && !b.canary
  }

  /** On PostgreSQL two orgs' events of one id and day are never both projected, in any reachable state. */
  lemma TwinsNeverBoth(env: Env, actions: seq<Action>, i: int, j: int)
    requires env.dialect.Postgres?
    ensures var ods := Execute(env, INIT, actions).db.ods;
            i in ods && j in ods && Twins(ods[i], ods[j]) ==> !(ods[i].status.Projected? && ods[j].status.Projected?)
  {
    hide Execute, UtcDay;
    RunTwinFree(env, actions);
    CrashSafe(env, actions, []);
  }

  /**
   A reachable twin that fails without any fault: two orgs send the same event id on one day, the
   first is projected and the second, enriched and admissible, is sent to retry.
   */
  lemma TwinFails(env: Env, row: Row, e: Enriched, twin: Row, e2: Enriched)
    requires env.dialect.Postgres? && Admitted(env, row, e) && Twins(row, twin)
    requires twin.status.Pending? && twin.retries == 0 && env.admits(FactFor(Fetched(2, twin), e2))
    ensures exists s :: Reachable(env, s) && Known(s.db.ods, Fetched(2, twin)) && s.pc == Working([Fetched(2, twin)], 2, false)
              && 1 in s.db.ods && s.db.ods[1].status.Projected?
              && Write(env, s.db.dwd, Fetched(2, twin), Luck(Some(e2), NoFault, false, 0)).outcome.ToRetry?
  {
    hide Reachable;
    var good := Luck(Some(e), NoFault, false, 0);
    var done := row.(status := Projected);
    var s := ReadyRow(env, row);
    StoresFirst(env, row, e, 0);
    PassOne(env, s.db, Fetched(1, row), _ => good, true);
    s := Take(env, s, Transact(_ => good, Heard)) by {
      hide Write;
    }
    assert s == State(Db(map[1 := done], map[RowKey(env, row) := FactFor(Fetched(1, row), e)], 1), Idle);
    s := TwinWaits(env, s, done, twin);
    TwinClashes(env, s.db.dwd, row, e, twin, e2);
  }

  lemma TwinWaits(env: Env, s: State, done: Row, twin: Row) returns (next: State)
    requires Reachable(env, s) && s.pc.Idle? && s.db.ods == map[1 := done] && done.status.Projected?
    requires twin.org != done.org && twin.status.Pending? && twin.retries == 0
    ensures Reachable(env, next) && next == State(s.db.(ods := map[1 := done, 2 := twin]), Working([Fetched(2, twin)], 2, false))
  {
    hide Reachable, Project;
    next := Take(env, s, Arrive(2, twin));
    assert next.db.ods == map[1 := done, 2 := twin];
    assert Eligible(next.db.ods, 0) == {2};
    FetchesOnly(next.db.ods, 2, 0);
    next := Take(env, next, Fetch(0, 1));
    next := Take(env, next, Transact(_ => Luck(None, NoFault, false, 0), Refused));
  }

  lemma TwinClashes(env: Env, dwd: Dwd, row: Row, e: Enriched, twin: Row, e2: Enriched)
    requires env.dialect.Postgres? && Twins(row, twin) && twin.retries == 0
    requires dwd == map[RowKey(env, row) := FactFor(Fetched(1, row), e)]
    ensures Write(env, dwd, Fetched(2, twin), Luck(Some(e2), NoFault, false, 0)).outcome.ToRetry?
  {
    assert RowKey(env, row) in dwd;
    assert Clashes(env, dwd, FactFor(Fetched(2, twin), e2));
  }

  // ---- the machine against a scan ----

  /** Ingest may add a pending or quarantined row under a free id and a free event key, and nothing else. */
  lemma ArriveExact(env: Env, s: State, odsId: int, row: Row)
    ensures var free := odsId !in s.db.ods && forall i :: i in s.db.ods ==>
              s.db.ods[i].org != row.org || s.db.ods[i].id != row.id || (env.dialect.Postgres? && s.db.ods[i].time != row.time);
            Step(env, s, Arrive(odsId, row)) ==
              if free && row.retries == 0 && (row.status.Pending? || row.status.Quarantined?)
              then s.(db := s.db.(ods := s.db.ods[odsId := row])) else s
  {
  }

  /** A scan's replay ends only when every row of it has been written and marked. */
  lemma FinishWaits(env: Env, s: State, save: bool)
    ensures s.pc.Working? && s.pc.queue != [] ==> Step(env, s, Finish(save)) == s
  {
  }

  /** The two writes of the replay for the first n rows of a queue. */
  function ReplayActions(luck: nat -> Luck, n: nat): seq<Action> {
    if n == 0 then [] else ReplayActions(luck, n - 1) + [WriteFact(luck(n - 1)), WriteMark(luck(n - 1).markFails, luck(n - 1).now)]
  }

  lemma ExecuteTwo(env: Env, s: State, actions: seq<Action>, a: Action, b: Action)
    ensures Execute(env, s, actions + [a, b]) == Step(env, Step(env, Execute(env, s, actions), a), b)
  {
    assert (actions + [a, b])[..|actions| + 1] == actions + [a] && (actions + [a])[..|actions|] == actions;
  }

  lemma ExecuteOne(env: Env, s: State, actions: seq<Action>, a: Action)
    ensures Execute(env, s, actions + [a]) == Step(env, Execute(env, s, actions), a) && Execute(env, s, []) == s
  {
    assert (actions + [a])[..|actions|] == actions;
  }

  lemma {:induction false} ReplayRun(env: Env, db: Db, queue: seq<Fetched>, last: int, unheard: bool, luck: nat -> Luck, n: nat)
    requires n <= |queue|
    ensures Execute(env, State(db, Working(queue, last, unheard)), ReplayActions(luck, n))
         == State(Project(env, db, queue, luck, false, n).db, Working(queue[n..], last, unheard))
  {
    hide Step, Execute, ProjectOne;
    var start := State(db, Working(queue, last, unheard));
    ExecuteOne(env, start, [], Crash);
    if n > 0 {
      ReplayRun(env, db, queue, last, unheard, luck, n - 1);
      ExecuteTwo(env, start, ReplayActions(luck, n - 1), WriteFact(luck(n - 1)), WriteMark(luck(n - 1).markFails, luck(n - 1).now));
      assert queue[n - 1..][0] == queue[n - 1] && queue[n - 1..][1..] == queue[n..];
      ReplayIsTwoSteps(env, Project(env, db, queue, luck, false, n - 1).db, queue[n - 1..], last, unheard, luck(n - 1));
    } else {
      assert queue[0..] == queue;
    }
  }

  /** The reply of a scan's transaction; one that does not get as far as its commit counts as refused. */
  function ReplyOf(env: Env, db: Db, queue: seq<Fetched>, s: Script): Commit {
    if Prepared(env, db, queue, s) then s.commit else Refused
  }

  lemma TransactStep(env: Env, db: Db, queue: seq<Fetched>, s: Script)
    ensures Step(env, State(db, Ready(queue, LastOds(queue))), Transact(s.inside, ReplyOf(env, db, queue, s)))
         == if Committed(env, db, queue, s)
            then State(Checkpointed(Project(env, db, queue, s.inside, true, |queue|).db, queue), Idle)
            else State(Left(env, db, queue, s), Working(queue, LastOds(queue), ReplyOf(env, db, queue, s).Unheard?))
  {
    hide Project, LastOds;
  }

  /**
   The machine takes a scan apart without changing it: with nothing in between, the fetch, the transaction and, if that did
   not commit, the writes of the replay and the checkpoint leave the tables the scan leaves.
   */
  lemma UninterruptedScan(env: Env, db: Db, limit: nat, s: Script) returns (actions: seq<Action>)
    requires !s.fetch
    ensures Execute(env, State(db, Idle), actions) == State(Scan(env, db, true, limit, s).db, Idle)
  {
    hide Step, Execute, Project, Prepared, LastOds, FetchPending;
    var start, queue := State(db, Idle), FetchPending(db.ods, s.now, limit);
    var reply := ReplyOf(env, db, queue, s);
    actions := [Fetch(s.now, limit), Transact(s.inside, reply)];
    ExecuteOne(env, start, [], Fetch(s.now, limit));
    assert [] + [Fetch(s.now, limit)] == [Fetch(s.now, limit)] && [Fetch(s.now, limit)] + [Transact(s.inside, reply)] == actions;
    ExecuteOne(env, start, [Fetch(s.now, limit)], Transact(s.inside, reply));
    FetchStep(env, db, s.now, limit);
    TransactStep(env, db, queue, s);
    if !Committed(env, db, queue, s) {
      var mid := State(Left(env, db, queue, s), Working(queue, LastOds(queue), reply.Unheard?));
      ReplayRun(env, mid.db, queue, LastOds(queue), reply.Unheard?, s.replay, |queue|);
      ExecuteAfter(env, start, actions, ReplayActions(s.replay, |queue|));
      actions := actions + ReplayActions(s.replay, |queue|);
      ExecuteOne(env, start, actions, Finish(!s.replaySave));
      assert queue[|queue|..] == [];
      FinishStep(env, Project(env, mid.db, queue, s.replay, false, |queue|).db, queue, reply.Unheard?, !s.replaySave);
      actions := actions + [Finish(!s.replaySave)];
    }
  }

  lemma FetchStep(env: Env, db: Db, now: int, limit: nat)
    ensures var queue := FetchPending(db.ods, now, limit);
            Step(env, State(db, Idle), Fetch(now, limit)) == State(db, Ready(queue, LastOds(queue)))
  {
  }

  lemma FinishStep(env: Env, db: Db, queue: seq<Fetched>, unheard: bool, save: bool)
    ensures Step(env, State(db, Working([], LastOds(queue), unheard)), Finish(save))
         == State(if save then Checkpointed(db, queue) else db, Idle)
  {
    hide LastOds;
  }

  lemma {:induction false} ExecuteAfter(env: Env, s: State, a: seq<Action>, b: seq<Action>)
    ensures Execute(env, s, a + b) == Execute(env, Execute(env, s, a), b)
    decreases |b|
  {
    hide Step;
    if b == [] {
      assert a + b == a;
    } else {
      var n := |b| - 1;
      ExecuteAfter(env, s, a, b[..n]);
      assert (a + b)[..|a| + n] == a + b[..n];
    }
  }
}
