/** What a scan achieves: which inserts succeed, how long a row can be retried, what a drain leaves. */
module ProjectorProgress {
  import opened Database
  import opened Facts
  import opened Options
  import opened Projector
  import opened ProjectorSafety

  // ---- which rows project ----

  /** On PostgreSQL another org's event of the same id and day already has its fact. */
  ghost predicate ForeignTwin(env: Env, dwd: Dwd, rec: Row) {
    env.dialect.Postgres? && exists k :: k in dwd && dwd[k].id == rec.id && UtcDay(dwd[k].time) == UtcDay(rec.time) && dwd[k].org != rec.org
  }

  lemma ClashExact(env: Env, db: Db, f: Fetched, e: Enriched)
    requires Inv(env, db) && Known(db.ods, f) && RowKey(env, f.rec) !in db.dwd
    ensures Clashes(env, db.dwd, FactFor(f, e)) <==> ForeignTwin(env, db.dwd, f.rec)
  {
  }

  lemma StoredSameDay(env: Env, db: Db, f: Fetched)
    requires Inv(env, db) && Known(db.ods, f) && RowKey(env, f.rec) in db.dwd
    ensures UtcDay(db.dwd[RowKey(env, f.rec)].time) == UtcDay(f.rec.time)
  {
  }

  /**
   Without faults an enriched, admissible row is projected unless, on PostgreSQL, another org's
   event of the same id and day came first and its own fact is not stored yet.
   */
  lemma ProjectsIff(env: Env, db: Db, f: Fetched, e: Enriched)
    requires Inv(env, db) && Known(db.ods, f) && !f.rec.canary && env.admits(FactFor(f, e))
    ensures forall now :: Write(env, db.dwd, f, Luck(Some(e), NoFault, false, now)).outcome.ToProjected?
                     <==> (RowKey(env, f.rec) in db.dwd || !ForeignTwin(env, db.dwd, f.rec))
  {
    var key := RowKey(env, f.rec);
    if key in db.dwd {
      StoredSameDay(env, db, f);
    } else {
      ClashExact(env, db, f, e);
    }
    assert HandleError(f.rec) != ToProjected;
    hide Inv, Known, Clashes, ForeignTwin;
  }

  // ---- what a pass adds ----

  /** The facts are new, each of its own key, and stored as they are. */
  ghost predicate Adds(env: Env, a: Dwd, facts: seq<Fact>, b: Dwd) {
    && (forall k :: k in a ==> k in b && b[k] == a[k])
    && (forall i :: 0 <= i < |facts| ==> KeyOf(env, facts[i]) !in a && KeyOf(env, facts[i]) in b && b[KeyOf(env, facts[i])] == facts[i])
    && (forall i, j :: 0 <= i < j < |facts| ==> KeyOf(env, facts[i]) != KeyOf(env, facts[j]))
  }

  /** ... and they are all that is new. */
  ghost predicate AllReported(env: Env, a: Dwd, facts: seq<Fact>, b: Dwd) {
    forall k :: k in b && k !in a ==> Mentions(env, facts, k)
  }

  ghost predicate Mentions(env: Env, facts: seq<Fact>, k: FactKey) {
    exists i :: 0 <= i < |facts| && KeyOf(env, facts[i]) == k
  }

  /** The insert stores the fact but its reply is lost. */
  predicate Unreported(env: Env, dwd: Dwd, f: Fetched, luck: Luck) {
    && !f.rec.canary && luck.enriched.Some? && luck.fault.LostReply?
    && var fact := FactFor(f, luck.enriched.value);
       env.admits(fact) && KeyOf(env, fact) !in dwd && !Clashes(env, dwd, fact)
  }

  lemma UnreportedExact(env: Env, dwd: Dwd, f: Fetched, luck: Luck)
    ensures var p := Write(env, dwd, f, luck);
            Unreported(env, dwd, f, luck) <==> p.fact.None? && p.dwd != dwd
  {
    hide Clashes;
  }

  lemma AddsOne(env: Env, a: Dwd, facts: seq<Fact>, b: Dwd, fact: Option<Fact>, fault: Fault, c: Dwd)
    requires Adds(env, a, facts, b) && Inserts(env, b, fact, fault, c)
    ensures var all := facts + if fact.Some? then [fact.value] else [];
            && Adds(env, a, all, c)
            && (AllReported(env, a, all, c) <==> AllReported(env, a, facts, b) && (fact.None? ==> c == b))
  {
    hide KeyOf;
    var all := facts + if fact.Some? then [fact.value] else [];
    assert forall i :: 0 <= i < |facts| ==> all[i] == facts[i];
    forall k
      ensures Mentions(env, all, k) <==> Mentions(env, facts, k) || (fact.Some? && KeyOf(env, fact.value) == k)
    {
      MentionsMore(env, facts, fact, k);
    }
    hide Mentions;
    if c != b {
      var f :| OneMoreFact(env, b, f, c) && (fact.Some? ==> f == fact.value);
      var key := KeyOf(env, f);
      assert key in c && key !in a && !Mentions(env, facts, key) by {
        NotMentioned(env, a, facts, b, key);
      }
    }
  }

  lemma MentionsMore(env: Env, facts: seq<Fact>, fact: Option<Fact>, k: FactKey)
    ensures var all := facts + if fact.Some? then [fact.value] else [];
            Mentions(env, all, k) <==> Mentions(env, facts, k) || (fact.Some? && KeyOf(env, fact.value) == k)
  {
    var all := facts + if fact.Some? then [fact.value] else [];
    assert forall i :: 0 <= i < |facts| ==> all[i] == facts[i];
    assert fact.Some? ==> all[|facts|] == fact.value;
    hide KeyOf;
  }

  lemma NotMentioned(env: Env, a: Dwd, facts: seq<Fact>, b: Dwd, key: FactKey)
    requires Adds(env, a, facts, b) && key !in b
    ensures !Mentions(env, facts, key)
  {
  }

  lemma AddsNone(env: Env, db: Db, queue: seq<Fetched>, luck: nat -> Luck, tx: bool)
    ensures Adds(env, db.dwd, [], db.dwd) && AllReported(env, db.dwd, [], db.dwd)
    ensures AllHeardInserts(env, db, queue, luck, tx, 0)
  {
  }

  /** No insert among the first n rows of a pass takes effect with its reply lost. */
  ghost predicate AllHeardInserts(env: Env, db: Db, queue: seq<Fetched>, luck: nat -> Luck, tx: bool, n: nat)
    requires n <= |queue|
  {
    forall k :: 0 <= k < n ==> !Unreported(env, Project(env, db, queue, luck, tx, k).db.dwd, queue[k], luck(k))
  }

  lemma {:induction false} ProjectAdds(env: Env, db: Db, queue: seq<Fetched>, luck: nat -> Luck, tx: bool, n: nat)
    requires Inv(env, db) && KnownQueue(db.ods, queue) && n <= |queue|
    ensures var r := Project(env, db, queue, luck, tx, n);
            && Adds(env, db.dwd, NewFacts(r.results), r.db.dwd)
            && (AllReported(env, db.dwd, NewFacts(r.results), r.db.dwd) <==> AllHeardInserts(env, db, queue, luck, tx, n))
  {
    hide *;
    if n > 0 {
      ProjectAdds(env, db, queue, luck, tx, n - 1);
      ProjectKeeps(env, db, queue, luck, tx, n - 1);
      var before, f := Project(env, db, queue, luck, tx, n - 1), queue[n - 1];
      StillKnown(env, db, queue, luck, n - 1, before);
      ProjectOneKeeps(env, before.db, f, luck(n - 1), tx);
      var d := ProjectOne(env, before.db, f, luck(n - 1), tx);
      ProjectNext(env, db, queue, luck, tx, n - 1);
      NewFactsNext(queue, before.results, d.result, n - 1);
      AddsOne(env, db.dwd, NewFacts(before.results), before.db.dwd, d.result.fact, luck(n - 1).fault, d.db.dwd);
      UnreportedExact(env, before.db.dwd, f, luck(n - 1));
      WritesDwd(env, before.db, f, luck(n - 1), tx);
      AllHeardNext(env, db, queue, luck, tx, n - 1);
    } else {
      ProjectNone(env, db, queue, luck, tx);
      AddsNone(env, db, queue, luck, tx);
    }
  }

  lemma WritesDwd(env: Env, db: Db, f: Fetched, luck: Luck, tx: bool)
    ensures var d, p := ProjectOne(env, db, f, luck, tx), Write(env, db.dwd, f, luck);
            d.db.dwd == p.dwd && d.result.fact == p.fact && d.result.outcome == p.outcome
  {
  }

  lemma AllHeardNext(env: Env, db: Db, queue: seq<Fetched>, luck: nat -> Luck, tx: bool, n: nat)
    requires n < |queue|
    ensures AllHeardInserts(env, db, queue, luck, tx, n + 1)
       <==> AllHeardInserts(env, db, queue, luck, tx, n) && !Unreported(env, Project(env, db, queue, luck, tx, n).db.dwd, queue[n], luck(n))
  {
    hide Unreported, Project;
  }

  /** The tables a scan's last pass starts from: consistent, grown, and known to the queue. */
  lemma BaseKeeps(env: Env, db: Db, batched: bool, limit: nat, s: Script)
    requires Inv(env, db)
    ensures var queue := ScanQueue(db, limit, s);
            var base := Base(env, db, batched, queue, s);
            && Inv(env, base) && KnownQueue(base.ods, queue) && Grows(db.dwd, base.dwd) && base.ods.Keys == db.ods.Keys
            && (forall i :: i in db.ods && i !in Ids(queue) ==> i in base.ods && base.ods[i] == db.ods[i])
  {
    hide *;
    var queue := ScanQueue(db, limit, s);
    QueueFresh(db, limit, s);
    FreshKnown(env, db, queue);
    BaseDef(env, db, batched, queue, s);
    if Base(env, db, batched, queue, s) != db {
      var r := Project(env, db, queue, s.inside, true, |queue|);
      ProjectKeeps(env, db, queue, s.inside, true, |queue|);
      PassedKnown(env, db, queue, s.inside, r);
      PassedKeys(env, db, queue, s.inside, r);
      PassedOthers(env, db, queue, s.inside, r);
      CheckpointKeeps(env, r.db, queue);
    } else {
      GrowsSelf(db.dwd);
    }
  }

  lemma BaseDef(env: Env, db: Db, batched: bool, queue: seq<Fetched>, s: Script)
    ensures var base := Base(env, db, batched, queue, s);
            base == db || base == Checkpointed(Project(env, db, queue, s.inside, true, |queue|).db, queue)
  {
    hide Project, Prepared, Checkpointed;
  }

  lemma GrowsSelf(dwd: Dwd)
    ensures Grows(dwd, dwd)
  {
  }

  function Ids(queue: seq<Fetched>): set<int> {
    set k | 0 <= k < |queue| :: queue[k].odsId
  }

  lemma PassedOthers(env: Env, db: Db, queue: seq<Fetched>, luck: nat -> Luck, r: Run)
    requires |r.results| == |queue| && Passed(env, db, queue, luck, |queue|, r)
    ensures forall i :: i in db.ods && i !in Ids(queue) ==> i in r.db.ods && r.db.ods[i] == db.ods[i]
  {
    forall i | i in db.ods && i !in Ids(queue)
      ensures i in r.db.ods && r.db.ods[i] == db.ods[i]
    {
      assert i in r.db.ods.Keys;
      assert forall k :: 0 <= k < |queue| ==> queue[k].odsId in Ids(queue);
    }
    hide Inv;
  }

  /** A scan is its last pass over its base, and a checkpoint. */
  lemma ScanIsPass(env: Env, db: Db, batched: bool, limit: nat, s: Script)
    ensures var queue, r := ScanQueue(db, limit, s), Scan(env, db, batched, limit, s);
            var p := Project(env, Base(env, db, batched, queue, s), queue, LastLuck(env, db, batched, queue, s),
                       batched && Committed(env, db, queue, s), |queue|);
            r.results == p.results && (r.db == p.db || r.db == Checkpointed(p.db, queue))
  {
    hide Project, ScanQueue, Prepared, Checkpointed;
  }

  /**
   The facts a scan hands to the quota counters are new DWD rows, each once, also after rollback
   and replay. They are all of them exactly when no reply was lost: neither that of a durable
   commit which stored facts, nor that of an insert.
   */
  lemma ScanReportsNewFacts(env: Env, db: Db, batched: bool, limit: nat, s: Script)
    requires Inv(env, db)
    ensures var r, queue := Scan(env, db, batched, limit, s), ScanQueue(db, limit, s);
            var base, luck := Base(env, db, batched, queue, s), LastLuck(env, db, batched, queue, s);
            && Inv(env, r.db) && Adds(env, db.dwd, NewFacts(r.results), r.db.dwd)
            && (AllReported(env, db.dwd, NewFacts(r.results), r.db.dwd)
                <==> base.dwd == db.dwd && AllHeardInserts(env, base, queue, luck, batched && Committed(env, db, queue, s), |queue|))
  {
    hide *;
    var queue := ScanQueue(db, limit, s);
    var base, luck := Base(env, db, batched, queue, s), LastLuck(env, db, batched, queue, s);
    var tx := batched && Committed(env, db, queue, s);
    var p := Project(env, base, queue, luck, tx, |queue|);
    BaseKeeps(env, db, batched, limit, s);
    ProjectAdds(env, base, queue, luck, tx, |queue|);
    ProjectKeeps(env, base, queue, luck, tx, |queue|);
    PassedKnown(env, base, queue, luck, p);
    CheckpointKeeps(env, p.db, queue);
    ScanIsPass(env, db, batched, limit, s);
    AddsOver(env, db.dwd, base.dwd, NewFacts(p.results), p.db.dwd);
  }

  lemma AddsOver(env: Env, a: Dwd, b: Dwd, facts: seq<Fact>, c: Dwd)
    requires Grows(a, b) && Adds(env, b, facts, c)
    ensures Adds(env, a, facts, c)
    ensures AllReported(env, a, facts, c) <==> b == a && AllReported(env, b, facts, c)
  {
    hide KeyOf;
    if b != a {
      var k :| k in b && k !in a;
      assert k in c && !Mentions(env, facts, k);
    }
  }

  // ---- the checkpoint ----

  lemma {:induction false} PassKeepsCheckpoint(env: Env, db: Db, queue: seq<Fetched>, luck: nat -> Luck, tx: bool, n: nat)
    requires n <= |queue|
    ensures Project(env, db, queue, luck, tx, n).db.checkpoint == db.checkpoint
  {
    if n > 0 {
      PassKeepsCheckpoint(env, db, queue, luck, tx, n - 1);
    }
  }

  /** A scan moves the checkpoint to the highest id it fetched, lower than before or not, unless no save of it took effect. */
  lemma CheckpointExact(env: Env, db: Db, batched: bool, limit: nat, s: Script)
    requires forall i :: i in db.ods ==> i > 0
    ensures var queue, after := ScanQueue(db, limit, s), Scan(env, db, batched, limit, s).db.checkpoint;
            if queue == [] || (s.replaySave && !(batched && Prepared(env, db, queue, s) && !s.commit.Refused?)) then after == db.checkpoint
            else (forall f :: f in queue ==> f.odsId <= after) && exists f :: f in queue && f.odsId == after
  {
    var queue := ScanQueue(db, limit, s);
    var base, tx := Base(env, db, batched, queue, s), batched && Committed(env, db, queue, s);
    PassKeepsCheckpoint(env, db, queue, s.inside, true, |queue|);
    PassKeepsCheckpoint(env, base, queue, LastLuck(env, db, batched, queue, s), tx, |queue|);
    if queue != [] {
      QueueFresh(db, limit, s);
      assert Fresh(db.ods, queue[0]) && queue[0] in queue && queue[0].odsId > 0;
    }
    hide Project, Prepared, ScanQueue;
  }

  lemma QueueFresh(db: Db, limit: nat, s: Script)
    ensures FreshQueue(db.ods, ScanQueue(db, limit, s))
  {
    FetchedFresh(db.ods, s.now, limit);
  }

  // ---- the metrics ----

  /** The rows a pass took to the given kind of status. */
  function Turned(before: Ods, after: Ods, became: Status): set<int> {
    set i | i in before && i in after && after[i].status == became && after[i].status != before[i].status
  }

  /** One more row marked: it joins the turned rows exactly when its mark is of the kind. */
  lemma TurnedOne(before: Ods, mid: Ods, after: Ods, i: int, row: Row, became: Status)
    requires i in before && i in mid && mid[i] == before[i] && Open(before[i]) && after == mid[i := row]
    requires became.Projected? || became.DeadLetter?
    ensures Turned(before, after, became) == Turned(before, mid, became) + if row.status == became then {i} else {}
    ensures i !in Turned(before, mid, became)
  {
  }

  /** The projected counter has grown by exactly the rows that became projected, the dead-letter one by at least its rows. */
  ghost predicate Counted(m: Metrics, m': Metrics, before: Ods, after: Ods) {
    && m'.projected == m.projected + |Turned(before, after, Projected)|
    && m'.deadLetter >= m.deadLetter + |Turned(before, after, DeadLetter)|
    && m'.scans == m.scans
  }

  lemma RowAfterStatus(rec: Row, r: Result, now: int)
    requires Open(rec)
    ensures var status := RowAfter(rec, rec, r, now).status;
            (status.Projected? <==> r.outcome.ToProjected? && !r.failed) && (status.DeadLetter? <==> r.outcome.ToDeadLetter? && !r.failed)
  {
  }

  lemma TurnedCount(before: Ods, mid: Ods, i: int, row: Row, became: Status)
    requires i in before && i in mid && mid[i] == before[i] && Open(before[i]) && (became.Projected? || became.DeadLetter?)
    ensures |Turned(before, mid[i := row], became)| == |Turned(before, mid, became)| + if row.status == became then 1 else 0
  {
    TurnedOne(before, mid, mid[i := row], i, row, became);
    hide Turned;
  }

  lemma CountedNext(m: Metrics, m': Metrics, before: Ods, mid: Ods, f: Fetched, r: Result, now: int)
    requires Counted(m, m', before, mid) && Fresh(before, f) && Fresh(mid, f)
    ensures Counted(m, Bumped(m', r), before, mid[f.odsId := RowAfter(f.rec, f.rec, r, now)])
  {
    hide Turned, RowAfter, Open;
    RowAfterStatus(f.rec, r, now);
    TurnedCount(before, mid, f.odsId, RowAfter(f.rec, f.rec, r, now), Projected);
    TurnedCount(before, mid, f.odsId, RowAfter(f.rec, f.rec, r, now), DeadLetter);
  }

  lemma CountedNone(m: Metrics, ods: Ods)
    ensures Counted(m, m, ods, ods)
  {
  }

  lemma FreshStays(ods: Ods, ods': Ods, f: Fetched)
    requires Fresh(ods, f) && f.odsId in ods' && ods'[f.odsId] == ods[f.odsId]
    ensures Fresh(ods', f) && ods'[f.odsId] == f.rec
  {
  }

  lemma FreshAt(ods: Ods, queue: seq<Fetched>, i: nat)
    requires FreshQueue(ods, queue) && i < |queue|
    ensures Fresh(ods, queue[i])
  {
  }

  /** A pass is counted by what it did to the table. */
  lemma {:induction false} MetricsMatchTable(env: Env, db: Db, queue: seq<Fetched>, luck: nat -> Luck, tx: bool, n: nat, m: Metrics)
    requires Inv(env, db) && FreshQueue(db.ods, queue) && n <= |queue|
    ensures var r := Project(env, db, queue, luck, tx, n); Counted(m, BumpedAll(m, r.results), db.ods, r.db.ods)
  {
    hide *;
    if n > 0 {
      var before, f := Project(env, db, queue, luck, tx, n - 1), queue[n - 1];
      FreshAt(db.ods, queue, n - 1);
      MetricsMatchTable(env, db, queue, luck, tx, n - 1, m);
      FreshKnown(env, db, queue);
      ProjectKeeps(env, db, queue, luck, tx, n - 1);
      StillKnown(env, db, queue, luck, n - 1, before);
      FreshStays(db.ods, before.db.ods, f);
      var d := ProjectOne(env, before.db, f, luck(n - 1), tx);
      ProjectNext(env, db, queue, luck, tx, n - 1);
      ProjectOneKeeps(env, before.db, f, luck(n - 1), tx);
      BumpedNext(m, before.results, d.result);
      CountedNext(m, BumpedAll(m, before.results), db.ods, before.db.ods, f, d.result, luck(n - 1).now);
    } else {
      ProjectNone(env, db, queue, luck, tx);
      CountedNone(m, db.ods);
    }
  }

  // ---- retries end ----

  /** The row was projected in some state of the tables, by either path, and its mark was written. */
  ghost predicate Projection(env: Env, before: Row, after: Row) {
    exists db: Db, odsId, luck, tx :: Carries(env, db, odsId, luck, tx, before, after)
  }

  ghost predicate Carries(env: Env, db: Db, odsId: int, luck: Luck, tx: bool, before: Row, after: Row) {
    odsId in db.ods && db.ods[odsId] == before && Open(before)
    && var d := ProjectOne(env, db, Fetched(odsId, before), luck, tx);
       !d.result.failed && odsId in d.db.ods && d.db.ods[odsId] == after
  }

  /** Successive states of one row, each a projection away from the one before. */
  ghost predicate History(env: Env, rows: seq<Row>) {
    forall k :: 0 < k < |rows| ==> Projection(env, rows[k - 1], rows[k])
  }

  /**
   A row is projected at most 20 times before it is closed, and it is dead-lettered at the
   twentieth failure, neither earlier nor later.
   */
  lemma {:induction false} TwentyProjections(env: Env, rows: seq<Row>)
    requires rows != [] && Open(rows[0]) && rows[0].retries == 0 && History(env, rows)
    ensures |rows| - 1 <= DEAD_LETTER_THRESHOLD
    ensures |rows| - 1 == DEAD_LETTER_THRESHOLD ==> Closed(rows[|rows| - 1])
    ensures rows[|rows| - 1].status.DeadLetter? ==> |rows| - 1 == DEAD_LETTER_THRESHOLD
    ensures Open(rows[|rows| - 1]) ==> rows[|rows| - 1].retries == |rows| - 1
  {
    if |rows| > 1 {
      var front := rows[..|rows| - 1];
      assert forall k :: 0 <= k < |front| ==> front[k] == rows[k];
      hide Projection;
      TwentyProjections(env, front);
      assert Projection(env, rows[|rows| - 2], rows[|rows| - 1]);
    }
  }

  /** A row whose every projection fails and is repeated as soon as it falls due; the first at `now`. */
  function Failing(rec: Row, now: int, n: nat): Row {
    if n == 0 then rec
    else
      var r := Failing(rec, now, n - 1);
      MarkedRow(r, r, HandleError(r), if r.status.Retry? then r.status.due else now)
  }

  function Backoff(n: nat): nat {
    if n == 0 then 0 else Backoff(n - 1) + RetryDelay(n)
  }

  lemma {:induction false} BackoffExact(n: nat)
    ensures Backoff(n) == if n <= 3 then n * 60000 else if n <= 10 then 180000 + (n - 3) * 600000 else 4380000 + (n - 10) * 3600000
  {
    if n > 0 {
      BackoffExact(n - 1);
    }
  }

  lemma {:induction false} FailingRow(rec: Row, now: int, n: nat)
    requires rec.status.Pending? && rec.retries == 0 && 0 < n < DEAD_LETTER_THRESHOLD
    ensures Failing(rec, now, n) == rec.(status := Retry(now + Backoff(n)), retries := n)
  {
    hide RetryDelay;
    if n > 1 {
      FailingRow(rec, now, n - 1);
    } else {
      assert Failing(rec, now, 0) == rec && Backoff(0) == 0;
    }
  }

  /** It waits 1 minute three times, 10 minutes seven times, 1 hour nine times, and is dead 613 minutes after the first failure. */
  lemma FailureSchedule(rec: Row, now: int, n: nat)
    requires rec.status.Pending? && rec.retries == 0 && 0 < n <= DEAD_LETTER_THRESHOLD
    ensures n <= 3 ==> Failing(rec, now, n).status == Retry(now + n * 60000)
    ensures 3 < n <= 10 ==> Failing(rec, now, n).status == Retry(now + 180000 + (n - 3) * 600000)
    ensures 10 < n < 20 ==> Failing(rec, now, n).status == Retry(now + 4380000 + (n - 10) * 3600000)
    ensures n == 19 ==> Failing(rec, now, n).status == Retry(now + 613 * 60000)
    ensures n == 20 ==> Failing(rec, now, n).status.DeadLetter?
  {
    BackoffExact(n);
    if n < DEAD_LETTER_THRESHOLD {
      FailingRow(rec, now, n);
    } else {
      FailingRow(rec, now, n - 1);
    }
    hide Backoff;
  }

  lemma {:induction false} UnmarkedPass(env: Env, db: Db, queue: seq<Fetched>, luck: nat -> Luck, tx: bool, n: nat)
    requires n <= |queue| && forall k: nat :: luck(k).markFails
    ensures var r := Project(env, db, queue, luck, tx, n);
            r.db.ods == db.ods && forall k :: 0 <= k < n ==> r.results[k].failed
  {
    if n > 0 {
      UnmarkedPass(env, db, queue, luck, tx, n - 1);
      hide Write, Marked;
    }
  }

  /** Every mark of the scan fails, by either path. */
  ghost predicate Unmarked(s: Script) {
    forall k: nat :: s.inside(k).markFails && s.replay(k).markFails
  }

  lemma UnmarkedScan(env: Env, db: Db, batched: bool, limit: nat, s: Script)
    requires Unmarked(s)
    ensures Scan(env, db, batched, limit, s).db.ods == db.ods
  {
    var queue := ScanQueue(db, limit, s);
    UnmarkedPass(env, db, queue, s.inside, true, |queue|);
    UnmarkedPass(env, db, queue, s.replay, false, |queue|);
    if queue != [] {
      assert Project(env, db, queue, s.inside, true, |queue|).results[0].failed;
    }
    hide Project;
    if queue == [] {
      EmptyPass(env, db, batched, s);
    }
  }

  lemma EmptyPass(env: Env, db: Db, batched: bool, s: Script)
    ensures Project(env, db, [], s.inside, true, 0).db == db && Base(env, db, batched, [], s) == db
    ensures Project(env, Base(env, db, batched, [], s), [], s.replay, false, 0).db == db
  {
  }

  /**
   Rows whose marks fail are fetched again and again: the drain then makes its last allowed
   scan and stops, with the ODS as it was. The cap is what ends it.
   */
  lemma {:induction false} HotLoopBounded(env: Env, db: Db, batched: bool, limit: nat, scripts: nat -> Script, i: nat, cap: nat)
    requires i <= cap && forall k: nat :: Unmarked(scripts(k)) && !scripts(k).fetch && !scripts(k).cancelled
    requires forall k: nat :: |Eligible(db.ods, scripts(k).now)| >= limit
    ensures var d := Drain(env, db, batched, limit, scripts, i, cap); d.rounds == cap && !d.short && d.db.ods == db.ods
    decreases cap - i
  {
    hide *;
    if i < cap {
      DrainNext(env, db, batched, limit, scripts, i, cap);
      UnmarkedScan(env, db, batched, limit, scripts(i));
      FetchedIds(db.ods, scripts(i).now, limit);
      FetchedAll(env, db, batched, limit, scripts(i));
      HotLoopBounded(env, Scan(env, db, batched, limit, scripts(i)).db, batched, limit, scripts, i + 1, cap);
    } else {
      DrainNext(env, db, batched, limit, scripts, cap, cap);
    }
  }

  lemma FetchedAll(env: Env, db: Db, batched: bool, limit: nat, s: Script)
    requires !s.fetch
    ensures |Scan(env, db, batched, limit, s).results| == |FetchPending(db.ods, s.now, limit)|
  {
  }

  /**
   A dead-lettered row has a fact exactly when it had one before that projection, or that
   projection's own insert took effect with its reply lost.
   */
  lemma DeadLetterFactIff(env: Env, db: Db, f: Fetched, luck: Luck, tx: bool)
    requires Inv(env, db) && Known(db.ods, f) && !f.rec.canary
    requires var r := ProjectOne(env, db, f, luck, tx).result; r.outcome.ToDeadLetter? && !r.failed
    ensures var d := ProjectOne(env, db, f, luck, tx).db;
            && f.odsId in d.ods && d.ods[f.odsId].status.DeadLetter?
            && (RowKey(env, f.rec) in d.dwd <==> RowKey(env, f.rec) in db.dwd || Unreported(env, db.dwd, f, luck))
  {
    MarkedOds(db.ods, f, ToDeadLetter, luck.now);
    WritesDwd(env, db, f, luck, tx);
    UnreportedExact(env, db.dwd, f, luck);
    hide Write, Inv, Clashes;
  }

  // ---- a drain ----

  /** No retry falls due after `from` and up to `to`. */
  ghost predicate Quiet(ods: Ods, from: int, to: int) {
    forall i :: i in ods && ods[i].status.Retry? && ods[i].status.due > from ==> ods[i].status.due > to
  }

  lemma QuietEligible(ods: Ods, from: int, to: int, t: int)
    requires Quiet(ods, from, to) && from <= t <= to
    ensures Eligible(ods, t) == Eligible(ods, from)
  {
    forall i | i in ods
      ensures Due(ods[i], t) <==> Due(ods[i], from)
    {
    }
  }

  predicate RowMarked(r: Row, to: int) {
    r.status.Projected? || r.status.DeadLetter? || (r.status.Retry? && r.status.due > to)
  }

  /** The retries a pass schedules fall due after `to`. */
  ghost predicate RetriesLater(queue: seq<Fetched>, results: seq<Result>, luck: nat -> Luck, to: int)
    requires |results| == |queue|
  {
    forall k :: 0 <= k < |queue| && results[k].outcome.ToRetry? ==> luck(k).now + RetryDelay(queue[k].rec.retries + 1) > to
  }

  lemma MarkStatus(row: Row, rec: Row, outcome: Outcome, now: int, to: int)
    ensures var after := MarkedRow(row, rec, outcome, now);
            && (after.status.Projected? || after.status.DeadLetter? || after.status.Retry?)
            && (RowMarked(after, to) <==> (outcome.ToRetry? ==> now + RetryDelay(rec.retries + 1) > to))
  {
  }

  /** What marking a queue's rows does to the eligible set, exactly. */
  lemma MarkingRemoves(a: Ods, b: Ods, ids: set<int>, from: int, to: int)
    requires b.Keys == a.Keys && ids <= a.Keys && from <= to && Quiet(a, from, to)
    requires forall i :: i in a && i in b ==>
      if i in ids then b[i].status.Projected? || b[i].status.DeadLetter? || b[i].status.Retry? else b[i] == a[i]
    ensures Eligible(b, to) == Eligible(a, from) - ids <==> forall i :: i in ids && i in b ==> RowMarked(b[i], to)
    ensures Eligible(b, to) == Eligible(a, from) - ids ==> Eligible(b, from) == Eligible(a, from) - ids && Quiet(b, from, to)
  {
    assert forall i :: i in b <==> i in b.Keys;
    if forall i :: i in ids && i in b ==> RowMarked(b[i], to) {
      forall i
        ensures i in Eligible(b, to) <==> i in Eligible(a, from) - ids
        ensures i in Eligible(b, from) <==> i in Eligible(a, from) - ids
      {
      }
    } else {
      var i :| i in ids && i in b && !RowMarked(b[i], to);
      assert i in Eligible(b, to) && i !in Eligible(a, from) - ids;
    }
  }

  /** A scan's rows and no others are marked, each by its own result. */
  lemma ScanMarks(env: Env, db: Db, batched: bool, limit: nat, s: Script, to: int)
    requires Inv(env, db) && Clean(Scan(env, db, batched, limit, s).results)
    ensures var r, queue := Scan(env, db, batched, limit, s), ScanQueue(db, limit, s);
            && Inv(env, r.db) && r.db.ods.Keys == db.ods.Keys && Ids(queue) <= db.ods.Keys
            && (forall i :: i in db.ods && i in r.db.ods ==>
                  if i in Ids(queue) then r.db.ods[i].status.Projected? || r.db.ods[i].status.DeadLetter? || r.db.ods[i].status.Retry?
                  else r.db.ods[i] == db.ods[i])
            && ((forall i :: i in Ids(queue) && i in r.db.ods ==> RowMarked(r.db.ods[i], to))
                <==> RetriesLater(queue, r.results, LastLuck(env, db, batched, queue, s), to))
  {
    hide *;
    var queue := ScanQueue(db, limit, s);
    var base, luck := Base(env, db, batched, queue, s), LastLuck(env, db, batched, queue, s);
    var tx := batched && Committed(env, db, queue, s);
    var p := Project(env, base, queue, luck, tx, |queue|);
    BaseKeeps(env, db, batched, limit, s);
    ProjectKeeps(env, base, queue, luck, tx, |queue|);
    PassedKnown(env, base, queue, luck, p);
    PassedOthers(env, base, queue, luck, p);
    PassedKeys(env, base, queue, luck, p);
    CheckpointKeeps(env, p.db, queue);
    ScanIsPass(env, db, batched, limit, s);
    PassMarked(env, base, queue, luck, p, to);
    assert base.ods.Keys == db.ods.Keys;
    assert forall i :: i in db.ods ==> i in db.ods.Keys;
  }

  lemma PassedKeys(env: Env, db: Db, queue: seq<Fetched>, luck: nat -> Luck, r: Run)
    requires KnownQueue(db.ods, queue) && |r.results| == |queue| && Passed(env, db, queue, luck, |queue|, r)
    ensures r.db.ods.Keys == db.ods.Keys && Ids(queue) <= db.ods.Keys && Grows(db.dwd, r.db.dwd)
  {
    hide Inv, Grows;
    forall i | i in Ids(queue)
      ensures i in db.ods.Keys
    {
      var k :| 0 <= k < |queue| && queue[k].odsId == i;
      assert Known(db.ods, queue[k]);
    }
  }

  lemma PassMarked(env: Env, db: Db, queue: seq<Fetched>, luck: nat -> Luck, r: Run, to: int)
    requires KnownQueue(db.ods, queue) && |r.results| == |queue| && Passed(env, db, queue, luck, |queue|, r) && Clean(r.results)
    ensures forall i :: i in Ids(queue) && i in r.db.ods ==>
              r.db.ods[i].status.Projected? || r.db.ods[i].status.DeadLetter? || r.db.ods[i].status.Retry?
    ensures (forall i :: i in Ids(queue) && i in r.db.ods ==> RowMarked(r.db.ods[i], to)) <==> RetriesLater(queue, r.results, luck, to)
  {
    hide Inv, Passed, KnownQueue, MarkedRow, RowMarked, RetryDelay;
    forall k | 0 <= k < |queue|
      ensures queue[k].odsId in Ids(queue) && queue[k].odsId in r.db.ods
      ensures var status := r.db.ods[queue[k].odsId].status; status.Projected? || status.DeadLetter? || status.Retry?
      ensures RowMarked(r.db.ods[queue[k].odsId], to)
         <==> (r.results[k].outcome.ToRetry? ==> luck(k).now + RetryDelay(queue[k].rec.retries + 1) > to)
    {
      PassedRow(env, db, queue, luck, r, k);
      assert !r.results[k].failed;
      MarkStatus(db.ods[queue[k].odsId], queue[k].rec, r.results[k].outcome, luck(k).now, to);
    }
    if forall i :: i in Ids(queue) && i in r.db.ods ==> RowMarked(r.db.ods[i], to) {
      forall k | 0 <= k < |queue| && r.results[k].outcome.ToRetry?
        ensures luck(k).now + RetryDelay(queue[k].rec.retries + 1) > to
      {
        assert RowMarked(r.db.ods[queue[k].odsId], to);
      }
    }
  }

  /** A scan in which the query answers and every mark that is written succeeds. */
  ghost predicate Unfailing(env: Env, db: Db, batched: bool, limit: nat, s: Script, from: int, to: int) {
    !s.fetch && from <= s.now <= to && Clean(Scan(env, db, batched, limit, s).results)
  }

  /**
   If no older retry falls due between `from` and `to`, an unfailing scan takes exactly its
   fetched rows out of the eligible set, as it stands at `to`, exactly when the retries it
   schedules fall due later; it fetches min(limit, eligible) rows.
   */
  lemma ScanRemovesIff(env: Env, db: Db, batched: bool, limit: nat, s: Script, from: int, to: int)
    requires Inv(env, db) && Quiet(db.ods, from, to) && Unfailing(env, db, batched, limit, s, from, to)
    ensures var r, queue := Scan(env, db, batched, limit, s), ScanQueue(db, limit, s);
            && Inv(env, r.db)
            && |r.results| == (if |Eligible(db.ods, from)| < limit then |Eligible(db.ods, from)| else limit)
            && (Eligible(r.db.ods, to) == Eligible(db.ods, from) - Ids(queue)
                <==> RetriesLater(queue, r.results, LastLuck(env, db, batched, queue, s), to))
            && (Eligible(r.db.ods, to) == Eligible(db.ods, from) - Ids(queue) ==>
                  Quiet(r.db.ods, from, to) && Eligible(r.db.ods, from) == Eligible(r.db.ods, to)
                  && |Eligible(r.db.ods, to)| == |Eligible(db.ods, from)| - |r.results|)
  {
    hide *;
    var r, queue := Scan(env, db, batched, limit, s), ScanQueue(db, limit, s);
    UnfailingDef(env, db, batched, limit, s, from, to);
    ScanMarks(env, db, batched, limit, s, to);
    MarkingRemoves(db.ods, r.db.ods, Ids(queue), from, to);
    QuietEligible(db.ods, from, to, s.now);
    FetchedIds(db.ods, s.now, limit);
    FetchedAll(env, db, batched, limit, s);
  }

  lemma UnfailingDef(env: Env, db: Db, batched: bool, limit: nat, s: Script, from: int, to: int)
    requires Unfailing(env, db, batched, limit, s, from, to)
    ensures !s.fetch && from <= s.now <= to && Clean(Scan(env, db, batched, limit, s).results)
    ensures ScanQueue(db, limit, s) == FetchPending(db.ods, s.now, limit)
  {
    hide Scan;
  }

  /** ... and whose own retries fall due later than `to`. */
  ghost predicate Smooth(env: Env, db: Db, batched: bool, limit: nat, s: Script, from: int, to: int) {
    && Unfailing(env, db, batched, limit, s, from, to)
    && var queue := ScanQueue(db, limit, s);
       RetriesLater(queue, Scan(env, db, batched, limit, s).results, LastLuck(env, db, batched, queue, s), to)
  }

  /** Clock readings from `from` on and less than a minute make every retry fall due later: the shortest delay is one minute. */
  lemma MinuteSuffices(queue: seq<Fetched>, results: seq<Result>, luck: nat -> Luck, from: int, to: int)
    requires |results| == |queue| && to < from + 60000 && forall k: nat :: luck(k).now >= from
    ensures RetriesLater(queue, results, luck, to)
  {
  }

  lemma FetchedIds(ods: Ods, now: int, limit: nat)
    ensures var queue := FetchPending(ods, now, limit);
            && Ids(queue) <= Eligible(ods, now) && |Ids(queue)| == |queue|
            && |queue| == (if |Eligible(ods, now)| < limit then |Eligible(ods, now)| else limit)
  {
    var ids := Lowest(Eligible(ods, now), limit);
    LowestExact(Eligible(ods, now), limit);
    assert forall k :: 0 <= k < |ids| ==> ids[k] in ids && ids[k] in Eligible(ods, now);
    hide Lowest;
    DistinctIds(FetchPending(ods, now, limit));
  }

  lemma {:induction false} DistinctIds(queue: seq<Fetched>)
    requires forall j, k :: 0 <= j < k < |queue| ==> queue[j].odsId != queue[k].odsId
    ensures |Ids(queue)| == |queue|
  {
    if queue != [] {
      var front, last := queue[..|queue| - 1], queue[|queue| - 1];
      DistinctIds(front);
      assert Ids(queue) == Ids(front) + {last.odsId};
      assert last.odsId !in Ids(front);
    }
  }

  /** Every scan the drain makes is smooth and none is cancelled. */
  ghost predicate SmoothDrain(env: Env, db: Db, batched: bool, limit: nat, scripts: nat -> Script, i: nat, cap: nat, from: int, to: int)
    requires i <= cap
    decreases cap - i
  {
    i < cap ==>
      var r := Scan(env, db, batched, limit, scripts(i));
      && Smooth(env, db, batched, limit, scripts(i), from, to) && !scripts(i).cancelled
      && (|r.results| >= limit ==> SmoothDrain(env, r.db, batched, limit, scripts, i + 1, cap, from, to))
  }

  // Of a backlog: how many scans a drain takes, what is left, and whether the last scan was short.
  datatype Plan = Plan(rounds: nat, left: nat, short: bool)

  function DrainPlan(backlog: nat, limit: nat, cap: nat): Plan {
    if cap == 0 then Plan(0, backlog, false)
    else if backlog < limit then Plan(1, 0, true)
    else
      var p := DrainPlan(backlog - limit, limit, cap - 1);
      p.(rounds := p.rounds + 1)
  }

  /** The rows that many full scans take. */
  function Scanned(rounds: int, limit: nat): int {
    rounds * limit
  }

  lemma OneMore(n: int, limit: nat)
    ensures Scanned(n, limit) == Scanned(n - 1, limit) + limit
  {
  }

  lemma {:induction false} PlanExact(backlog: nat, limit: nat, cap: nat)
    requires limit > 0
    ensures Scanned(cap, limit) >= 0
    ensures var p := DrainPlan(backlog, limit, cap);
            if backlog < Scanned(cap, limit)
            then p.short && p.left == 0 && Scanned(p.rounds - 1, limit) <= backlog < Scanned(p.rounds, limit)
            else p == Plan(cap, backlog - Scanned(cap, limit), false)
  {
    if cap > 0 {
      OneMore(cap, limit);
      if backlog >= limit {
        PlanExact(backlog - limit, limit, cap - 1);
        OneMore(DrainPlan(backlog, limit, cap).rounds, limit);
        OneMore(DrainPlan(backlog - limit, limit, cap - 1).rounds, limit);
        hide Scanned;
      } else {
        PlanExact(backlog, limit, cap - 1);
      }
    }
  }

  lemma PlanNext(backlog: nat, limit: nat, cap: nat)
    ensures cap == 0 ==> DrainPlan(backlog, limit, cap) == Plan(0, backlog, false)
    ensures cap > 0 && backlog < limit ==> DrainPlan(backlog, limit, cap) == Plan(1, 0, true)
    ensures cap > 0 && backlog >= limit ==>
      var p := DrainPlan(backlog - limit, limit, cap - 1);
      DrainPlan(backlog, limit, cap) == Plan(p.rounds + 1, p.left, p.short)
  {
  }

  lemma SmoothNext(env: Env, db: Db, batched: bool, limit: nat, scripts: nat -> Script, i: nat, cap: nat, from: int, to: int)
    requires i < cap && SmoothDrain(env, db, batched, limit, scripts, i, cap, from, to)
    ensures Unfailing(env, db, batched, limit, scripts(i), from, to) && !scripts(i).cancelled
    ensures var queue := ScanQueue(db, limit, scripts(i));
            RetriesLater(queue, Scan(env, db, batched, limit, scripts(i)).results, LastLuck(env, db, batched, queue, scripts(i)), to)
    ensures var r := Scan(env, db, batched, limit, scripts(i));
            |r.results| >= limit ==> SmoothDrain(env, r.db, batched, limit, scripts, i + 1, cap, from, to)
  {
  }

  lemma {:induction false} DrainFollowsPlan(env: Env, db: Db, batched: bool, limit: nat, scripts: nat -> Script,
    i: nat, cap: nat, from: int, to: int)
    requires i <= cap && from <= to
    requires Inv(env, db) && Quiet(db.ods, from, to) && SmoothDrain(env, db, batched, limit, scripts, i, cap, from, to)
    ensures var d := Drain(env, db, batched, limit, scripts, i, cap);
            && d.rounds >= i && Inv(env, d.db)
            && Plan(d.rounds - i, |Eligible(d.db.ods, to)|, d.short) == DrainPlan(|Eligible(db.ods, from)|, limit, cap - i)
    decreases cap - i
  {
    hide *;
    PlanNext(|Eligible(db.ods, from)|, limit, cap - i);
    if i < cap {
      var r := Scan(env, db, batched, limit, scripts(i));
      SmoothNext(env, db, batched, limit, scripts, i, cap, from, to);
      ScanRemovesIff(env, db, batched, limit, scripts(i), from, to);
      DrainNext(env, db, batched, limit, scripts, i, cap);
      if |r.results| < limit {
        QuietEligible(r.db.ods, from, to, to);
      } else {
        DrainFollowsPlan(env, r.db, batched, limit, scripts, i + 1, cap, from, to);
      }
    } else {
      DrainNext(env, db, batched, limit, scripts, cap, cap);
      QuietEligible(db.ods, from, to, to);
    }
  }

  /**
   A drain, however long, in which no retry falls due clears a backlog below limit times the round
   cap, and its last scan is the first short one; from a larger one it takes limit rows a scan.
   */
  lemma DrainClears(env: Env, db: Db, batched: bool, limit: nat, scripts: nat -> Script, cap: nat, from: int, to: int)
    requires limit > 0 && from <= to && Inv(env, db) && Quiet(db.ods, from, to)
    requires SmoothDrain(env, db, batched, limit, scripts, 0, cap, from, to)
    ensures var d, backlog := Drain(env, db, batched, limit, scripts, 0, cap), |Eligible(db.ods, from)|;
            if backlog < Scanned(cap, limit)
            then d.short && Eligible(d.db.ods, to) == {} && Scanned(d.rounds - 1, limit) <= backlog < Scanned(d.rounds, limit)
            else !d.short && d.rounds == cap && |Eligible(d.db.ods, to)| == backlog - Scanned(cap, limit)
  {
    hide *;
    DrainFollowsPlan(env, db, batched, limit, scripts, 0, cap, from, to);
    PlanExact(|Eligible(db.ods, from)|, limit, cap);
  }

  /** Every scan the drain makes is unfailing and none is cancelled. */
  ghost predicate UnfailingDrain(env: Env, db: Db, batched: bool, limit: nat, scripts: nat -> Script, i: nat, cap: nat, from: int, to: int)
    requires i <= cap
    decreases cap - i
  {
    i < cap ==>
      var r := Scan(env, db, batched, limit, scripts(i));
      && Unfailing(env, db, batched, limit, scripts(i), from, to) && !scripts(i).cancelled
      && (|r.results| >= limit ==> UnfailingDrain(env, r.db, batched, limit, scripts, i + 1, cap, from, to))
  }

  /** In a drain shorter than a minute no retry it schedules can fall due. */
  lemma {:induction false} MinuteDrain(env: Env, db: Db, batched: bool, limit: nat, scripts: nat -> Script, i: nat, cap: nat, from: int, to: int)
    requires i <= cap && to < from + 60000 && UnfailingDrain(env, db, batched, limit, scripts, i, cap, from, to)
    requires forall j: nat, k: nat :: scripts(j).inside(k).now >= from && scripts(j).replay(k).now >= from
    ensures SmoothDrain(env, db, batched, limit, scripts, i, cap, from, to)
    decreases cap - i
  {
    hide Scan, Unfailing, RetriesLater;
    if i < cap {
      var r, queue := Scan(env, db, batched, limit, scripts(i)), ScanQueue(db, limit, scripts(i));
      MinuteSuffices(queue, r.results, LastLuck(env, db, batched, queue, scripts(i)), from, to);
      if |r.results| >= limit {
        MinuteDrain(env, r.db, batched, limit, scripts, i + 1, cap, from, to);
      }
    }
  }

  function CounterOf(m: Metrics, outcome: Outcome): nat {
    match outcome
    case ToProjected => m.projected
    case ToRetry => m.retried
    case ToDeadLetter => m.deadLetter
  }

  /** The row counts: it ended in this outcome, and if that is the projected one, with its mark written. */
  predicate Counts(r: Result, outcome: Outcome) {
    r.outcome == outcome && (outcome.ToProjected? ==> !r.failed)
  }

  /** The counters say how many rows ended in which outcome; a projection whose mark failed is not counted, a failed error mark is. */
  lemma {:induction false} OutcomeCounts(m: Metrics, results: seq<Result>, outcome: Outcome)
    ensures CounterOf(BumpedAll(m, results), outcome)
         == CounterOf(m, outcome) + |set i | 0 <= i < |results| && results[i].outcome == outcome && (outcome.ToProjected? ==> !results[i].failed)|
    ensures BumpedAll(m, results).scans == m.scans
  {
    CounterNext(m, results, outcome);
    hide BumpedAll, CounterOf;
    var all := set i | 0 <= i < |results| && results[i].outcome == outcome && (outcome.ToProjected? ==> !results[i].failed);
    if results == [] {
      assert all == {};
    } else {
      OutcomeCounts(m, results[..|results| - 1], outcome);
      OutcomeNext(results, outcome, |results| - 1);
    }
  }

  lemma CounterNext(m: Metrics, results: seq<Result>, outcome: Outcome)
    ensures results == [] ==> BumpedAll(m, results) == m
    ensures results != [] ==>
      var n := |results| - 1;
      && CounterOf(BumpedAll(m, results), outcome) == CounterOf(BumpedAll(m, results[..n]), outcome) + (if Counts(results[n], outcome) then 1 else 0)
      && BumpedAll(m, results).scans == BumpedAll(m, results[..n]).scans
  {
  }

  lemma OutcomeNext(results: seq<Result>, outcome: Outcome, n: nat)
    requires n == |results| - 1
    ensures |set i | 0 <= i < |results| && results[i].outcome == outcome && (outcome.ToProjected? ==> !results[i].failed)|
         == |set i | 0 <= i < |results[..n]| && results[..n][i].outcome == outcome && (outcome.ToProjected? ==> !results[..n][i].failed)|
            + if Counts(results[n], outcome) then 1 else 0
  {
    var front := set i | 0 <= i < |results[..n]| && results[..n][i].outcome == outcome && (outcome.ToProjected? ==> !results[..n][i].failed);
    assert (set i | 0 <= i < |results| && results[i].outcome == outcome && (outcome.ToProjected? ==> !results[i].failed))
        == front + if Counts(results[n], outcome) then {n} else {};
  }
}
