/**
 Ingest of conversation records: who owns a sequence number, and a session's system text.
 Records are kept in the order they were stored.
 */
module ConversationIngest {
  import opened Database
  import opened Options

  // A zero time or an empty string is the absent value; `rest` stands for the stored content.
  datatype Record = Record(id: string, org: string, session: string, owner: string, seat: string,
    source: string, num: Option<int>, createdAt: int, requestStatus: string, systemText: string, rest: string)

  datatype Stored = Stored(rec: Record, quarantined: bool)

  datatype SessionKey = SessionKey(org: string, session: string)

  datatype SessionRow = SessionRow(scope: string, systemText: string)

  datatype Tables = Tables(records: seq<Stored>, sessions: map<SessionKey, SessionRow>)

  datatype Env = Env(dialect: Dialect, admits: Record -> bool)

  // InsertLost, SessionLost: the statement took effect, but an error came back.
  datatype Fault = NoFault | OwnerFault | InsertFault | InsertLost | VerifyFault | SessionFault | SessionLost

  // One record's luck: the statement that fails, and which row an unordered LIMIT 1 returns.
  datatype Luck = Luck(fault: Fault, pick: nat)

  datatype Status = Accepted | QuarantinedStatus | Duplicated | Rejected

  datatype Result = Result(id: string, status: Status, reason: string, transient: bool)

  function Validate(r: Record): Option<string> {
    if r.id == "" then Some("event_id is required")
    else if r.org == "" then Some("org_id is required")
    else if r.createdAt == 0 then Some("created_at is required")
    else if r.requestStatus == "" then Some("request_status is required")
    else None
  }

  /** convDate: the UTC day of created_at, as a day number. */
  function Day(r: Record): int {
    r.createdAt / 86400000
  }

  predicate Numbered(r: Record) {
    r.source != "" && r.num.Some?
  }

  predicate SameSlot(a: Record, b: Record) {
    Numbered(a) && Numbered(b) && a.org == b.org && a.source == b.source && a.num == b.num
  }

  /** The event ids found under the slot of r, in storage order. */
  function Owners(records: seq<Stored>, r: Record): (ids: seq<string>)
    ensures ids == [] <==> forall s :: s in records ==> !SameSlot(s.rec, r)
    ensures forall id :: id in ids ==> exists s :: s in records && SameSlot(s.rec, r) && s.rec.id == id
    ensures forall s :: s in records && SameSlot(s.rec, r) ==> s.rec.id in ids
  {
    if records == [] then []
    else
      var front, last := records[..|records| - 1], records[|records| - 1];
      assert forall s :: s in records <==> s in front || s == last;
      Owners(front, r) + if SameSlot(last.rec, r) then [last.rec.id] else []
  }

  predicate KeyTaken(records: seq<Stored>, r: Record) {
    exists s :: s in records && s.rec.id == r.id && Day(s.rec) == Day(r)
  }

  predicate DuplicateFound(records: seq<Stored>, r: Record) {
    exists s :: s in records && s.rec.org == r.org && s.rec.id == r.id && Day(s.rec) == Day(r)
  }

  datatype InsertOutcome = Inserted | Duplicate | Swallowed | Transient

  function Insert(env: Env, records: seq<Stored>, r: Record, quarantined: bool, fault: Fault): (seq<Stored>, InsertOutcome) {
    if fault.InsertFault? || (env.dialect.Postgres? && !env.admits(r)) then (records, Transient)
    else if !KeyTaken(records, r) && env.admits(r) then
      (records + [Stored(r, quarantined)], if fault.InsertLost? then Transient else Inserted)
    else if fault.InsertLost? || fault.VerifyFault? then (records, Transient)
    else if DuplicateFound(records, r) then (records, Duplicate)
    else (records, Swallowed)
  }

  function SessionScope(r: Record): string {
    if r.seat != "" then r.seat else r.owner
  }

  /** First writer wins; later texts for the session are ignored. */
  function UpsertSession(sessions: map<SessionKey, SessionRow>, r: Record): map<SessionKey, SessionRow> {
    var key := SessionKey(r.org, r.session);
    if key in sessions then sessions else sessions[key := SessionRow(SessionScope(r), r.systemText)]
  }

  // failed: an infrastructure failure that must abort a transaction, whatever the result says.
  datatype Step = Step(tables: Tables, result: Result, failed: bool)

  /** The quarantine verdict: some other event was found in the slot. */
  function Verdict(records: seq<Stored>, r: Record, pick: nat): bool {
    var owners := Owners(records, r);
    owners != [] && owners[pick % |owners|] != r.id
  }

  function IngestOne(env: Env, t: Tables, r: Record, luck: Luck): Step {
    var refused := Validate(r);
    if refused.Some? then Step(t, Result(r.id, Rejected, refused.value, false), false)
    else if Numbered(r) && luck.fault.OwnerFault? then
      Step(t, Result(r.id, Rejected, "transient storage failure", true), true)
    else
      var q := Verdict(t.records, r, luck.pick);
      var (records, outcome) := Insert(env, t.records, r, q, luck.fault);
      if outcome.Transient? then Step(t.(records := records), Result(r.id, Rejected, "transient storage failure", true), true)
      else if outcome.Swallowed? then Step(t, Result(r.id, Rejected, "internal error", false), false)
      else
        var sessions := if r.systemText == "" || luck.fault.SessionFault? then t.sessions else UpsertSession(t.sessions, r);
        Step(Tables(records, sessions),
          if outcome.Duplicate? then Result(r.id, Duplicated, "", false)
          else if q then Result(r.id, QuarantinedStatus, "source_seq conflict", false)
          else Result(r.id, Accepted, "", false),
          r.systemText != "" && (luck.fault.SessionFault? || luck.fault.SessionLost?))
  }

  datatype Run = Run(tables: Tables, results: seq<Result>, failed: bool)

  function Ingest(env: Env, t: Tables, batch: seq<Record>, luck: nat -> Luck, n: nat): (r: Run)
    requires n <= |batch|
    ensures |r.results| == n
  {
    if n == 0 then Run(t, [], false)
    else
      var before := Ingest(env, t, batch, luck, n - 1);
      var s := IngestOne(env, before.tables, batch[n - 1], luck(n - 1));
      Run(s.tables, before.results + [s.result], before.failed || s.failed)
  }

  // begin: the transaction could not be opened.
  datatype Script = Script(begin: bool, inside: nat -> Luck, commit: Commit, replay: nat -> Luck)

  /** The transaction reaches its COMMIT. */
  predicate Prepared(env: Env, t: Tables, batch: seq<Record>, s: Script) {
    !s.begin && !Ingest(env, t, batch, s.inside, |batch|).failed
  }

  predicate Committed(env: Env, t: Tables, batch: seq<Record>, s: Script) {
    Prepared(env, t, batch, s) && s.commit.Heard?
  }

  /** What the transaction leaves: everything if its COMMIT was durable, heard of or not, else nothing. */
  function Left(env: Env, t: Tables, batch: seq<Record>, s: Script): Tables {
    if Prepared(env, t, batch, s) && !s.commit.Refused? then Ingest(env, t, batch, s.inside, |batch|).tables else t
  }

  /** IngestBatch: the transaction's outcome if it commits, else the replay record by record. */
  function BatchRun(env: Env, t: Tables, batch: seq<Record>, s: Script): Run {
    if Committed(env, t, batch, s) then Ingest(env, t, batch, s.inside, |batch|)
    else Ingest(env, Left(env, t, batch, s), batch, s.replay, |batch|)
  }

  /** In a single-tenant cluster every record is filed under the one delivery org first. */
  function Pinned(batch: seq<Record>, org: string): seq<Record> {
    if org == "" then batch else seq(|batch|, i requires 0 <= i < |batch| => batch[i].(org := org))
  }

  datatype Counters = Counters(accepted: nat, quarantined: nat, duplicated: nat, rejected: nat)

  function Tally(results: seq<Result>): Counters {
    if results == [] then Counters(0, 0, 0, 0)
    else
      var c := Tally(results[..|results| - 1]);
      match results[|results| - 1].status
      case Accepted => c.(accepted := c.accepted + 1)
      case QuarantinedStatus => c.(quarantined := c.quarantined + 1)
      case Duplicated => c.(duplicated := c.duplicated + 1)
      case Rejected => c.(rejected := c.rejected + 1)
  }

  /** The (org, source) pairs whose watermark the batch must advance. */
  function Touched(batch: seq<Record>, results: seq<Result>): set<(string, string)>
    requires |batch| == |results|
  {
    set i | 0 <= i < |batch| && !results[i].status.Rejected? && Numbered(batch[i]) :: (batch[i].org, batch[i].source)
  }

  lemma TouchedNext(batch: seq<Record>, results: seq<Result>, i: nat)
    requires i < |batch| == |results|
    ensures Touched(batch[..i + 1], results[..i + 1]) == Touched(batch[..i], results[..i]) +
              if !results[i].status.Rejected? && Numbered(batch[i]) then {(batch[i].org, batch[i].source)} else {}
  {
    TouchedGrows(batch, results[..i + 1], i + 1);
    assert results[..i + 1][..i] == results[..i];
    forall p | p in Touched(batch[..i + 1], results[..i + 1])
      ensures p in Touched(batch[..i], results[..i]) || (!results[i].status.Rejected? && Numbered(batch[i]) && p == (batch[i].org, batch[i].source))
    {
      var k :| 0 <= k < i + 1 && !results[..i + 1][k].status.Rejected? && Numbered(batch[..i + 1][k])
                 && (batch[..i + 1][k].org, batch[..i + 1][k].source) == p;
      assert k < i ==> batch[..i][k] == batch[k] && results[..i][k] == results[k];
    }
  }

  class Service {
    const env: Env
    const pinnedOrg: string
    var tables: Tables

    constructor (env: Env, pinnedOrg: string)
      ensures this.env == env && this.pinnedOrg == pinnedOrg && tables == Tables([], map[])
    {
      this.env, this.pinnedOrg := env, pinnedOrg;
      tables := Tables([], map[]);
    }

    method IngestInto(view: Tables, r: Record, luck: Luck) returns (view': Tables, result: Result, failed: bool)
      ensures Step(view', result, failed) == IngestOne(env, view, r, luck)
    {
      view', failed := view, false;
      var refused := Validate(r);
      if refused.Some? {
        result := Result(r.id, Rejected, refused.value, false);
        return;
      }
      var quarantined := false;
      if r.source != "" && r.num.Some? {
        if luck.fault.OwnerFault? {
          return view, Result(r.id, Rejected, "transient storage failure", true), true;
        }
        var owners := Owners(view.records, r);
        if |owners| > 0 && owners[luck.pick % |owners|] != r.id {
          quarantined := true;
        }
      }
      assert quarantined == Verdict(view.records, r, luck.pick);
      var stored := Insert(env, view.records, r, quarantined, luck.fault);
      if stored.1.Transient? {
        return view.(records := stored.0), Result(r.id, Rejected, "transient storage failure", true), true;
      }
      if stored.1.Swallowed? {
        return view, Result(r.id, Rejected, "internal error", false), false;
      }
      view' := view'.(records := stored.0);
      if r.systemText != "" {
        failed := luck.fault.SessionFault? || luck.fault.SessionLost?;
        if !luck.fault.SessionFault? {
          view' := view'.(sessions := UpsertSession(view.sessions, r));
        }
      }
      if stored.1.Duplicate? {
        result := Result(r.id, Duplicated, "", false);
      } else if quarantined {
        result := Result(r.id, QuarantinedStatus, "source_seq conflict", false);
      } else {
        result := Result(r.id, Accepted, "", false);
      }
    }

    method TryBatch(batch: seq<Record>, s: Script) returns (ok: bool, results: seq<Result>)
      modifies this`tables
      ensures ok == Committed(env, old(tables), batch, s)
      ensures tables == Left(env, old(tables), batch, s)
      ensures ok ==> Run(tables, results, false) == Ingest(env, old(tables), batch, s.inside, |batch|)
    {
      results := [];
      if s.begin {
        return false, results;
      }
      var view := tables;
      for i := 0 to |batch|
        invariant tables == old(tables)
        invariant Run(view, results, false) == Ingest(env, tables, batch, s.inside, i)
      {
        var result, failed;
        view, result, failed := IngestInto(view, batch[i], s.inside(i));
        results := results + [result];
        if failed {
          FailureStays(env, tables, batch, s.inside, i + 1, |batch|);
          return false, results;
        }
      }
      if !s.commit.Refused? {
        tables := view;
      }
      ok := s.commit.Heard?;
    }

    method PerRecord(batch: seq<Record>, luck: nat -> Luck) returns (results: seq<Result>)
      modifies this`tables
      ensures var r := Ingest(env, old(tables), batch, luck, |batch|); tables == r.tables && results == r.results
    {
      results := [];
      for i := 0 to |batch|
        invariant tables == Ingest(env, old(tables), batch, luck, i).tables
        invariant results == Ingest(env, old(tables), batch, luck, i).results
      {
        var view, result, _ := IngestInto(tables, batch[i], luck(i));
        tables, results := view, results + [result];
      }
    }

    method TallyResults(batch: seq<Record>, results: seq<Result>) returns (c: Counters, touched: set<(string, string)>)
      requires |results| == |batch|
      ensures c == Tally(results) && touched == Touched(batch, results)
    {
      c, touched := Counters(0, 0, 0, 0), {};
      assert Touched(batch[..0], results[..0]) == {};
      hide Touched;
      for i := 0 to |results|
        invariant c == Tally(results[..i]) && touched == Touched(batch[..i], results[..i])
      {
        assert results[..i + 1][..i] == results[..i];
        match results[i].status {
          case Accepted => c := c.(accepted := c.accepted + 1);
          case QuarantinedStatus => c := c.(quarantined := c.quarantined + 1);
          case Duplicated => c := c.(duplicated := c.duplicated + 1);
          case Rejected => c := c.(rejected := c.rejected + 1);
        }
        if !results[i].status.Rejected? && batch[i].source != "" && batch[i].num.Some? {
          touched := touched + {(batch[i].org, batch[i].source)};
        }
        TouchedNext(batch, results, i);
      }
      assert results[..|results|] == results && batch[..|batch|] == batch;
    }

    method IngestBatch(batch: seq<Record>, s: Script) returns (c: Counters, touched: set<(string, string)>, results: seq<Result>)
      modifies this`tables
      ensures var r := BatchRun(env, old(tables), Pinned(batch, pinnedOrg), s);
              tables == r.tables && results == r.results
      ensures c == Tally(results) && touched == Touched(Pinned(batch, pinnedOrg), results)
    {
      hide Ingest, Prepared, Touched, Tally;
      var records := batch;
      if pinnedOrg != "" {
        records := seq(|batch|, i requires 0 <= i < |batch| => batch[i].(org := pinnedOrg));
      }
      var ok;
      ok, results := TryBatch(records, s);
      if !ok {
        results := PerRecord(records, s.replay);
      }
      c, touched := TallyResults(records, results);
    }
  }

  lemma {:induction false} FailureStays(env: Env, t: Tables, batch: seq<Record>, luck: nat -> Luck, n: nat, m: nat)
    requires n <= m <= |batch| && Ingest(env, t, batch, luck, n).failed
    ensures Ingest(env, t, batch, luck, m).failed
  {
    if n < m {
      FailureStays(env, t, batch, luck, n, m - 1);
    }
  }

  // ---- ownership ----

  predicate First(records: seq<Stored>, i: int)
    requires 0 <= i < |records|
  {
    forall j :: 0 <= j < i ==> !SameSlot(records[j].rec, records[i].rec)
  }

  /** A stored record is accepted exactly when it is the first in its slot (or has no number). */
  ghost predicate Owned(records: seq<Stored>) {
    forall i :: 0 <= i < |records| ==> (!records[i].quarantined <==> First(records, i))
  }

  /** No stored record of the same event falls on another day. */
  predicate SameDay(records: seq<Stored>, r: Record) {
    forall s :: s in records && s.rec.id == r.id ==> Day(s.rec) == Day(r)
  }

  predicate Inserts(env: Env, records: seq<Stored>, r: Record) {
    Validate(r).None? && env.admits(r) && !KeyTaken(records, r)
  }

  /** A stored row of r's own event, in r's slot. */
  predicate OwnSlotTaken(records: seq<Stored>, r: Record) {
    exists s :: s in records && SameSlot(s.rec, r) && s.rec.id == r.id
  }

  lemma IngestOneShape(env: Env, t: Tables, r: Record, luck: Luck)
    ensures var s := IngestOne(env, t, r, luck);
            && (s.tables.records == t.records
                || (Inserts(env, t.records, r) && s.tables.records == t.records + [Stored(r, Verdict(t.records, r, luck.pick))]))
            && (s.tables.sessions == t.sessions || s.tables.sessions == UpsertSession(t.sessions, r))
  {
    hide Verdict, KeyTaken, DuplicateFound, UpsertSession, Validate;
  }

  /** If the slot's rows all belong to other events, any of them gives the same verdict: quarantined iff the slot is taken. */
  lemma VerdictExact(records: seq<Stored>, r: Record, pick: nat)
    requires forall s :: s in records && SameSlot(s.rec, r) ==> s.rec.id != r.id
    ensures Verdict(records, r, pick) <==> exists s :: s in records && SameSlot(s.rec, r)
  {
    var owners := Owners(records, r);
    if owners != [] {
      assert owners[pick % |owners|] in owners;
    }
  }

  lemma AppendOwned(records: seq<Stored>, r: Record, quarantined: bool)
    requires Owned(records) && (quarantined <==> exists s :: s in records && SameSlot(s.rec, r))
    ensures Owned(records + [Stored(r, quarantined)])
  {
    var after := records + [Stored(r, quarantined)];
    forall i | 0 <= i < |after|
      ensures !after[i].quarantined <==> First(after, i)
    {
      if i < |records| {
        assert forall j :: 0 <= j <= i ==> after[j] == records[j];
        assert First(after, i) <==> First(records, i);
      } else {
        assert forall j :: 0 <= j < i ==> after[j] == records[j];
        assert First(after, i) <==> forall j :: 0 <= j < i ==> !SameSlot(records[j].rec, r);
      }
    }
  }

  lemma IndexOf(ids: seq<string>, id: string) returns (k: nat)
    requires id in ids
    ensures k < |ids| && ids[k] == id
  {
    k :| k < |ids| && ids[k] == id;
  }

  lemma SmallMod(k: nat, n: nat)
    requires k < n
    ensures k % n == k
  {
  }

  lemma OwnPick(records: seq<Stored>, r: Record) returns (k: nat)
    requires OwnSlotTaken(records, r)
    ensures !Verdict(records, r, k)
  {
    var owners := Owners(records, r);
    k := IndexOf(owners, r.id);
    SmallMod(k, |owners|);
  }

  lemma TwoAccepted(records: seq<Stored>, r: Record)
    requires OwnSlotTaken(records, r)
    ensures !Owned(records + [Stored(r, false)])
  {
    var after := records + [Stored(r, false)];
    var s :| s in records && SameSlot(s.rec, r) && s.rec.id == r.id;
    var i :| 0 <= i < |records| && records[i] == s;
    assert SameSlot(after[i].rec, after[|records|].rec);
    assert !First(after, |records|);
  }

  /** A fresh row whose event already holds the slot is accepted when the lookup returns that row: two accepted. */
  lemma SecondAcceptance(env: Env, t: Tables, r: Record) returns (luck: Luck)
    requires Inserts(env, t.records, r) && OwnSlotTaken(t.records, r)
    ensures !Owned(IngestOne(env, t, r, luck).tables.records)
  {
    hide Owned, OwnSlotTaken, Verdict, KeyTaken, DuplicateFound;
    var k := OwnPick(t.records, r);
    luck := Luck(NoFault, k);
    TwoAccepted(t.records, r);
  }

  lemma OwnershipKept(env: Env, t: Tables, r: Record, luck: Luck)
    requires Owned(t.records) && !(Inserts(env, t.records, r) && OwnSlotTaken(t.records, r))
    ensures Owned(IngestOne(env, t, r, luck).tables.records)
  {
    IngestOneShape(env, t, r, luck);
    hide IngestOne, Inserts, Owned, Verdict;
    if IngestOne(env, t, r, luck).tables.records != t.records {
      VerdictExact(t.records, r, luck.pick);
      AppendOwned(t.records, r, Verdict(t.records, r, luck.pick));
    }
  }

  /** Storing keeps ownership, whatever the luck, exactly when no fresh row meets its own event id in its slot. */
  lemma OwnershipKeptIff(env: Env, t: Tables, r: Record)
    requires Owned(t.records)
    ensures (forall luck :: Owned(IngestOne(env, t, r, luck).tables.records))
       <==> !(Inserts(env, t.records, r) && OwnSlotTaken(t.records, r))
  {
    hide IngestOne, Inserts, Owned, OwnSlotTaken;
    if Inserts(env, t.records, r) && OwnSlotTaken(t.records, r) {
      var luck := SecondAcceptance(env, t, r);
      assert !Owned(IngestOne(env, t, r, luck).tables.records);
    } else {
      forall luck
        ensures Owned(IngestOne(env, t, r, luck).tables.records)
      {
        OwnershipKept(env, t, r, luck);
      }
    }
  }

  /** The failing side does occur: from empty tables, an event id sent again with another day holds its slot twice. */
  lemma UnstableDayDoubles(env: Env, r: Record, q: Record)
    requires Validate(r).None? && Validate(q).None? && env.admits(r) && env.admits(q)
    requires q.id == r.id && SameSlot(r, q) && Day(q) != Day(r)
    ensures var u := Ingest(env, Tables([], map[]), [r, q], _ => Luck(NoFault, 0), 2);
            && u.results[0].status.Accepted? && u.results[1].status.Accepted?
            && u.tables.records == [Stored(r, false), Stored(q, false)] && !Owned(u.tables.records)
  {
    hide Day;
    var luck := Luck(NoFault, 0);
    var one := IngestOne(env, Tables([], map[]), r, luck);
    FirstStored(env, r);
    SecondStored(env, one.tables, r, q);
    assert Ingest(env, Tables([], map[]), [r, q], _ => luck, 0) == Run(Tables([], map[]), [], false);
    assert Ingest(env, Tables([], map[]), [r, q], _ => luck, 1) == Run(one.tables, [one.result], one.failed);
    TwoAccepted([Stored(r, false)], q);
  }

  lemma FirstStored(env: Env, r: Record)
    requires Validate(r).None? && env.admits(r)
    ensures var s := IngestOne(env, Tables([], map[]), r, Luck(NoFault, 0));
            s.tables.records == [Stored(r, false)] && s.result.status.Accepted?
  {
    hide Day;
    assert Owners([], r) == [];
  }

  lemma SecondStored(env: Env, t: Tables, r: Record, q: Record)
    requires Validate(q).None? && env.admits(q) && q.id == r.id && SameSlot(r, q) && Day(q) != Day(r)
    requires t.records == [Stored(r, false)]
    ensures var s := IngestOne(env, t, q, Luck(NoFault, 0));
            s.tables.records == [Stored(r, false), Stored(q, false)] && s.result.status.Accepted?
  {
    hide Day;
    assert [Stored(r, false)][..0] == [];
    assert Owners([Stored(r, false)], q) == [r.id];
    assert !Verdict(t.records, q, 0);
  }

  /** Rows are only appended, sessions keep their first text. */
  ghost predicate Grows(a: Tables, b: Tables) {
    a.records <= b.records && forall k :: k in a.sessions ==> k in b.sessions && b.sessions[k] == a.sessions[k]
  }

  /** Everything stored was there before or is one of the given records. */
  ghost predicate From(a: Tables, b: Tables, all: seq<Record>) {
    forall s :: s in b.records ==> s in a.records || s.rec in all
  }

  /** The proxy's contract: an event id keeps its created_at day. */
  ghost predicate StableDays(t: Tables, all: seq<Record>) {
    && (forall r, q :: r in all && q in all && r.id == q.id ==> Day(r) == Day(q))
    && (forall s, r :: s in t.records && r in all && s.rec.id == r.id ==> Day(s.rec) == Day(r))
  }

  lemma IngestOneKeeps(env: Env, t: Tables, r: Record, luck: Luck)
    requires Owned(t.records) && SameDay(t.records, r)
    ensures var u := IngestOne(env, t, r, luck).tables;
            Owned(u.records) && Grows(t, u) && From(t, u, [r])
  {
    IngestOneShape(env, t, r, luck);
    assert Inserts(env, t.records, r) ==> forall s :: s in t.records ==> s.rec.id != r.id;
    OwnershipKept(env, t, r, luck);
  }

  lemma {:induction false} IngestKeeps(env: Env, t0: Tables, t: Tables, all: seq<Record>, batch: seq<Record>, luck: nat -> Luck, n: nat)
    requires n <= |batch| && (forall r :: r in batch ==> r in all)
    requires Owned(t.records) && StableDays(t0, all) && Grows(t0, t) && From(t0, t, all)
    ensures var u := Ingest(env, t, batch, luck, n).tables;
            Owned(u.records) && Grows(t0, u) && From(t0, u, all)
  {
    if n > 0 {
      IngestKeeps(env, t0, t, all, batch, luck, n - 1);
      var mid, r := Ingest(env, t, batch, luck, n - 1).tables, batch[n - 1];
      assert r in all;
      forall s | s in mid.records && s.rec.id == r.id
        ensures Day(s.rec) == Day(r)
      {
        assert s in t0.records || s.rec in all;
      }
      IngestOneKeeps(env, mid, r, luck(n - 1));
      hide IngestOne, Owned;
    }
  }

  // One delivery of a batch, with its luck.
  datatype Post = Post(batch: seq<Record>, script: Script)

  function Serve(env: Env, t: Tables, posts: seq<Post>): Tables {
    if posts == [] then t
    else
      var last := posts[|posts| - 1];
      BatchRun(env, Serve(env, t, posts[..|posts| - 1]), last.batch, last.script).tables
  }

  /**
   Over any series of deliveries, resends and faults included: the first record stored in a slot
   is the accepted one, all others of the slot are quarantined, and sessions keep their first text.
   */
  lemma {:induction false} SeriesKeeps(env: Env, t: Tables, posts: seq<Post>, all: seq<Record>)
    requires Owned(t.records) && StableDays(t, all)
    requires forall p, r :: p in posts && r in p.batch ==> r in all
    ensures var u := Serve(env, t, posts);
            Owned(u.records) && Grows(t, u) && From(t, u, all)
  {
    if posts != [] {
      var front, last := posts[..|posts| - 1], posts[|posts| - 1];
      assert last in posts && forall p :: p in front ==> p in posts;
      SeriesKeeps(env, t, front, all);
      var mid := Serve(env, t, front);
      IngestKeeps(env, t, mid, all, last.batch, last.script.inside, |last.batch|);
      IngestKeeps(env, t, Left(env, mid, last.batch, last.script), all, last.batch, last.script.replay, |last.batch|);
    }
  }

  /** In an owned table every taken slot has exactly one accepted record, its first. */
  lemma {:induction false} OneOwner(records: seq<Stored>, i: nat) returns (j: nat)
    requires Owned(records) && i < |records|
    ensures j <= i && !records[j].quarantined && First(records, j)
    ensures j == i || SameSlot(records[j].rec, records[i].rec)
    ensures forall k :: 0 <= k < |records| && SameSlot(records[k].rec, records[i].rec) && k != j ==> records[k].quarantined
    decreases i
  {
    if First(records, i) {
      j := i;
      forall k | 0 <= k < |records| && SameSlot(records[k].rec, records[i].rec) && k != j
        ensures records[k].quarantined
      {
        assert k > i && SameSlot(records[i].rec, records[k].rec);
        assert !First(records, k);
      }
    } else {
      var h :| 0 <= h < i && SameSlot(records[h].rec, records[i].rec);
      j := OneOwner(records, h);
    }
  }

  // ---- stored exactly once ----

  predicate SameKey(a: Record, b: Record) {
    a.id == b.id && Day(a) == Day(b)
  }

  /** No two stored records share the primary key. */
  ghost predicate Keyed(records: seq<Stored>) {
    forall i, j :: 0 <= i < j < |records| ==> !SameKey(records[i].rec, records[j].rec)
  }

  /** The record is stored under its org, by the first of its deliveries. */
  predicate Recorded(records: seq<Stored>, r: Record) {
    exists s :: s in records && SameKey(s.rec, r) && s.rec.org == r.org
  }

  /** Any answer but `rejected` means the record is stored, and its session's text too unless that write failed. */
  lemma IngestOneStores(env: Env, t: Tables, r: Record, luck: Luck)
    requires !IngestOne(env, t, r, luck).result.status.Rejected?
    ensures var u := IngestOne(env, t, r, luck).tables; Recorded(u.records, r)
    ensures var u, key := IngestOne(env, t, r, luck).tables, SessionKey(r.org, r.session);
            r.systemText != "" ==>
              && (key in u.sessions <==> key in t.sessions || !luck.fault.SessionFault?)
              && (key in u.sessions && key !in t.sessions ==> u.sessions[key] == SessionRow(if r.seat == "" then r.owner else r.seat, r.systemText))
  {
    hide Owners, Day;
    var u := IngestOne(env, t, r, luck).tables;
    if !IngestOne(env, t, r, luck).result.status.Duplicated? {
      assert u.records == t.records + [Stored(r, Verdict(t.records, r, luck.pick))];
      assert u.records[|t.records|] in u.records;
    }
  }

  lemma AppendKeyed(env: Env, t: Tables, r: Record, luck: Luck)
    requires Keyed(t.records)
    ensures var u := IngestOne(env, t, r, luck).tables; Keyed(u.records) && t.records <= u.records
  {
    IngestOneShape(env, t, r, luck);
    hide IngestOne, Verdict, Validate;
  }

  lemma RecordedStays(a: seq<Stored>, b: seq<Stored>, r: Record)
    requires Recorded(a, r) && a <= b
    ensures Recorded(b, r)
  {
  }

  lemma {:induction false} IngestStores(env: Env, t: Tables, batch: seq<Record>, luck: nat -> Luck, n: nat)
    requires n <= |batch| && Keyed(t.records)
    ensures var u := Ingest(env, t, batch, luck, n);
            && Keyed(u.tables.records) && t.records <= u.tables.records
            && forall i :: 0 <= i < n && !u.results[i].status.Rejected? ==> Recorded(u.tables.records, batch[i])
  {
    hide IngestOne, Keyed, Recorded;
    if n > 0 {
      var before, u := Ingest(env, t, batch, luck, n - 1), Ingest(env, t, batch, luck, n);
      IngestStores(env, t, batch, luck, n - 1);
      AppendKeyed(env, before.tables, batch[n - 1], luck(n - 1));
      forall i | 0 <= i < n && !u.results[i].status.Rejected?
        ensures Recorded(u.tables.records, batch[i])
      {
        if i < n - 1 {
          RecordedStays(before.tables.records, u.tables.records, batch[i]);
        } else {
          IngestOneStores(env, before.tables, batch[i], luck(i));
        }
      }
    }
  }

  /** One delivery, whatever becomes of its transaction. */
  lemma BatchStores(env: Env, t: Tables, batch: seq<Record>, s: Script)
    requires Keyed(t.records)
    ensures var u := BatchRun(env, t, batch, s);
            && Keyed(u.tables.records) && t.records <= u.tables.records
            && forall i :: 0 <= i < |batch| && !u.results[i].status.Rejected? ==> Recorded(u.tables.records, batch[i])
  {
    IngestStores(env, t, batch, s.inside, |batch|);
    hide Keyed, Recorded, Ingest;
    IngestStores(env, Left(env, t, batch, s), batch, s.replay, |batch|);
  }

  lemma {:induction false} SeriesGrows(env: Env, t: Tables, posts: seq<Post>, i: nat)
    requires i <= |posts| && Keyed(t.records)
    ensures var mid, u := Serve(env, t, posts[..i]), Serve(env, t, posts);
            Keyed(mid.records) && Keyed(u.records) && mid.records <= u.records
    decreases |posts|
  {
    hide Keyed, BatchRun;
    if posts != [] {
      var front, last := posts[..|posts| - 1], posts[|posts| - 1];
      SeriesGrows(env, t, front, if i < |posts| then i else |posts| - 1);
      BatchStores(env, Serve(env, t, front), last.batch, last.script);
      if i < |posts| {
        assert front[..i] == posts[..i];
      } else {
        assert posts[..i] == posts;
      }
    } else {
      assert posts[..i] == posts;
    }
  }

  /** Over any series of deliveries an acknowledged record is stored, and no record is stored twice. */
  lemma SeriesStores(env: Env, t: Tables, posts: seq<Post>, i: nat, j: nat)
    requires Keyed(t.records) && i < |posts| && j < |posts[i].batch|
    requires !BatchRun(env, Serve(env, t, posts[..i]), posts[i].batch, posts[i].script).results[j].status.Rejected?
    ensures var u := Serve(env, t, posts); Recorded(u.records, posts[i].batch[j]) && Keyed(u.records)
  {
    hide Keyed, BatchRun, SameKey;
    var p, s := posts[i], Serve(env, t, posts[..i]);
    SeriesGrows(env, t, posts, i);
    SeriesGrows(env, t, posts, i + 1);
    assert posts[..i + 1][..i] == posts[..i];
    BatchStores(env, s, p.batch, p.script);
    RecordedStays(Serve(env, t, posts[..i + 1]).records, Serve(env, t, posts).records, p.batch[j]);
  }

  /** A committed transaction met no fault that mattered: it did what a fault-free run does. */
  lemma SilentLuck(env: Env, t: Tables, r: Record, luck: Luck)
    requires !IngestOne(env, t, r, luck).failed
    ensures IngestOne(env, t, r, luck) == IngestOne(env, t, r, luck.(fault := NoFault))
  {
  }

  function Faultless(luck: nat -> Luck): nat -> Luck {
    (i: nat) => luck(i).(fault := NoFault)
  }

  lemma {:induction false} CommittedIsFaultFree(env: Env, t: Tables, batch: seq<Record>, luck: nat -> Luck, n: nat)
    requires n <= |batch| && !Ingest(env, t, batch, luck, n).failed
    ensures Ingest(env, t, batch, luck, n) == Ingest(env, t, batch, Faultless(luck), n)
    ensures forall i :: 0 <= i < n ==> !Ingest(env, t, batch, luck, n).results[i].transient
  {
    if n > 0 {
      var before := Ingest(env, t, batch, luck, n - 1);
      CommittedIsFaultFree(env, t, batch, luck, n - 1);
      SilentLuck(env, before.tables, batch[n - 1], luck(n - 1));
    }
  }

  // ---- what the answer says ----

  /** A record that lacks a field is refused for good, by the first field it lacks, and changes nothing. */
  lemma RefusalExact(env: Env, t: Tables, r: Record, luck: Luck)
    ensures var s := IngestOne(env, t, r, luck);
            var refused := s.result.status.Rejected? && !s.result.transient && s.tables == t && !s.failed;
            && (r.id == "" ==> refused && s.result.reason == "event_id is required")
            && (r.id != "" && r.org == "" ==> refused && s.result.reason == "org_id is required")
            && (r.id != "" && r.org != "" && r.createdAt == 0 ==> refused && s.result.reason == "created_at is required")
            && (r.id != "" && r.org != "" && r.createdAt != 0 && r.requestStatus == "" ==>
                  refused && s.result.reason == "request_status is required")
  {
  }

  /** A stored row of this event id whose created_at falls on the same UTC day. */
  predicate DayTwin(s: Stored, r: Record) {
    s.rec.id == r.id && s.rec.createdAt / (24 * 60 * 60 * 1000) == r.createdAt / (24 * 60 * 60 * 1000)
  }

  /**
   What a complete, admissible record is answered without faults: a twin of its own org makes it a duplicate, one of another
   org an internal error; without a twin it is stored as it is, and the row is quarantined exactly if the answer says so.
   */
  lemma AnswerExact(env: Env, t: Tables, r: Record, pick: nat)
    requires r.id != "" && r.org != "" && r.createdAt != 0 && r.requestStatus != "" && env.admits(r)
    ensures var s := IngestOne(env, t, r, Luck(NoFault, pick));
            var twin := exists x :: x in t.records && DayTwin(x, r);
            var own := exists x :: x in t.records && DayTwin(x, r) && x.rec.org == r.org;
            && (twin ==> s.tables.records == t.records)
            && (own ==> s.result.status.Duplicated?)
            && (twin && !own ==> s.result.status.Rejected? && s.result.reason == "internal error" && !s.result.transient)
            && (!twin ==> s.tables.records == t.records + [Stored(r, s.result.status.QuarantinedStatus?)])
            && (!twin ==> s.result.status.Accepted? || s.result.status.QuarantinedStatus?)
  {
    hide Verdict;
    assert forall x: Stored :: DayTwin(x, r) <==> x.rec.id == r.id && Day(x.rec) == Day(r);
  }

  /** Some stored row of another event has the record's org, source and sequence number. */
  predicate RivalFor(s: Stored, r: Record) {
    && r.source != "" && r.num.Some?
    && s.rec.org == r.org && s.rec.source == r.source && s.rec.num == r.num && s.rec.id != r.id
  }

  /** A record is quarantined only over a rival in its slot, and accepted only without one or beside a row of its own event. */
  lemma QuarantineExact(env: Env, t: Tables, r: Record, luck: Luck)
    ensures var status := IngestOne(env, t, r, luck).result.status;
            && (status.QuarantinedStatus? ==> exists s :: s in t.records && RivalFor(s, r))
            && (status.Accepted? && (forall s :: s in t.records && SameSlot(s.rec, r) ==> s.rec.id != r.id) ==>
                  forall s :: s in t.records ==> !RivalFor(s, r))
  {
    var owners := Owners(t.records, r);
    if owners != [] {
      assert owners[luck.pick % |owners|] in owners;
    }
    if s :| s in t.records && RivalFor(s, r) {
      assert SameSlot(s.rec, r);
    }
    hide KeyTaken, DuplicateFound, UpsertSession, Validate, Owners;
  }

  function CounterOf(c: Counters, status: Status): nat {
    match status
    case Accepted => c.accepted
    case QuarantinedStatus => c.quarantined
    case Duplicated => c.duplicated
    case Rejected => c.rejected
  }

  /** Each counter is the number of results of its status. */
  lemma {:induction false} TallyExact(results: seq<Result>, status: Status)
    ensures CounterOf(Tally(results), status) == |set i | 0 <= i < |results| && results[i].status == status|
  {
    TallyNext(results, status);
    hide Tally, CounterOf;
    var all := set i | 0 <= i < |results| && results[i].status == status;
    if results == [] {
      assert all == {};
    } else {
      var n := |results| - 1;
      TallyExact(results[..n], status);
      SetNext(results, status, n);
    }
  }

  lemma SetNext(results: seq<Result>, status: Status, n: nat)
    requires n == |results| - 1
    ensures var front := set i | 0 <= i < |results[..n]| && results[..n][i].status == status;
            |set i | 0 <= i < |results| && results[i].status == status| == |front| + if results[n].status == status then 1 else 0
  {
    var front := set i | 0 <= i < |results[..n]| && results[..n][i].status == status;
    assert (set i | 0 <= i < |results| && results[i].status == status) == front + if results[n].status == status then {n} else {};
  }

  lemma TallyNext(results: seq<Result>, status: Status)
    ensures results == [] ==> CounterOf(Tally(results), status) == 0
    ensures results != [] ==>
      var n := |results| - 1;
      CounterOf(Tally(results), status) == CounterOf(Tally(results[..n]), status) + if results[n].status == status then 1 else 0
  {
  }

  /** No failing statement goes unnoticed: it fails the transaction, and all but the session's make the record be resent. */
  lemma FaultsSurface(env: Env, t: Tables, r: Record, luck: Luck)
    requires r.id != "" && r.org != "" && r.createdAt != 0 && r.requestStatus != ""
    ensures var s := IngestOne(env, t, r, luck);
            && (luck.fault.OwnerFault? && r.source != "" && r.num.Some? ==> s.result.transient && s.tables == t)
            && (luck.fault.InsertFault? ==> s.result.transient && s.tables == t)
            && (luck.fault.InsertLost? ==> s.result.transient && s.tables.sessions == t.sessions)
            && (luck.fault.VerifyFault? && s.tables == t && (r.systemText == "" || !s.result.status.Duplicated?) ==> s.result.transient)
            && (s.result.transient ==> s.failed && s.result.status.Rejected?)
            && (r.systemText != "" && (luck.fault.SessionFault? || luck.fault.SessionLost?) && !s.result.status.Rejected? ==> s.failed)
  {
    hide Verdict, UpsertSession, Day;
  }

  /** Without faults a complete record that the table does not admit is resent for ever on PostgreSQL, and on SQLite refused unless it is a duplicate. */
  lemma InadmissibleExact(env: Env, t: Tables, r: Record, pick: nat)
    requires r.id != "" && r.org != "" && r.createdAt != 0 && r.requestStatus != "" && !env.admits(r)
    ensures var s := IngestOne(env, t, r, Luck(NoFault, pick));
            && s.tables.records == t.records
            && (env.dialect.Postgres? ==> s.result.transient)
            && (env.dialect.Sqlite? ==>
                  if exists x :: x in t.records && DayTwin(x, r) && x.rec.org == r.org then s.result.status.Duplicated?
                  else s.result.status.Rejected? && !s.result.transient)
  {
    hide Verdict;
    assert forall x: Stored :: DayTwin(x, r) <==> x.rec.id == r.id && Day(x.rec) == Day(r);
  }

  /** A record fails its transaction only by being resent, or by its session's write. */
  lemma FailsOnlyByFault(env: Env, t: Tables, r: Record, luck: Luck)
    ensures IngestOne(env, t, r, luck).failed ==>
              IngestOne(env, t, r, luck).result.transient || (r.systemText != "" && (luck.fault.SessionFault? || luck.fault.SessionLost?))
  {
    hide Verdict, UpsertSession, Insert;
  }

  /**
   A batch's transaction counts exactly when it opened, no record failed it and its commit succeeded. If it did not leave
   anything the batch is just the record-by-record pass; if its commit was durable but unheard, that pass runs over what it left.
   */
  lemma BatchExact(env: Env, t: Tables, batch: seq<Record>, s: Script)
    ensures var r, p := BatchRun(env, t, batch, s), Ingest(env, t, batch, s.inside, |batch|);
            var good := !s.begin && forall k :: 0 <= k < |batch| ==> !FailsAt(env, t, batch, s.inside, k);
            && (good && s.commit.Heard? ==> r == p)
            && (!good || s.commit.Refused? ==> r == Ingest(env, t, batch, s.replay, |batch|))
            && (good && s.commit.Unheard? ==> r == Ingest(env, p.tables, batch, s.replay, |batch|))
  {
    FailedIff(env, t, batch, s.inside, |batch|);
    hide Ingest, FailsAt;
  }

  lemma {:induction false} FailedIff(env: Env, t: Tables, batch: seq<Record>, luck: nat -> Luck, n: nat)
    requires n <= |batch|
    ensures Ingest(env, t, batch, luck, n).failed <==> exists k :: 0 <= k < n && FailsAt(env, t, batch, luck, k)
  {
    FailedNext(env, t, batch, luck, n);
    hide Ingest, FailsAt;
    if n > 0 {
      FailedIff(env, t, batch, luck, n - 1);
    }
  }

  /** Record k fails the pass when its turn comes. */
  predicate FailsAt(env: Env, t: Tables, batch: seq<Record>, luck: nat -> Luck, k: nat)
    requires k < |batch|
  {
    IngestOne(env, Ingest(env, t, batch, luck, k).tables, batch[k], luck(k)).failed
  }

  lemma FailedNext(env: Env, t: Tables, batch: seq<Record>, luck: nat -> Luck, n: nat)
    requires n <= |batch|
    ensures Ingest(env, t, batch, luck, n).failed <==>
            n > 0 && (Ingest(env, t, batch, luck, n - 1).failed || FailsAt(env, t, batch, luck, n - 1))
  {
    hide IngestOne;
  }

  /** With a pinned org every record is filed under it, and only that changes; without one nothing does. */
  lemma PinnedExact(batch: seq<Record>, org: string)
    ensures |Pinned(batch, org)| == |batch|
    ensures forall i :: 0 <= i < |batch| ==>
      var r := Pinned(batch, org)[i];
      r.org == (if org != "" then org else batch[i].org) && r.(org := batch[i].org) == batch[i]
  {
  }

  /** A numbered record that is stored, now or before, has its source's watermark advanced, unless it was answered as rejected. */
  lemma {:induction false} StoredTouched(env: Env, t: Tables, batch: seq<Record>, luck: nat -> Luck, n: nat, j: nat)
    requires n <= |batch| && |t.records| <= j < |Ingest(env, t, batch, luck, n).tables.records|
    ensures var u := Ingest(env, t, batch, luck, n);
            exists i :: 0 <= i < n && u.tables.records[j].rec == batch[i]
              && (batch[i].source != "" && batch[i].num.Some? ==>
                    (batch[i].org, batch[i].source) in Touched(batch[..n], u.results) || (luck(i).fault.InsertLost? && u.results[i].transient))
  {
    hide IngestOne, Touched;
    var before, u := Ingest(env, t, batch, luck, n - 1), Ingest(env, t, batch, luck, n);
    NewRecord(env, before.tables, batch[n - 1], luck(n - 1));
    TouchedGrows(batch, u.results, n);
    assert u.results[..n - 1] == before.results;
    if j < |before.tables.records| {
      StoredTouched(env, t, batch, luck, n - 1, j);
      var i :| 0 <= i < n - 1 && before.tables.records[j].rec == batch[i]
        && (batch[i].source != "" && batch[i].num.Some? ==>
              (batch[i].org, batch[i].source) in Touched(batch[..n - 1], before.results) || (luck(i).fault.InsertLost? && before.results[i].transient));
      assert u.results[i] == before.results[i] && u.tables.records[j] == before.tables.records[j];
    } else {
      assert u.tables.records[j].rec == batch[n - 1];
    }
  }

  /** One record adds at most its own row, and then it is not rejected unless the insert's reply was lost. */
  lemma NewRecord(env: Env, t: Tables, r: Record, luck: Luck)
    ensures var s := IngestOne(env, t, r, luck);
            && t.records <= s.tables.records && |s.tables.records| <= |t.records| + 1
            && (|s.tables.records| > |t.records| ==>
                  && s.tables.records[|t.records|].rec == r
                  && (!s.result.status.Rejected? || (luck.fault.InsertLost? && s.result.transient)))
  {
    hide Verdict, UpsertSession, KeyTaken, DuplicateFound, Validate;
  }

  lemma TouchedGrows(batch: seq<Record>, results: seq<Result>, n: nat)
    requires 0 < n <= |batch| && |results| == n
    ensures Touched(batch[..n - 1], results[..n - 1]) <= Touched(batch[..n], results)
    ensures !results[n - 1].status.Rejected? && batch[n - 1].source != "" && batch[n - 1].num.Some? ==>
              (batch[n - 1].org, batch[n - 1].source) in Touched(batch[..n], results)
  {
    assert batch[..n][..n - 1] == batch[..n - 1];
    forall p | p in Touched(batch[..n - 1], results[..n - 1])
      ensures p in Touched(batch[..n], results)
    {
      var k :| 0 <= k < n - 1 && !results[..n - 1][k].status.Rejected? && Numbered(batch[..n - 1][k]) && (batch[..n - 1][k].org, batch[..n - 1][k].source) == p;
      assert batch[..n][k] == batch[k] && results[k] == results[..n - 1][k];
    }
    assert batch[..n][n - 1] == batch[n - 1];
  }

  /** What else an answer says: the record's id, and a reason unless it is stored or a duplicate. */
  lemma ResultExact(env: Env, t: Tables, r: Record, luck: Luck)
    ensures var x := IngestOne(env, t, r, luck).result;
            && x.id == r.id
            && (x.status.Accepted? || x.status.Duplicated? ==> x.reason == "")
            && (x.status.QuarantinedStatus? ==> x.reason == "source_seq conflict")
            && (x.transient ==> x.status.Rejected? && x.reason == "transient storage failure")
  {
    hide Verdict, UpsertSession, Insert;
  }
}
