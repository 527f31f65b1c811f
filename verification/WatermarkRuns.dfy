/**
 Whole runs of the watermark operations, each operation taken as one step: where repeated
 advances end up, what reaches the known-loss ledger, and how reconciliation converges.
 */
module WatermarkRuns {
  import opened Sets
  import opened WatermarkStore

  // ---- where the zipper ends ----

  /** n is the largest number such that everything in (from, n] is present. */
  ghost predicate IsFrontier(present: set<int>, from: int, n: int) {
    && from <= n
    && (forall q :: from < q <= n ==> q in present)
    && n + 1 !in present
  }

  function Frontier(present: set<int>, from: int): (n: int)
    ensures IsFrontier(present, from, n)
  {
    Zip(present, from, MaxSeq(present))
  }

  /** n * k, kept linear for the proofs below. */
  function Times(n: nat, k: int): int {
    if n == 0 then 0 else Times(n - 1, k) + k
  }

  lemma {:induction false} TimesIsProduct(n: nat, k: int)
    ensures Times(n, k) == n * k
  {
    if n > 0 {
      TimesIsProduct(n - 1, k);
    }
  }

  function AdvanceTimes(lane: Lane, L: nat, s: Store, key: Key, n: nat): Store {
    if n == 0 then s else Advance(lane, L, AdvanceTimes(lane, L, s, key, n - 1), key, 0)
  }

  /** One advance moves to the frontier or by one whole window, whichever is nearer. */
  lemma AdvanceMoves(lane: Lane, L: nat, s: Store, key: Key, issued: int)
    ensures var t := Advance(lane, L, s, key, issued);
            && t.ods == s.ods && t.ledger == s.ledger
            && Contiguous(t, key) == Min(Frontier(Seen(lane, s, key), Contiguous(s, key)), Contiguous(s, key) + L)
  {
    hide Seen, MaxSeq;
    var present, c := Seen(lane, s, key), Contiguous(s, key);
    var window := Window(present, c, c + L);
    var r, f := Zip(window, c, c + L), Frontier(present, c);
    assert f < r ==> f + 1 in window;
    assert r < f && r < c + L ==> r + 1 in present;
  }

  /** n windowed advances move at most n windows, and never past the frontier. */
  lemma {:induction false} AdvanceTimesReaches(lane: Lane, L: nat, s: Store, key: Key, n: nat)
    ensures var t := AdvanceTimes(lane, L, s, key, n);
            && t.ods == s.ods && t.ledger == s.ledger
            && Contiguous(t, key) == Min(Frontier(Seen(lane, s, key), Contiguous(s, key)), Contiguous(s, key) + Times(n, L))
  {
    hide Advance, Contiguous;
    if n > 0 {
      AdvanceTimesReaches(lane, L, s, key, n - 1);
      TimesPositive(n - 1, L);
      var t := AdvanceTimes(lane, L, s, key, n - 1);
      AdvanceMoves(lane, L, t, key, 0);
    }
  }

  lemma TimesPositive(n: nat, k: nat)
    ensures Times(n, k) >= 0
  {
  }

  /** Repeating the advance settles on the frontier once the calls span the gap in windows, and stays there. */
  lemma AdvanceSettles(lane: Lane, L: nat, s: Store, key: Key, n: nat)
    requires n * L >= Frontier(Seen(lane, s, key), Contiguous(s, key)) - Contiguous(s, key)
    ensures Contiguous(AdvanceTimes(lane, L, s, key, n), key) == Frontier(Seen(lane, s, key), Contiguous(s, key))
  {
    TimesIsProduct(n, L);
    AdvanceTimesReaches(lane, L, s, key, n);
  }

  // ---- runs ----

  datatype Op =
    | Arrive(d: Delivery)
    | Bump(key: Key, issued: int)
    | Record(key: Key, seqs: seq<int>)
    | Confirm(key: Key, seqs: seq<int>)
    | Promotion(key: Key, lo: int, hi: int)
    | Declare(key: Key, floor: int)

  function Do(lane: Lane, L: nat, s: Store, op: Op): Store {
    match op
    case Arrive(d) => s.(ods := s.ods + {d})
    case Bump(key, issued) => Advance(lane, L, s, key, issued)
    case Record(key, seqs) => RecordLoss(lane, L, s, key, seqs)
    case Confirm(key, seqs) => ConfirmLost(lane, L, s, key, seqs).0
    case Promotion(key, lo, hi) => Promote(lane, L, s, key, lo, hi)
    case Declare(key, floor) => if floor > 0 then ApplyFloor(s, key, floor).0 else s
  }

  function Run(lane: Lane, L: nat, ops: seq<Op>): Store {
    if ops == [] then EMPTY else Do(lane, L, Run(lane, L, ops[..|ops| - 1]), ops[|ops| - 1])
  }

  /** The numbers a run of arrivals, recorded losses and advances names for `key`, as a set: order, repetition and org are gone. */
  function Named(lane: Lane, ops: seq<Op>, key: Key): set<int> {
    if ops == [] then {}
    else
      var op := ops[|ops| - 1];
      Named(lane, ops[..|ops| - 1], key) +
      match op
      case Arrive(d) => if Visible(lane, d.key, key) then {d.num} else {}
      case Record(k, seqs) => if Visible(lane, k, key) then Elements(seqs) else {}
      case _ => {}
  }

  /** No confirmation or promotion, whose effect depends on what is there when it happens. */
  predicate Plain(ops: seq<Op>) {
    forall op :: op in ops ==> op.Arrive? || op.Bump? || op.Record? || op.Declare?
  }

  /** The highest floor a run declares for `key`. */
  function Declared(ops: seq<Op>, key: Key): int {
    if ops == [] then 0
    else
      var op := ops[|ops| - 1];
      Max(Declared(ops[..|ops| - 1], key), if op.Declare? && op.key == key then op.floor else 0)
  }

  lemma OdsSeqsArrive(lane: Lane, ods: set<Delivery>, d: Delivery, key: Key)
    ensures OdsSeqs(lane, ods + {d}, key) == OdsSeqs(lane, ods, key) + if Visible(lane, d.key, key) then {d.num} else {}
  {
  }

  lemma LedgerSeqsRecord(lane: Lane, s: Store, k: Key, seqs: seq<int>, key: Key)
    ensures LedgerSeqs(lane, s.ledger + Losses(k, seqs), key)
         == LedgerSeqs(lane, s.ledger, key) + if Visible(lane, k, key) then Elements(seqs) else {}
  {
    var t := s.(ledger := s.ledger + Losses(k, seqs));
    forall q | q in LedgerSeqs(lane, s.ledger, key) + if Visible(lane, k, key) then Elements(seqs) else {}
      ensures q in LedgerSeqs(lane, t.ledger, key)
    {
      if q in LedgerSeqs(lane, s.ledger, key) {
        var l :| l in s.ledger && Visible(lane, l.key, key) && l.num == q;
        assert l in t.ledger;
      } else {
        assert Loss(k, q) in t.ledger;
      }
    }
  }

  /** What one such operation adds to the numbers accounted for. */
  lemma SeenNext(lane: Lane, L: nat, s: Store, op: Op, key: Key)
    requires op.Arrive? || op.Bump? || op.Record? || op.Declare?
    ensures Seen(lane, Do(lane, L, s, op), key) == Seen(lane, s, key) +
              match op
              case Arrive(d) => if Visible(lane, d.key, key) then {d.num} else {}
              case Record(k, seqs) => if Visible(lane, k, key) then Elements(seqs) else {}
              case _ => {}
  {
    var t := Do(lane, L, s, op);
    match op
    case Arrive(d) => OdsSeqsArrive(lane, s.ods, d, key);
    case Record(k, seqs) =>
      LedgerSeqsRecord(lane, s, k, seqs, key);
      assert Seen(lane, t, key) == Seen(lane, s.(ledger := s.ledger + Losses(k, seqs)), key);
    case Bump(_, _) => assert Seen(lane, t, key) == Seen(lane, s, key);
    case Declare(_, _) => assert Seen(lane, t, key) == Seen(lane, s, key);
    case _ =>
  }

  lemma {:induction false} SeenIsNamed(lane: Lane, L: nat, ops: seq<Op>, key: Key)
    requires Plain(ops)
    ensures Seen(lane, Run(lane, L, ops), key) == Named(lane, ops, key)
  {
    hide Do, Visible;
    if ops != [] {
      SeenIsNamed(lane, L, ops[..|ops| - 1], key);
      assert ops[|ops| - 1] in ops;
      SeenNext(lane, L, Run(lane, L, ops[..|ops| - 1]), ops[|ops| - 1], key);
    } else {
      assert Seen(lane, EMPTY, key) == {};
    }
  }

  /** The watermark is at or above its floor, and covers only numbers that are there or below the floor. */
  ghost predicate Covers(lane: Lane, s: Store, key: Key) {
    && 0 <= Floor(s, key) <= Contiguous(s, key)
    && forall q :: Floor(s, key) < q <= Contiguous(s, key) ==> q in Seen(lane, s, key)
  }

  /** Nothing is taken back. */
  ghost predicate Rises(s: Store, t: Store, key: Key) {
    && Contiguous(s, key) <= Contiguous(t, key)
    && Floor(s, key) <= Floor(t, key)
  }

  lemma CoversGrows(lane: Lane, s: Store, t: Store, key: Key)
    requires Covers(lane, s, key) && s.ods <= t.ods && s.ledger <= t.ledger && s.marks == t.marks
    ensures Covers(lane, t, key) && Rises(s, t, key)
  {
    SeenGrows(lane, s, t, key);
  }

  lemma AdvanceCovers(lane: Lane, L: nat, s: Store, k: Key, issued: int, key: Key)
    requires Covers(lane, s, key)
    ensures var t := Advance(lane, L, s, k, issued);
            Covers(lane, t, key) && Rises(s, t, key) && Floor(t, key) == Floor(s, key)
  {
    var t := Advance(lane, L, s, k, issued);
    assert Seen(lane, t, key) == Seen(lane, s, key);
    var base := Contiguous(s, k);
    var window := Window(Seen(lane, s, k), base, base + L);
    if k == key {
      forall q | base < q <= Zip(window, base, base + L)
        ensures q in Seen(lane, s, key)
      {
        assert q in window;
      }
    }
  }

  lemma RecordCovers(lane: Lane, L: nat, s: Store, k: Key, seqs: seq<int>, key: Key)
    requires Covers(lane, s, key)
    ensures var t := RecordLoss(lane, L, s, k, seqs);
            Covers(lane, t, key) && Rises(s, t, key) && Floor(t, key) == Floor(s, key)
  {
    var mid := s.(ledger := s.ledger + Losses(k, seqs));
    CoversGrows(lane, s, mid, key);
    AdvanceCovers(lane, L, mid, k, 0, key);
  }

  lemma DoCovers(lane: Lane, L: nat, s: Store, op: Op, key: Key)
    requires Covers(lane, s, key)
    ensures var t := Do(lane, L, s, op);
            && Covers(lane, t, key) && Rises(s, t, key)
            && Floor(t, key) == Max(Floor(s, key), if op.Declare? && op.key == key then op.floor else 0)
  {
    hide RecordLoss, Advance, Eligible;
    match op
    case Arrive(d) => CoversGrows(lane, s, Do(lane, L, s, op), key);
    case Bump(k, issued) => AdvanceCovers(lane, L, s, k, issued, key);
    case Record(k, seqs) => RecordCovers(lane, L, s, k, seqs, key);
    case Confirm(k, seqs) =>
      AdvanceCovers(lane, L, s, k, 0, key);
      RecordCovers(lane, L, s, k, Eligible(lane, s, k, seqs), key);
    case Promotion(k, lo, hi) => RecordCovers(lane, L, s, k, Enumerate(lane, L, s, k, lo, hi), key);
    case Declare(_, _) => assert Seen(lane, Do(lane, L, s, op), key) == Seen(lane, s, key);
  }

  /**
   Over every run of whole operations: the floor is the highest one declared, the watermark is at or above it and
   covers nothing that is not there, and neither of the two ever goes back.
   */
  lemma {:induction false} RunCovers(lane: Lane, L: nat, ops: seq<Op>, i: nat, key: Key)
    requires i <= |ops|
    ensures var s, t := Run(lane, L, ops[..i]), Run(lane, L, ops);
            && Floor(t, key) == Declared(ops, key)
            && 0 <= Floor(t, key) <= Contiguous(t, key)
            && (forall q :: Floor(t, key) < q <= Contiguous(t, key) ==> q in Seen(lane, t, key))
            && Contiguous(s, key) <= Contiguous(t, key) && Floor(s, key) <= Floor(t, key)
  {
    hide Do, Seen;
    if i == |ops| {
      assert ops[..i] == ops;
      if ops != [] {
        RunCovers(lane, L, ops[..|ops| - 1], |ops| - 1, key);
        DoCovers(lane, L, Run(lane, L, ops[..|ops| - 1]), ops[|ops| - 1], key);
      }
    } else {
      var front := ops[..|ops| - 1];
      RunCovers(lane, L, front, i, key);
      assert front[..i] == ops[..i];
      DoCovers(lane, L, Run(lane, L, front), ops[|ops| - 1], key);
    }
  }

  /** After any run, enough advances settle on the end of the connected run that starts at the declared floor. */
  lemma SettlesOnSeen(lane: Lane, L: nat, ops: seq<Op>, key: Key, n: nat)
    requires n * L >= Frontier(Seen(lane, Run(lane, L, ops), key), Declared(ops, key)) - Contiguous(Run(lane, L, ops), key)
    ensures Contiguous(AdvanceTimes(lane, L, Run(lane, L, ops), key, n), key)
         == Frontier(Seen(lane, Run(lane, L, ops), key), Declared(ops, key))
  {
    hide Run, Declared, AdvanceTimes;
    var s := Run(lane, L, ops);
    RunCovers(lane, L, ops, |ops|, key);
    AdvanceSettles(lane, L, s, key, n);
  }

  /**
   Confluence. Two runs of any operations that account for the same numbers and declare the same highest floor settle
   on the same watermark, whatever their order, repetitions, batches and (in the usage stream) orgs.
   */
  lemma Confluence(lane: Lane, L: nat, ops1: seq<Op>, key1: Key, n1: nat, ops2: seq<Op>, key2: Key, n2: nat)
    requires Seen(lane, Run(lane, L, ops1), key1) == Seen(lane, Run(lane, L, ops2), key2)
    requires Declared(ops1, key1) == Declared(ops2, key2)
    requires n1 * L >= Frontier(Seen(lane, Run(lane, L, ops1), key1), Declared(ops1, key1)) - Contiguous(Run(lane, L, ops1), key1)
    requires n2 * L >= Frontier(Seen(lane, Run(lane, L, ops2), key2), Declared(ops2, key2)) - Contiguous(Run(lane, L, ops2), key2)
    ensures var n := Contiguous(AdvanceTimes(lane, L, Run(lane, L, ops1), key1, n1), key1);
            && n == Contiguous(AdvanceTimes(lane, L, Run(lane, L, ops2), key2, n2), key2)
            && IsFrontier(Seen(lane, Run(lane, L, ops1), key1), Declared(ops1, key1), n)
  {
    hide Run, Declared, AdvanceTimes, Seen, Contiguous;
    SettlesOnSeen(lane, L, ops1, key1, n1);
    SettlesOnSeen(lane, L, ops2, key2, n2);
  }

  /** Without confirmations and promotions the numbers accounted for are those the run names, so those decide. */
  lemma PlainConfluence(lane: Lane, L: nat, ops1: seq<Op>, key1: Key, n1: nat, ops2: seq<Op>, key2: Key, n2: nat)
    requires Plain(ops1) && Plain(ops2)
    requires Named(lane, ops1, key1) == Named(lane, ops2, key2) && Declared(ops1, key1) == Declared(ops2, key2)
    requires n1 * L >= Frontier(Named(lane, ops1, key1), Declared(ops1, key1)) - Contiguous(Run(lane, L, ops1), key1)
    requires n2 * L >= Frontier(Named(lane, ops2, key2), Declared(ops2, key2)) - Contiguous(Run(lane, L, ops2), key2)
    ensures var n := Contiguous(AdvanceTimes(lane, L, Run(lane, L, ops1), key1, n1), key1);
            && n == Contiguous(AdvanceTimes(lane, L, Run(lane, L, ops2), key2, n2), key2)
            && IsFrontier(Named(lane, ops1, key1), Declared(ops1, key1), n)
  {
    SeenIsNamed(lane, L, ops1, key1);
    SeenIsNamed(lane, L, ops2, key2);
    hide *;
    Confluence(lane, L, ops1, key1, n1, ops2, key2, n2);
  }

  /** In the usage stream the rows of two orgs of one source settle on the same watermark, once they declare the same floor. */
  lemma OrgsConverge(L: nat, ops: seq<Op>, org1: string, org2: string, source: string, n1: nat, n2: nat)
    requires Declared(ops, Key(org1, source)) == Declared(ops, Key(org2, source))
    requires var s, end := Run(Usage, L, ops), Frontier(Seen(Usage, Run(Usage, L, ops), Key(org1, source)), Declared(ops, Key(org1, source)));
             n1 * L >= end - Contiguous(s, Key(org1, source)) && n2 * L >= end - Contiguous(s, Key(org2, source))
    ensures var s := Run(Usage, L, ops);
            Contiguous(AdvanceTimes(Usage, L, s, Key(org1, source), n1), Key(org1, source))
            == Contiguous(AdvanceTimes(Usage, L, s, Key(org2, source), n2), Key(org2, source))
  {
    var key1, key2, s := Key(org1, source), Key(org2, source), Run(Usage, L, ops);
    assert Seen(Usage, s, key1) == Seen(Usage, s, key2);
    hide *;
    Confluence(Usage, L, ops, key1, n1, ops, key2, n2);
  }

  // ---- what other rows' operations do to a row ----

  function RowOf(op: Op): Key {
    if op.Arrive? then op.d.key else op.key
  }

  /** The operations of a run that are under the kept keys. */
  function Only(ops: seq<Op>, keep: Key -> bool): seq<Op> {
    if ops == [] then []
    else
      var front, op := Only(ops[..|ops| - 1], keep), ops[|ops| - 1];
      if keep(RowOf(op)) then front + [op] else front
  }

  /** The tables without the rows of other keys. */
  function Restrict(s: Store, keep: Key -> bool): Store {
    Store(set d | d in s.ods && keep(d.key), set l | l in s.ledger && keep(l.key), map k | k in s.marks && keep(k) :: s.marks[k])
  }

  /** In the usage stream whole sources are kept; in the conversation stream any keys may be. */
  ghost predicate Separates(lane: Lane, keep: Key -> bool) {
    lane.Usage? ==> forall k: Key, l: Key :: k.source == l.source ==> keep(k) == keep(l)
  }

  lemma RestrictSees(lane: Lane, s: Store, keep: Key -> bool, key: Key)
    requires Separates(lane, keep) && keep(key)
    ensures var t := Restrict(s, keep);
            && OdsSeqs(lane, t.ods, key) == OdsSeqs(lane, s.ods, key) && Seen(lane, t, key) == Seen(lane, s, key)
            && (key in t.marks <==> key in s.marks) && (key in s.marks ==> t.marks[key] == s.marks[key])
  {
    var t := Restrict(s, keep);
    forall d | d in s.ods && Visible(lane, d.key, key)
      ensures d in t.ods
    {
      assert lane.Conversation? ==> d.key == key;
    }
    forall l | l in s.ledger && Visible(lane, l.key, key)
      ensures l in t.ledger
    {
      assert lane.Conversation? ==> l.key == key;
    }
  }

  lemma RestrictAdvance(lane: Lane, L: nat, s: Store, keep: Key -> bool, key: Key, issued: int)
    requires Separates(lane, keep)
    ensures var t := Advance(lane, L, s, key, issued);
            Restrict(t, keep) == if keep(key) then Advance(lane, L, Restrict(s, keep), key, issued) else Restrict(s, keep)
  {
    hide OdsSeqs, Seen, Zip, Window, MaxSeq, Separates;
    if keep(key) {
      RestrictSees(lane, s, keep, key);
      assert Contiguous(Restrict(s, keep), key) == Contiguous(s, key);
      assert Restrict(Advance(lane, L, s, key, issued), keep).marks == Advance(lane, L, Restrict(s, keep), key, issued).marks;
    } else {
      assert Restrict(Advance(lane, L, s, key, issued), keep).marks == Restrict(s, keep).marks;
    }
  }

  lemma RestrictRecord(lane: Lane, L: nat, s: Store, keep: Key -> bool, key: Key, seqs: seq<int>)
    requires Separates(lane, keep)
    ensures var t := RecordLoss(lane, L, s, key, seqs);
            Restrict(t, keep) == if keep(key) then RecordLoss(lane, L, Restrict(s, keep), key, seqs) else Restrict(s, keep)
  {
    hide Separates, Advance;
    var mid := s.(ledger := s.ledger + Losses(key, seqs));
    RestrictAdvance(lane, L, mid, keep, key, 0);
    if keep(key) {
      assert Restrict(mid, keep).ledger == Restrict(s, keep).ledger + Losses(key, seqs);
      assert Restrict(mid, keep) == Restrict(s, keep).(ledger := Restrict(s, keep).ledger + Losses(key, seqs));
    } else {
      assert Restrict(mid, keep).ledger == Restrict(s, keep).ledger;
    }
  }

  lemma {:induction false} RestrictEligible(lane: Lane, s: Store, keep: Key -> bool, key: Key, seqs: seq<int>)
    requires Separates(lane, keep) && keep(key)
    ensures Eligible(lane, Restrict(s, keep), key, seqs) == Eligible(lane, s, key, seqs)
  {
    hide Seen, Separates;
    if seqs != [] {
      RestrictEligible(lane, s, keep, key, seqs[..|seqs| - 1]);
      RestrictSees(lane, s, keep, key);
    }
  }

  lemma RestrictDo(lane: Lane, L: nat, s: Store, keep: Key -> bool, op: Op)
    requires Separates(lane, keep)
    ensures Restrict(Do(lane, L, s, op), keep) == if keep(RowOf(op)) then Do(lane, L, Restrict(s, keep), op) else Restrict(s, keep)
  {
    hide Separates, Advance, RecordLoss, Seen, Eligible, Missing;
    match op
    case Arrive(d) => assert Restrict(Do(lane, L, s, op), keep).ods == if keep(d.key) then Restrict(s, keep).ods + {d} else Restrict(s, keep).ods;
    case Bump(key, issued) => RestrictAdvance(lane, L, s, keep, key, issued);
    case Record(key, seqs) => RestrictRecord(lane, L, s, keep, key, seqs);
    case Confirm(key, seqs) =>
      if keep(key) {
        RestrictEligible(lane, s, keep, key, seqs);
      }
      RestrictAdvance(lane, L, s, keep, key, 0);
      RestrictRecord(lane, L, s, keep, key, Eligible(lane, s, key, seqs));
    case Promotion(key, lo, hi) =>
      if keep(key) {
        RestrictSees(lane, s, keep, key);
      }
      RestrictRecord(lane, L, s, keep, key, Enumerate(lane, L, s, key, lo, hi));
    case Declare(key, floor) => RestrictDeclare(s, keep, key, floor);
  }

  lemma RestrictDeclare(s: Store, keep: Key -> bool, key: Key, floor: int)
    ensures Restrict(ApplyFloor(s, key, floor).0, keep) == if keep(key) then ApplyFloor(Restrict(s, keep), key, floor).0 else Restrict(s, keep)
  {
    var t := ApplyFloor(s, key, floor).0;
    assert Restrict(t, keep).marks == if keep(key) then ApplyFloor(Restrict(s, keep), key, floor).0.marks else Restrict(s, keep).marks;
  }

  /**
   Rows do not disturb one another. What a run leaves under the kept keys is what it leaves when all other operations are
   removed from it: in the conversation stream for any keys, so for one org or one row alone; in the usage stream for sources.
   */
  lemma {:induction false} OthersDoNotMatter(lane: Lane, L: nat, ops: seq<Op>, keep: Key -> bool)
    requires Separates(lane, keep)
    ensures Restrict(Run(lane, L, ops), keep) == Run(lane, L, Only(ops, keep))
  {
    hide Do, Separates;
    if ops == [] {
      assert Restrict(EMPTY, keep) == EMPTY;
    } else {
      var front, op := ops[..|ops| - 1], ops[|ops| - 1];
      OthersDoNotMatter(lane, L, front, keep);
      RestrictDo(lane, L, Run(lane, L, front), keep, op);
      RunSnoc(lane, L, Only(front, keep), op);
    }
  }

  /** A conversation row's watermark, floor and settled value are those of the run without the other orgs' operations. */
  lemma OrgsApart(L: nat, ops: seq<Op>, key: Key, n: nat)
    ensures var s, t := Run(Conversation, L, ops), Run(Conversation, L, Only(ops, (k: Key) => k.org == key.org));
            && Contiguous(t, key) == Contiguous(s, key) && Floor(t, key) == Floor(s, key)
            && Contiguous(AdvanceTimes(Conversation, L, t, key, n), key) == Contiguous(AdvanceTimes(Conversation, L, s, key, n), key)
  {
    var keep := (k: Key) => k.org == key.org;
    var s, t := Run(Conversation, L, ops), Run(Conversation, L, Only(ops, keep));
    OthersDoNotMatter(Conversation, L, ops, keep);
    hide Run, Only, AdvanceTimes, Frontier, Times, Seen, OdsSeqs;
    RestrictSees(Conversation, s, keep, key);
    SettleAlike(Conversation, L, s, t, key, n);
  }

  lemma SettleAlike(lane: Lane, L: nat, s: Store, t: Store, key: Key, n: nat)
    requires Seen(lane, s, key) == Seen(lane, t, key) && Contiguous(s, key) == Contiguous(t, key)
    ensures Contiguous(AdvanceTimes(lane, L, s, key, n), key) == Contiguous(AdvanceTimes(lane, L, t, key, n), key)
  {
    hide *;
    AdvanceTimesReaches(lane, L, s, key, n);
    AdvanceTimesReaches(lane, L, t, key, n);
  }

  // ---- what reaches the ledger ----

  predicate Distinct(seqs: seq<int>) {
    forall i, j :: 0 <= i < j < |seqs| ==> seqs[i] != seqs[j]
  }

  lemma {:induction false} ElementCount(seqs: seq<int>)
    ensures |Elements(seqs)| <= |seqs|
    ensures |Elements(seqs)| == |seqs| <==> Distinct(seqs)
  {
    if seqs != [] {
      var front, last := seqs[..|seqs| - 1], seqs[|seqs| - 1];
      ElementCount(front);
      assert seqs == front + [last];
      assert Elements(seqs) == Elements(front) + {last};
      if last in front {
        assert Elements(seqs) == Elements(front);
        var i :| 0 <= i < |front| && front[i] == last;
        assert seqs[i] == seqs[|seqs| - 1];
      } else {
        assert Distinct(front) ==> Distinct(seqs);
        assert Distinct(seqs) ==> Distinct(front);
      }
    }
  }

  lemma LossesCount(key: Key, seqs: seq<int>)
    ensures |Losses(key, seqs)| == |Elements(seqs)|
  {
    var f := q => Loss(key, q);
    forall l | l in Losses(key, seqs)
      ensures exists q :: q in Elements(seqs) && f(q) == l
    {
      assert l.num in Elements(seqs) && f(l.num) == l;
    }
    Bijection(Elements(seqs), Losses(key, seqs), f);
  }

  /**
   ConfirmLost ledgers exactly the declared numbers that are absent everywhere, positive and not above the ceiling. The
   count it reports is that growth exactly when no accepted number was declared twice; otherwise it is larger.
   */
  lemma ConfirmLostCount(lane: Lane, L: nat, s: Store, key: Key, seqs: seq<int>)
    ensures var (t, promoted) := ConfirmLost(lane, L, s, key, seqs);
            && (forall l :: l in t.ledger && l !in s.ledger <==>
                  l.key == key && l.num in seqs && 0 < l.num <= Ceiling(s, key) && l.num !in Seen(lane, s, key))
            && |t.ledger - s.ledger| <= promoted
            && (|t.ledger - s.ledger| == promoted <==> Distinct(Eligible(lane, s, key, seqs)))
  {
    var absent := Eligible(lane, s, key, seqs);
    var (t, promoted) := ConfirmLost(lane, L, s, key, seqs);
    assert absent == [] ==> Losses(key, absent) == {};
    assert t.ledger == s.ledger + Losses(key, absent);
    forall l | l in Losses(key, absent)
      ensures l !in s.ledger
    {
      assert l.num in absent && l.num !in LedgerSeqs(lane, s.ledger, key);
    }
    assert t.ledger - s.ledger == Losses(key, absent);
    LossesCount(key, absent);
    ElementCount(absent);
  }

  /** A reachable overcount: one hole, declared twice in one call, reports two promotions and ledgers one. */
  lemma ConfirmLostOvercounts(lane: Lane, L: nat, key: Key)
    ensures var s := Run(lane, L, [Bump(key, 1)]);
            var (t, promoted) := ConfirmLost(lane, L, s, key, [1, 1]);
            promoted == 2 && |t.ledger - s.ledger| == 1
  {
    RunSnoc(lane, L, [], Bump(key, 1));
    assert [] + [Bump(key, 1)] == [Bump(key, 1)];
    hide Do, Run, Advance, ConfirmLost;
    DoubleDeclared(lane, L, Run(lane, L, [Bump(key, 1)]), key);
  }

  lemma DoubleDeclared(lane: Lane, L: nat, s: Store, key: Key)
    requires s.ods == {} && s.ledger == {} && Ceiling(s, key) == 1
    ensures var (t, promoted) := ConfirmLost(lane, L, s, key, [1, 1]);
            promoted == 2 && |t.ledger - s.ledger| == 1
  {
    TwiceEligible(lane, s, key);
    hide Zip, Upsert, MaxSeq, Window, Eligible, Ceiling;
    assert Losses(key, [1, 1]) == {Loss(key, 1)};
    assert ConfirmLost(lane, L, s, key, [1, 1]).0.ledger - s.ledger == {Loss(key, 1)};
  }

  lemma TwiceEligible(lane: Lane, s: Store, key: Key)
    requires s.ods == {} && s.ledger == {} && Ceiling(s, key) == 1
    ensures Eligible(lane, s, key, [1, 1]) == [1, 1]
  {
    hide Ceiling;
    assert Seen(lane, s, key) == {};
    assert [1, 1][..1] == [1] && [1][..0] == [];
    assert Eligible(lane, s, key, []) == [] && Eligible(lane, s, key, [1]) == [1];
  }

  // ---- reconciliation ----

  /** One round of the client: ask for the gaps, confirm everything returned as lost. */
  function Round(lane: Lane, L: nat, s: Store, key: Key, limit: int): Store {
    ConfirmLost(lane, L, s, key, GapSeqs(lane, L, s, key, limit)).0
  }

  function Rounds(lane: Lane, L: nat, s: Store, key: Key, limit: int, n: nat): Store {
    if n == 0 then s else Round(lane, L, Rounds(lane, L, s, key, limit, n - 1), key, limit)
  }

  /** The row's max_seen is up to date; every advance makes it so. */
  predicate Fresh(lane: Lane, s: Store, key: Key) {
    key in s.marks && MaxSeq(OdsSeqs(lane, s.ods, key)) <= s.marks[key].maxSeen && s.marks[key].issued >= 0
  }

  lemma AdvanceReaches(lane: Lane, L: nat, s: Store, key: Key, t: int)
    requires Contiguous(s, key) <= t <= Contiguous(s, key) + L
    requires forall q :: Contiguous(s, key) < q <= t ==> q in Seen(lane, s, key)
    ensures Contiguous(Advance(lane, L, s, key, 0), key) >= t
  {
  }

  lemma RoundProgress(lane: Lane, L: nat, s: Store, key: Key, limit: int)
    requires key in s.marks && Contiguous(s, key) >= 0
    ensures var t := Round(lane, L, s, key, limit);
            && Contiguous(t, key) >= Contiguous(s, key)
            && Contiguous(t, key) >= Min(Ceiling(s, key), Contiguous(s, key) + GapLimit(L, limit))
            && key in t.marks && t.ods == s.ods
            && (Fresh(lane, s, key) ==> Fresh(lane, t, key) && Ceiling(t, key) == Ceiling(s, key))
  {
    var c, hi := Contiguous(s, key), GapHi(L, s, key, limit);
    var gaps := GapSeqs(lane, L, s, key, limit);
    var absent := Eligible(lane, s, key, gaps);
    forall q | c < q <= hi && q !in Seen(lane, s, key)
      ensures q in absent
    {
      assert q in gaps;
    }
    var mid := s.(ledger := s.ledger + Losses(key, absent));
    assert Losses(key, []) == {};
    assert Round(lane, L, s, key, limit) == Advance(lane, L, mid, key, 0) by {
      if absent == [] { assert mid == s; }
    }
    LedgerSeqsRecord(lane, s, key, absent, key);
    if c <= hi {
      AdvanceReaches(lane, L, mid, key, hi);
    }
    assert OdsSeqs(lane, mid.ods, key) == OdsSeqs(lane, s.ods, key);
  }

  /** n rounds advance n limits, up to the ceiling. */
  lemma {:induction false} RoundsProgress(lane: Lane, L: nat, s: Store, key: Key, limit: int, n: nat)
    requires Fresh(lane, s, key) && Contiguous(s, key) >= 0
    ensures var t := Rounds(lane, L, s, key, limit, n);
            && Contiguous(t, key) >= Contiguous(s, key)
            && Contiguous(t, key) >= Min(Ceiling(s, key), Contiguous(s, key) + Times(n, GapLimit(L, limit)))
            && Fresh(lane, t, key) && Ceiling(t, key) == Ceiling(s, key)
  {
    hide Round, Contiguous, Ceiling, GapLimit;
    if n > 0 {
      RoundsProgress(lane, L, s, key, limit, n - 1);
      var mid := Rounds(lane, L, s, key, limit, n - 1);
      RoundProgress(lane, L, mid, key, limit);
    }
  }

  /** Reconciliation converges: once n rounds of `limit` numbers span the gap, nothing below the ceiling is unaccounted. */
  lemma ReconcileConverges(lane: Lane, L: nat, s: Store, key: Key, limit: int, n: nat)
    requires Fresh(lane, s, key) && Contiguous(s, key) >= 0
    requires n * GapLimit(L, limit) >= Ceiling(s, key) - Contiguous(s, key)
    ensures var t := Rounds(lane, L, s, key, limit, n);
            Contiguous(t, key) >= Ceiling(t, key) == Ceiling(s, key)
  {
    hide *;
    RoundsProgress(lane, L, s, key, limit, n);
    TimesIsProduct(n, GapLimit(L, limit));
    MinReaches(Ceiling(s, key), Contiguous(s, key), Contiguous(Rounds(lane, L, s, key, limit, n), key), Times(n, GapLimit(L, limit)));
  }

  lemma MinReaches(top: int, c: int, r: int, moved: int)
    requires r >= Min(top, c + moved) && moved >= top - c
    ensures r >= top
  {
  }

  /** A row whose max_seen lags behind the events needs one round more: any round brings it up to date. */
  lemma RoundFreshens(lane: Lane, L: nat, s: Store, key: Key, limit: int)
    requires key in s.marks && s.marks[key].issued >= 0 && Contiguous(s, key) >= 0
    ensures Fresh(lane, Round(lane, L, s, key, limit), key) && Contiguous(Round(lane, L, s, key, limit), key) >= 0
  {
  }

  // ---- the background worker ----

  function WorkerRound(lane: Lane, L: nat, s: Store, key: Key): Store {
    Promote(lane, L, s, key, Contiguous(s, key), Ceiling(s, key))
  }

  /** The worker moves the watermark when it finds a hole, and does nothing at all when it finds none. */
  lemma WorkerProgress(lane: Lane, L: nat, s: Store, key: Key)
    requires key in s.marks
    ensures var missing := Enumerate(lane, L, s, key, Contiguous(s, key), Ceiling(s, key));
            && (WorkerRound(lane, L, s, key) == s <==> missing == [])
            && (missing != [] ==>
                  Contiguous(WorkerRound(lane, L, s, key), key) >= Min(Ceiling(s, key), Contiguous(s, key) + L))
  {
    var c := Contiguous(s, key);
    var missing := Enumerate(lane, L, s, key, c, Ceiling(s, key));
    if missing != [] {
      var mid := s.(ledger := s.ledger + Losses(key, missing));
      LedgerSeqsRecord(lane, s, key, missing, key);
      assert missing[0] in missing;
      assert missing[0] !in LedgerSeqs(lane, s.ledger, key) && missing[0] in LedgerSeqs(lane, mid.ledger, key);
      assert s.ledger != mid.ledger;
      AdvanceReaches(lane, L, mid, key, Min(Ceiling(s, key), c + L));
    }
  }

  lemma RunSnoc(lane: Lane, L: nat, ops: seq<Op>, op: Op)
    ensures Run(lane, L, ops + [op]) == Do(lane, L, Run(lane, L, ops), op)
  {
  }

  /** A run after which the worker is stuck below the ceiling although everything has arrived: 2, advance, 1. */
  lemma WorkerStalls(L: nat, key: Key)
    requires L >= 2
    ensures exists s :: s == Run(Usage, L, [Arrive(Delivery("b", key, 2)), Bump(key, 0), Arrive(Delivery("a", key, 1))])
              && Contiguous(s, key) < Ceiling(s, key) && WorkerRound(Usage, L, s, key) == s
              && Contiguous(Round(Usage, L, s, key, 0), key) == Ceiling(s, key)
  {
    var d2, d1 := Delivery("b", key, 2), Delivery("a", key, 1);
    RunSnoc(Usage, L, [], Arrive(d2));
    RunSnoc(Usage, L, [Arrive(d2)], Bump(key, 0));
    RunSnoc(Usage, L, [Arrive(d2), Bump(key, 0)], Arrive(d1));
    assert [] + [Arrive(d2)] == [Arrive(d2)] && [Arrive(d2)] + [Bump(key, 0)] == [Arrive(d2), Bump(key, 0)];
    assert [Arrive(d2), Bump(key, 0)] + [Arrive(d1)] == [Arrive(d2), Bump(key, 0), Arrive(d1)];
    var s1, s2 := Run(Usage, L, [Arrive(d2)]), Run(Usage, L, [Arrive(d2), Bump(key, 0)]);
    var s3 := Run(Usage, L, [Arrive(d2), Bump(key, 0), Arrive(d1)]);
    assert s1 == Store({d2}, {}, map[]);
    OdsSeqsArrive(Usage, {}, d2, key);
    assert Window({2}, 0, 0 + L) == {2};
    assert s2 == Store({d2}, {}, map[key := Mark(0, 2, 0, 0)]);
    OdsSeqsArrive(Usage, {d2}, d1, key);
    StuckRow(L, s3, key);
  }

  /** 1 and 2 are both there, the row still says 0: no hole to find, but an empty confirmation advances. */
  lemma StuckRow(L: nat, s: Store, key: Key)
    requires L >= 2 && OdsSeqs(Usage, s.ods, key) == {1, 2} && s.ledger == {} && s.marks == map[key := Mark(0, 2, 0, 0)]
    ensures WorkerRound(Usage, L, s, key) == s && Contiguous(Round(Usage, L, s, key, 0), key) == 2
  {
    assert LedgerSeqs(Usage, {}, key) == {} && Seen(Usage, s, key) == {1, 2};
    var missing := Enumerate(Usage, L, s, key, 0, 2);
    assert missing == Missing({1, 2}, 0, 2) == Missing({1, 2}, 0, 1) == Missing({1, 2}, 0, 0) == [];
    AdvanceMoves(Usage, L, s, key, 0);
    assert IsFrontier({1, 2}, 0, 2);
  }

  /**
   The gaps a client is told: the absent numbers above its watermark, up to the highest received or issued one, and at most
   `limit` of the span, a limit that is not positive or exceeds the scan window meaning the window.
   */
  lemma GapsExact(lane: Lane, L: nat, s: Store, key: Key, limit: int, q: int)
    requires key in s.marks
    ensures var m := s.marks[key];
            q in GapSeqs(lane, L, s, key, limit) <==>
              && m.contiguous < q && (q <= m.maxSeen || q <= m.issued) && !Present(lane, s, key, q)
              && q <= m.contiguous + L && (0 < limit <= L ==> q <= m.contiguous + limit)
  {
    SeenIsPresent(lane, s, key);
    hide Present, Seen;
  }

  /**
   What an advance does to the rows' other columns: max_seen becomes the highest number the row has seen or sees stored, never
   lower; issued the highest the client ever said; the floor stays, and so does every other row.
   */
  lemma MarksExact(lane: Lane, L: nat, s: Store, key: Key, issued: int)
    ensures var t := Advance(lane, L, s, key, issued);
            && t.ods == s.ods && t.ledger == s.ledger && t.marks.Keys == s.marks.Keys + {key}
            && (forall k :: k in s.marks && k != key ==> t.marks[k] == s.marks[k])
            && t.marks[key].floor == Floor(s, key)
            && (if key in s.marks then t.marks[key].issued == Max(s.marks[key].issued, issued) else t.marks[key].issued == issued)
            && (key in s.marks ==> t.marks[key].maxSeen >= s.marks[key].maxSeen)
            && (forall d :: d in s.ods && d.key.source == key.source && (lane.Usage? || d.key.org == key.org) ==> d.num <= t.marks[key].maxSeen)
            && (t.marks[key].maxSeen == 0 || (key in s.marks && t.marks[key].maxSeen == s.marks[key].maxSeen)
                || exists d :: d in s.ods && d.key.source == key.source && (lane.Usage? || d.key.org == key.org) && d.num == t.marks[key].maxSeen)
  {
    hide Zip, Seen, Window;
    var nums := OdsSeqs(lane, s.ods, key);
    forall d | d in s.ods && d.key.source == key.source && (lane.Usage? || d.key.org == key.org)
      ensures d.num in nums
    {
      assert Visible(lane, d.key, key);
    }
    if nums != {} {
      assert MaxSeq(nums) in nums;
      var d :| d in s.ods && Visible(lane, d.key, key) && d.num == MaxSeq(nums);
    }
  }

  /** A floor that is not positive is not declared. */
  lemma DeclareRefused(lane: Lane, L: nat, s: Store, key: Key, floor: int)
    ensures Do(lane, L, s, Declare(key, floor)) == s <==> floor <= 0 || !ApplyFloor(s, key, floor).1
  {
    if floor > 0 {
      FloorExact(s, key, floor);
    }
  }

  /** A declared floor raises the row's floor and watermark to at least itself, or makes a new row; the flag says if anything changed. */
  lemma FloorExact(s: Store, key: Key, floor: int)
    requires floor > 0
    ensures var (t, changed) := ApplyFloor(s, key, floor);
            && (changed <==> t != s) && t.ods == s.ods && t.ledger == s.ledger
            && key in t.marks && t.marks.Keys == s.marks.Keys + {key}
            && (forall k :: k in s.marks && k != key ==> t.marks[k] == s.marks[k])
            && (key in s.marks && floor <= s.marks[key].floor ==> !changed)
            && (key in s.marks && s.marks[key].floor < floor ==>
                  t.marks[key] == s.marks[key].(floor := floor, contiguous := Max(s.marks[key].contiguous, floor)))
            && (key !in s.marks ==> t.marks[key] == Mark(floor, 0, 0, floor))
  {
    assert key !in s.marks ==> key in ApplyFloor(s, key, floor).0.marks;
  }
}
