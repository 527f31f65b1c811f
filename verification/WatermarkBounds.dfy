/**
 How high a watermark can get, whatever the interleaving: never above everything the rows of its
 source have seen, been promised or been told to skip.
 */
module WatermarkBounds {
  import opened WatermarkStore
  import opened WatermarkProtocol

  function Top(m: Mark): int {
    Max(m.maxSeen, m.issued)
  }

  /** q is not above what some row of the source has seen or been promised. */
  ghost predicate Below(lane: Lane, s: Store, key: Key, q: int) {
    exists k :: k in s.marks && Visible(lane, k, key) && q <= Top(s.marks[k])
  }

  ghost predicate BelowOrFloor(lane: Lane, s: Store, key: Key, q: int) {
    exists k :: k in s.marks && Visible(lane, k, key) && q <= Max(Top(s.marks[k]), s.marks[k].floor)
  }

  ghost predicate Bounded(lane: Lane, s: Store) {
    && (forall l {:trigger Below(lane, s, l.key, l.num)} :: l in s.ledger ==> Below(lane, s, l.key, l.num))
    && (forall key {:trigger BelowOrFloor(lane, s, key, s.marks[key].contiguous)} ::
          key in s.marks ==> BelowOrFloor(lane, s, key, s.marks[key].contiguous))
    && (forall key :: key in s.marks ==> s.marks[key].contiguous >= 0)
  }

  /** Rows stay, and their high-water marks and floors only rise. */
  ghost predicate MarksRise(s: Store, t: Store) {
    forall k :: k in s.marks ==>
      k in t.marks && Top(s.marks[k]) <= Top(t.marks[k]) && s.marks[k].floor <= t.marks[k].floor
  }

  lemma BelowRises(lane: Lane, s: Store, t: Store, key: Key, q: int)
    requires MarksRise(s, t)
    ensures Below(lane, s, key, q) ==> Below(lane, t, key, q)
    ensures BelowOrFloor(lane, s, key, q) ==> BelowOrFloor(lane, t, key, q)
  {
  }

  /** A step that only raises rows keeps the bound if each watermark it moves is bounded where it lands. */
  lemma MarksBounded(lane: Lane, s: Store, t: Store)
    requires Bounded(lane, s) && MarksRise(s, t)
    requires forall l :: l in t.ledger ==> l in s.ledger || Below(lane, t, l.key, l.num)
    requires forall k :: k in t.marks ==> t.marks[k].contiguous >= 0
    requires forall k :: k in t.marks ==>
      (k in s.marks && s.marks[k].contiguous == t.marks[k].contiguous) || BelowOrFloor(lane, t, k, t.marks[k].contiguous)
    ensures Bounded(lane, t)
  {
    forall l | l in t.ledger
      ensures Below(lane, t, l.key, l.num)
    {
      BelowRises(lane, s, t, l.key, l.num);
    }
    forall k | k in t.marks
      ensures BelowOrFloor(lane, t, k, t.marks[k].contiguous)
    {
      if k in s.marks {
        BelowRises(lane, s, t, k, s.marks[k].contiguous);
      }
    }
  }

  // ---- interleaved callers ----

  /** A number a caller may write: not positive, or under some row's marks or floor. */
  ghost predicate Safe(lane: Lane, s: Store, key: Key, q: int) {
    q <= 0 || BelowOrFloor(lane, s, key, q)
  }

  /** What a caller carries: a value it may write once the highest number received so far is written with it, or losses under the marks. */
  ghost predicate PcBounded(lane: Lane, s: Store, pc: Pc) {
    match pc
    case ScanningOds(key, _, base) => base >= 0 && Safe(lane, s, key, base)
    case ScanningLedger(key, _, base, received) =>
      base >= 0 && Safe(lane, s, key, base) && received <= OdsSeqs(lane, s.ods, key)
    case ReadingMax(key, _, reached) => reached >= 0 && (Safe(lane, s, key, reached) || reached in OdsSeqs(lane, s.ods, key))
    case Writing(key, _, reached, maxSeen) => reached >= 0 && (Safe(lane, s, key, reached) || reached <= maxSeen)
    case Recording(key, seqs) => forall q :: q in seqs ==> Below(lane, s, key, q)
    case ConfirmOds(key, _, ceiling) => ceiling <= 0 || Below(lane, s, key, ceiling)
    case ConfirmLedger(key, _, ceiling, _) => ceiling <= 0 || Below(lane, s, key, ceiling)
    case _ => true
  }

  ghost predicate AllBounded(lane: Lane, sys: System) {
    && Ok(lane, sys) && Bounded(lane, sys.store)
    && forall who :: who in sys.callers ==> PcBounded(lane, sys.store, sys.callers[who])
  }

  lemma SafeRises(lane: Lane, s: Store, t: Store, key: Key, q: int)
    requires MarksRise(s, t) && Safe(lane, s, key, q)
    ensures Safe(lane, t, key, q)
  {
    BelowRises(lane, s, t, key, q);
  }

  lemma PcBoundedRises(lane: Lane, s: Store, t: Store, pc: Pc)
    requires MarksRise(s, t) && GrowsTo(s, t) && PcBounded(lane, s, pc)
    ensures PcBounded(lane, t, pc)
  {
    SeenGrows(lane, s, t, pc.key);
    hide Safe, Below, MarksRise, GrowsTo, OdsSeqs;
    match pc
    case ScanningOds(key, _, base) => SafeRises(lane, s, t, key, base);
    case ScanningLedger(key, _, base, _) => SafeRises(lane, s, t, key, base);
    case ReadingMax(key, _, reached) =>
      if Safe(lane, s, key, reached) {
        SafeRises(lane, s, t, key, reached);
      }
    case Writing(key, _, reached, _) =>
      if Safe(lane, s, key, reached) {
        SafeRises(lane, s, t, key, reached);
      }
    case Recording(key, seqs) =>
      forall q | q in seqs
        ensures Below(lane, t, key, q)
      {
        BelowRises(lane, s, t, key, q);
      }
    case ConfirmOds(key, _, ceiling) => BelowRises(lane, s, t, key, ceiling);
    case ConfirmLedger(key, _, ceiling, _) => BelowRises(lane, s, t, key, ceiling);
    case _ =>
  }

  lemma NextRises(lane: Lane, L: nat, s: Store, pc: Pc)
    ensures MarksRise(s, Next(lane, L, s, pc).0)
  {
    hide Zip, MaxSeq, OdsSeqs, LedgerSeqs, Window, Filter;
  }

  /** The zipper stops where it started, or on a number it was given. */
  lemma ZipStops(received: set<int>, ledgered: set<int>, base: int, hi: int)
    ensures var r := Zip(Window(received + ledgered, base, hi), base, hi);
            r == base || (base < r && (r in received || r in ledgered))
  {
    var r := Zip(Window(received + ledgered, base, hi), base, hi);
    assert base < r ==> r in Window(received + ledgered, base, hi);
  }

  lemma LedgeredBelow(lane: Lane, s: Store, key: Key, q: int)
    requires Bounded(lane, s) && q in LedgerSeqs(lane, s.ledger, key)
    ensures BelowOrFloor(lane, s, key, q)
  {
    var l :| l in s.ledger && Visible(lane, l.key, key) && l.num == q;
    assert Below(lane, s, l.key, l.num);
    var k :| k in s.marks && Visible(lane, k, l.key) && q <= Top(s.marks[k]);
    assert Visible(lane, k, key) && q <= Max(Top(s.marks[k]), s.marks[k].floor);
  }

  lemma FilterUnder(seqs: seq<int>, ceiling: int, present: set<int>, q: int)
    requires q in Filter(seqs, ceiling, present)
    ensures 0 < q <= ceiling
  {
  }

  /** What a caller carries after its statement, against the tables the statement leaves. */
  lemma NextPcBounded(lane: Lane, L: nat, s: Store, pc: Pc)
    requires Bounded(lane, s) && PcBounded(lane, s, pc)
    ensures var (t, pc') := Next(lane, L, s, pc); PcBounded(lane, t, pc')
  {
    hide Zip, MaxSeq, Filter, Window;
    match pc
    case ReadMark(key, _) =>
      assert key in s.marks ==> BelowOrFloor(lane, s, key, s.marks[key].contiguous);
    case ScanningOds(key, _, base) => WindowWithin(OdsSeqs(lane, s.ods, key), base, base + L);
    case ScanningLedger(key, issued, base, received) => ZippedBounded(lane, L, s, key, issued, base, received);
    case ReadingMax(key, _, reached) => assert reached in OdsSeqs(lane, s.ods, key) ==> IsMax(OdsSeqs(lane, s.ods, key), MaxSeq(OdsSeqs(lane, s.ods, key)));
    case ConfirmRead(key, _) => assert key in s.marks ==> Visible(lane, key, key) && Ceiling(s, key) <= Top(s.marks[key]);
    case ConfirmLedger(key, seqs, ceiling, received) =>
      forall q | q in Filter(seqs, ceiling, received + LedgerSeqs(lane, s.ledger, key))
        ensures Below(lane, s, key, q)
      {
        FilterUnder(seqs, ceiling, received + LedgerSeqs(lane, s.ledger, key), q);
      }
    case Recording(key, seqs) =>
      if seqs != [] {
        forall q | q in seqs[1..]
          ensures Below(lane, Next(lane, L, s, pc).0, key, q)
        {
          assert q in seqs && Below(lane, s, key, q);
          BelowRises(lane, s, Next(lane, L, s, pc).0, key, q);
        }
      }
    case _ =>
  }

  lemma ZippedBounded(lane: Lane, L: nat, s: Store, key: Key, issued: int, base: int, received: set<int>)
    requires Bounded(lane, s) && PcBounded(lane, s, ScanningLedger(key, issued, base, received))
    ensures PcBounded(lane, s, Next(lane, L, s, ScanningLedger(key, issued, base, received)).1)
  {
    hide Zip, Bounded, OdsSeqs, LedgerSeqs, BelowOrFloor;
    ZipStops(received, LedgerSeqs(lane, s.ledger, key), base, base + L);
    var r := Zip(Window(received + LedgerSeqs(lane, s.ledger, key), base, base + L), base, base + L);
    if r in LedgerSeqs(lane, s.ledger, key) {
      LedgeredBelow(lane, s, key, r);
    }
  }

  lemma WindowWithin(seqs: set<int>, lo: int, hi: int)
    ensures Window(seqs, lo, hi) <= seqs
  {
  }

  lemma NextBounded(lane: Lane, L: nat, s: Store, pc: Pc)
    requires StoreOk(lane, s) && PcOk(lane, s, pc) && Bounded(lane, s) && PcBounded(lane, s, pc)
    ensures Bounded(lane, Next(lane, L, s, pc).0)
  {
    var t := Next(lane, L, s, pc).0;
    NextRises(lane, L, s, pc);
    match pc
    case Writing(key, issued, reached, maxSeen) =>
      WriteBounded(lane, s, key, issued, reached, maxSeen);
    case Recording(key, seqs) =>
      if seqs != [] {
        assert seqs[0] in seqs;
        BelowRises(lane, s, t, key, seqs[0]);
      }
      MarksBounded(lane, s, t);
    case FloorUpdate(key, floor) =>
      if t != s {
        assert floor <= Max(Top(t.marks[key]), t.marks[key].floor) && Visible(lane, key, key);
        assert BelowOrFloor(lane, t, key, floor);
      }
      MarksBounded(lane, s, t);
    case FloorSeed(key, floor) =>
      if t != s {
        assert floor <= Max(Top(t.marks[key]), t.marks[key].floor) && Visible(lane, key, key);
        assert BelowOrFloor(lane, t, key, floor);
      }
      MarksBounded(lane, s, t);
    case _ =>
  }

  lemma WriteBounded(lane: Lane, s: Store, key: Key, issued: int, reached: int, maxSeen: int)
    requires StoreOk(lane, s) && Bounded(lane, s) && PcBounded(lane, s, Writing(key, issued, reached, maxSeen))
    requires MarksRise(s, s.(marks := Upsert(s.marks, key, reached, maxSeen, issued)))
    ensures Bounded(lane, s.(marks := Upsert(s.marks, key, reached, maxSeen, issued)))
  {
    var t := s.(marks := Upsert(s.marks, key, reached, maxSeen, issued));
    var m := t.marks[key];
    assert m.floor >= 0 && m.maxSeen >= maxSeen && Visible(lane, key, key);
    if reached <= maxSeen || reached <= 0 {
      assert reached <= Max(Top(m), m.floor);
    } else {
      BelowRises(lane, s, t, key, reached);
    }
    MarksBounded(lane, s, t);
  }

  /** Losses are recorded by ConfirmLost, or for a finding whose numbers some row's marks already covered. */
  ghost predicate Guarded(lane: Lane, sys: System, step: Step) {
    step.Begin? && step.pc.Recording? ==> forall q :: q in step.pc.seqs ==> Below(lane, sys.store, step.pc.key, q)
  }

  ghost predicate GuardedRun(lane: Lane, L: nat, sys: System, run: seq<Step>)
    decreases |run|
  {
    run == [] || (Guarded(lane, sys, run[0]) && GuardedRun(lane, L, Apply(lane, L, sys, run[0]), run[1..]))
  }

  lemma ApplyRises(lane: Lane, L: nat, sys: System, step: Step)
    ensures MarksRise(sys.store, Apply(lane, L, sys, step).store)
  {
    hide Next;
    if step.Move? && step.who in sys.callers {
      NextRises(lane, L, sys.store, sys.callers[step.who]);
    }
  }

  lemma ApplyStoreBounded(lane: Lane, L: nat, sys: System, step: Step)
    requires AllBounded(lane, sys)
    ensures Bounded(lane, Apply(lane, L, sys, step).store)
  {
    hide Next, Bounded, PcBounded, StoreOk, PcOk;
    if step.Move? && step.who in sys.callers {
      NextBounded(lane, L, sys.store, sys.callers[step.who]);
    } else if step.Arrive? {
      ArriveBounded(lane, sys.store, step.d);
    }
  }

  lemma ArriveBounded(lane: Lane, s: Store, d: Delivery)
    requires Bounded(lane, s)
    ensures Bounded(lane, s.(ods := s.ods + {d}))
  {
    MarksBounded(lane, s, s.(ods := s.ods + {d}));
  }

  lemma ApplyBounded(lane: Lane, L: nat, sys: System, step: Step)
    requires AllBounded(lane, sys) && Guarded(lane, sys, step)
    ensures AllBounded(lane, Apply(lane, L, sys, step))
  {
    var next := Apply(lane, L, sys, step);
    ApplyOk(lane, L, sys, step);
    ApplyRises(lane, L, sys, step);
    ApplyStoreBounded(lane, L, sys, step);
    forall who | who in next.callers
      ensures PcBounded(lane, next.store, next.callers[who])
    {
      if step == Move(who) {
        NextPcBounded(lane, L, sys.store, sys.callers[who]);
      } else if who in sys.callers && next.callers[who] == sys.callers[who] {
        PcBoundedRises(lane, sys.store, next.store, sys.callers[who]);
      }
    }
  }

  /**
   Over every interleaving in which losses are recorded by ConfirmLost, or for findings under the marks, no watermark of a
   source stands above everything its rows have seen, been promised or been told to skip, and no ledger row above their marks.
   */
  lemma {:induction false} WatermarkBounded(lane: Lane, L: nat, sys: System, run: seq<Step>)
    requires AllBounded(lane, sys) && GuardedRun(lane, L, sys, run)
    ensures AllBounded(lane, Exec(lane, L, sys, run))
    decreases |run|
  {
    hide AllBounded, Apply;
    if run != [] {
      ApplyBounded(lane, L, sys, run[0]);
      WatermarkBounded(lane, L, Apply(lane, L, sys, run[0]), run[1..]);
    }
  }

  lemma ReachableBounded(lane: Lane, L: nat, run: seq<Step>)
    requires GuardedRun(lane, L, INIT, run)
    ensures Bounded(lane, Exec(lane, L, INIT, run).store)
  {
    WatermarkBounded(lane, L, INIT, run);
  }
}
