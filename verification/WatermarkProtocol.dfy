/**
 The watermark protocol with its statements interleaved.

 Each repository method is cut at its SQL statements, and any number of callers may be
 anywhere inside their methods while events keep arriving. A caller may be dropped at any
 point (its error return) by starting something else in its place. The claim: whatever
 contiguous value a caller is handed, every number up to it is accounted for, then and
 for ever after, so the client may prune its log up to it.
 */
module WatermarkProtocol {
  import opened WatermarkStore

  // Where a caller stands: the next statement it will send and the values it has read.
  datatype Pc =
    | ReadMark(key: Key, issued: int)
    | ScanningOds(key: Key, issued: int, base: int)
    | ScanningLedger(key: Key, issued: int, base: int, received: set<int>)
    | ReadingMax(key: Key, issued: int, reached: int)
    | Writing(key: Key, issued: int, reached: int, maxSeen: int)
    | Recording(key: Key, seqs: seq<int>)
    | FloorUpdate(key: Key, floor: int)
    | FloorSeed(key: Key, floor: int)
    | FloorRead(key: Key, floor: int)
    | ConfirmRead(key: Key, seqs: seq<int>)
    | ConfirmOds(key: Key, seqs: seq<int>, ceiling: int)
    | ConfirmLedger(key: Key, seqs: seq<int>, ceiling: int, received: set<int>)
    | Returned(key: Key, contiguous: int)

  datatype System = System(store: Store, callers: map<nat, Pc>)

  datatype Step = Arrive(d: Delivery) | Begin(who: nat, pc: Pc) | Move(who: nat)

  /** The entry points: advance, record known loss, declare a floor (refused unless positive), confirm lost. */
  predicate Entry(pc: Pc) {
    pc.ReadMark? || pc.Recording? || pc.ConfirmRead? || (pc.FloorUpdate? && pc.floor > 0)
  }

  function Filter(seqs: seq<int>, ceiling: int, present: set<int>): seq<int> {
    if seqs == [] then []
    else
      var front := Filter(seqs[..|seqs| - 1], ceiling, present);
      var q := seqs[|seqs| - 1];
      if 0 < q <= ceiling && q !in present then front + [q] else front
  }

  /** One statement of one caller. */
  function Next(lane: Lane, L: nat, s: Store, pc: Pc): (Store, Pc) {
    match pc
    case ReadMark(key, issued) => (s, ScanningOds(key, issued, Contiguous(s, key)))
    case ScanningOds(key, issued, base) =>
      (s, ScanningLedger(key, issued, base, Window(OdsSeqs(lane, s.ods, key), base, base + L)))
    case ScanningLedger(key, issued, base, received) =>
      var present := Window(received + LedgerSeqs(lane, s.ledger, key), base, base + L);
      (s, ReadingMax(key, issued, Zip(present, base, base + L)))
    case ReadingMax(key, issued, reached) => (s, Writing(key, issued, reached, MaxSeq(OdsSeqs(lane, s.ods, key))))
    case Writing(key, issued, reached, maxSeen) =>
      (s.(marks := Upsert(s.marks, key, reached, maxSeen, issued)), Returned(key, reached))
    case Recording(key, seqs) =>
      if seqs == [] then (s, ReadMark(key, 0))
      else (s.(ledger := s.ledger + {Loss(key, seqs[0])}), Recording(key, seqs[1..]))
    case FloorUpdate(key, floor) =>
      if key in s.marks && s.marks[key].floor < floor then
        (ApplyFloor(s, key, floor).0, FloorRead(key, floor))
      else (s, FloorSeed(key, floor))
    case FloorSeed(key, floor) =>
      (if key in s.marks then s else s.(marks := s.marks[key := Mark(floor, 0, 0, floor)]), FloorRead(key, floor))
    case FloorRead(key, floor) => (s, Returned(key, Contiguous(s, key)))
    case ConfirmRead(key, seqs) => (s, ConfirmOds(key, seqs, Ceiling(s, key)))
    case ConfirmOds(key, seqs, ceiling) => (s, ConfirmLedger(key, seqs, ceiling, OdsSeqs(lane, s.ods, key)))
    case ConfirmLedger(key, seqs, ceiling, received) =>
      (s, Recording(key, Filter(seqs, ceiling, received + LedgerSeqs(lane, s.ledger, key))))
    case Returned(_, _) => (s, pc)
  }

  function Apply(lane: Lane, L: nat, sys: System, step: Step): System {
    match step
    case Arrive(d) => sys.(store := sys.store.(ods := sys.store.ods + {d}))
    case Begin(who, pc) => if Entry(pc) then sys.(callers := sys.callers[who := pc]) else sys
    case Move(who) =>
      if who in sys.callers then
        var (s, pc) := Next(lane, L, sys.store, sys.callers[who]);
        System(s, sys.callers[who := pc])
      else sys
  }

  function Exec(lane: Lane, L: nat, sys: System, run: seq<Step>): System
    decreases |run|
  {
    if run == [] then sys else Exec(lane, L, Apply(lane, L, sys, run[0]), run[1..])
  }

  const INIT := System(EMPTY, map[])

  /** A caller may begin any of the four calls, a floor only if it is positive, and none of them in the middle. */
  lemma BeginExact(lane: Lane, L: nat, sys: System, who: nat, pc: Pc)
    ensures var next := Apply(lane, L, sys, Begin(who, pc));
            next.store == sys.store &&
            match pc
            case ReadMark(_, _) => next.callers == sys.callers[who := pc]
            case Recording(_, _) => next.callers == sys.callers[who := pc]
            case ConfirmRead(_, _) => next.callers == sys.callers[who := pc]
            case FloorUpdate(_, floor) => next.callers == if floor > 0 then sys.callers[who := pc] else sys.callers
            case _ => next == sys
  {
  }

  /** Every event that arrived in a run is stored at its end. */
  lemma {:induction false} ArrivedStays(lane: Lane, L: nat, sys: System, run: seq<Step>, d: Delivery)
    requires d in sys.store.ods || Arrive(d) in run
    ensures d in Exec(lane, L, sys, run).store.ods
    decreases |run|
  {
    if run != [] {
      StoredStays(lane, L, sys, run[0]);
      ArrivedStays(lane, L, Apply(lane, L, sys, run[0]), run[1..], d);
    }
  }

  lemma StoredStays(lane: Lane, L: nat, sys: System, step: Step)
    ensures sys.store.ods <= Apply(lane, L, sys, step).store.ods
    ensures step.Arrive? ==> step.d in Apply(lane, L, sys, step).store.ods
  {
  }

  // ---- accountedness ----

  ghost predicate Accounted(lane: Lane, s: Store, key: Key, n: int) {
    forall q :: 1 <= q <= n ==> q in Seen(lane, s, key) || q <= Floor(s, key)
  }

  /** The number up to which a caller relies on everything being accounted for; 0 while it relies on nothing. */
  function Claim(pc: Pc): int {
    match pc
    case ScanningOds(_, _, base) => base
    case ScanningLedger(_, _, base, _) => base
    case ReadingMax(_, _, reached) => reached
    case Writing(_, _, reached, _) => reached
    case Returned(_, contiguous) => contiguous
    case _ => 0
  }

  /** What a caller believes, checked against the tables as they are now. */
  ghost predicate PcOk(lane: Lane, s: Store, pc: Pc) {
    && Accounted(lane, s, pc.key, Claim(pc))
    && (pc.ScanningLedger? ==> pc.received <= OdsSeqs(lane, s.ods, pc.key))
    && (pc.FloorUpdate? || pc.FloorSeed? ==> pc.floor > 0)
  }

  ghost predicate StoreOk(lane: Lane, s: Store) {
    forall key :: key in s.marks ==> s.marks[key].floor >= 0 && Accounted(lane, s, key, s.marks[key].contiguous)
  }

  ghost predicate Ok(lane: Lane, sys: System) {
    StoreOk(lane, sys.store) && forall who :: who in sys.callers ==> PcOk(lane, sys.store, sys.callers[who])
  }

  /** No statement deletes a row or lowers a floor. */
  ghost predicate GrowsTo(s: Store, t: Store) {
    && s.ods <= t.ods
    && s.ledger <= t.ledger
    && forall key :: Floor(s, key) <= Floor(t, key)
  }

  lemma AccountedGrows(lane: Lane, s: Store, t: Store, key: Key, n: int)
    requires GrowsTo(s, t) && Accounted(lane, s, key, n)
    ensures Accounted(lane, t, key, n)
  {
    SeenGrows(lane, s, t, key);
  }

  lemma PcOkGrows(lane: Lane, s: Store, t: Store, pc: Pc)
    requires GrowsTo(s, t) && PcOk(lane, s, pc)
    ensures PcOk(lane, t, pc)
  {
    SeenGrows(lane, s, t, pc.key);
    AccountedGrows(lane, s, t, pc.key, Claim(pc));
  }

  lemma ZipAccounted(lane: Lane, L: nat, s: Store, key: Key, base: int, received: set<int>)
    requires Accounted(lane, s, key, base) && received <= OdsSeqs(lane, s.ods, key)
    ensures var present := Window(received + LedgerSeqs(lane, s.ledger, key), base, base + L);
            Accounted(lane, s, key, Zip(present, base, base + L))
  {
    var present := Window(received + LedgerSeqs(lane, s.ledger, key), base, base + L);
    forall q | base < q <= Zip(present, base, base + L)
      ensures q in Seen(lane, s, key)
    {
      assert q in present;
    }
  }

  /** One statement keeps its caller's belief true and only grows the tables. */
  lemma NextOk(lane: Lane, L: nat, s: Store, pc: Pc)
    requires StoreOk(lane, s) && PcOk(lane, s, pc)
    ensures var (t, pc') := Next(lane, L, s, pc);
            GrowsTo(s, t) && StoreOk(lane, t) && PcOk(lane, t, pc')
  {
    hide Zip, MaxSeq, Filter;
    var (t, pc') := Next(lane, L, s, pc);
    if pc.ScanningLedger? {
      ZipAccounted(lane, L, s, pc.key, pc.base, pc.received);
    }
    assert GrowsTo(s, t);
    forall key | key in t.marks
      ensures t.marks[key].floor >= 0 && Accounted(lane, t, key, t.marks[key].contiguous)
    {
      if key in s.marks {
        AccountedGrows(lane, s, t, key, s.marks[key].contiguous);
      }
      if pc.Writing? {
        AccountedGrows(lane, s, t, pc.key, pc.reached);
      }
    }
  }

  lemma ApplyOk(lane: Lane, L: nat, sys: System, step: Step)
    requires Ok(lane, sys)
    ensures Ok(lane, Apply(lane, L, sys, step))
    ensures GrowsTo(sys.store, Apply(lane, L, sys, step).store)
  {
    var s, t := sys.store, Apply(lane, L, sys, step).store;
    if step.Move? && step.who in sys.callers {
      NextOk(lane, L, s, sys.callers[step.who]);
    } else {
      assert GrowsTo(s, t);
      forall key | key in t.marks
        ensures Accounted(lane, t, key, t.marks[key].contiguous)
      {
        AccountedGrows(lane, s, t, key, s.marks[key].contiguous);
      }
    }
    forall who | who in sys.callers
      ensures PcOk(lane, t, sys.callers[who])
    {
      PcOkGrows(lane, s, t, sys.callers[who]);
    }
  }

  lemma {:induction false} ExecOk(lane: Lane, L: nat, sys: System, run: seq<Step>)
    requires Ok(lane, sys)
    ensures Ok(lane, Exec(lane, L, sys, run))
    ensures GrowsTo(sys.store, Exec(lane, L, sys, run).store)
    decreases |run|
  {
    if run != [] {
      ApplyOk(lane, L, sys, run[0]);
      ExecOk(lane, L, Apply(lane, L, sys, run[0]), run[1..]);
    }
  }

  /** In every reachable state each number between a row's floor and its watermark is there for that row. */
  lemma ReachableAccounted(lane: Lane, L: nat, run: seq<Step>, key: Key)
    ensures var s := Exec(lane, L, INIT, run).store;
            0 <= Floor(s, key) && forall q :: Floor(s, key) < q <= Contiguous(s, key) ==> Present(lane, s, key, q)
  {
    ExecOk(lane, L, INIT, run);
    SeenIsPresent(lane, Exec(lane, L, INIT, run).store, key);
    hide Seen, Present;
  }

  /** A value handed to a caller stays safe to prune to, whatever happens afterwards: each number up to it is there or below the floor. */
  lemma SafeToPrune(lane: Lane, L: nat, before: seq<Step>, after: seq<Step>, who: nat)
    requires who in Exec(lane, L, INIT, before).callers
    requires Exec(lane, L, INIT, before).callers[who].Returned?
    ensures var answer, s := Exec(lane, L, INIT, before).callers[who], Exec(lane, L, Exec(lane, L, INIT, before), after).store;
            forall q :: 1 <= q <= answer.contiguous ==> Present(lane, s, answer.key, q) || q <= Floor(s, answer.key)
  {
    var mid := Exec(lane, L, INIT, before);
    var s, answer := Exec(lane, L, mid, after).store, mid.callers[who];
    ExecOk(lane, L, INIT, before);
    ExecOk(lane, L, mid, after);
    AccountedGrows(lane, mid.store, s, answer.key, answer.contiguous);
    SeenIsPresent(lane, s, answer.key);
    hide Seen, Present;
  }

  // ---- the split form against the atomic form ----

  function Iterate(lane: Lane, L: nat, s: Store, pc: Pc, n: nat): (Store, Pc)
    decreases n
  {
    if n == 0 then (s, pc)
    else
      var (t, pc') := Next(lane, L, s, pc);
      Iterate(lane, L, t, pc', n - 1)
  }

  lemma Unfold(lane: Lane, L: nat, s: Store, pc: Pc, t: Store, pc': Pc, n: nat)
    requires Next(lane, L, s, pc) == (t, pc')
    ensures Iterate(lane, L, s, pc, n + 1) == Iterate(lane, L, t, pc', n) && Iterate(lane, L, t, pc', 0) == (t, pc')
  {
  }

  /** The two scans, taken one after the other, see what the merged scan sees. */
  lemma SplitScan(lane: Lane, s: Store, key: Key, lo: int, hi: int)
    ensures Window(Window(OdsSeqs(lane, s.ods, key), lo, hi) + LedgerSeqs(lane, s.ledger, key), lo, hi) == Window(Seen(lane, s, key), lo, hi)
  {
  }

  /** The three reading statements bring a caller to the number the atomic advance stops at. */
  lemma UninterruptedReads(lane: Lane, L: nat, s: Store, key: Key, issued: int)
    ensures var t := Advance(lane, L, s, key, issued);
            var p1 := Next(lane, L, s, ReadMark(key, issued)).1;
            var p2 := Next(lane, L, s, p1).1;
            Next(lane, L, s, p2) == (s, ReadingMax(key, issued, Contiguous(t, key)))
  {
    var base := Contiguous(s, key);
    SplitScan(lane, s, key, base, base + L);
  }

  lemma UninterruptedWrite(lane: Lane, L: nat, s: Store, key: Key, issued: int)
    ensures var t := Advance(lane, L, s, key, issued);
            var p4 := Next(lane, L, s, ReadingMax(key, issued, Contiguous(t, key))).1;
            Next(lane, L, s, p4) == (t, Returned(key, Contiguous(t, key)))
  {
  }

  /** With nothing in between, the five statements of AdvanceWatermark are Advance. */
  lemma UninterruptedAdvance(lane: Lane, L: nat, s: Store, key: Key, issued: int)
    ensures var t := Advance(lane, L, s, key, issued);
            Iterate(lane, L, s, ReadMark(key, issued), 5) == (t, Returned(key, Contiguous(t, key)))
  {
    hide Zip, MaxSeq, OdsSeqs, LedgerSeqs, Window, Advance, Iterate, Upsert, Contiguous;
    UninterruptedReads(lane, L, s, key, issued);
    UninterruptedWrite(lane, L, s, key, issued);
    var t := Advance(lane, L, s, key, issued);
    var p1 := Next(lane, L, s, ReadMark(key, issued)).1;
    var p2 := Next(lane, L, s, p1).1;
    var p3 := Next(lane, L, s, p2).1;
    var p4 := Next(lane, L, s, p3).1;
    var p5 := Returned(key, Contiguous(t, key));
    Unfold(lane, L, s, ReadMark(key, issued), s, p1, 4);
    Unfold(lane, L, s, p1, s, p2, 3);
    Unfold(lane, L, s, p2, s, p3, 2);
    Unfold(lane, L, s, p3, s, p4, 1);
    Unfold(lane, L, s, p4, t, p5, 0);
  }

  /** With nothing in between, the floor statements are ApplyFloor. */
  lemma UninterruptedFloor(lane: Lane, L: nat, s: Store, key: Key, floor: int)
    ensures var t := ApplyFloor(s, key, floor).0;
            Iterate(lane, L, s, FloorUpdate(key, floor), 3) == (t, Returned(key, Contiguous(t, key)))
  {
  }

  lemma {:induction false} IterateMore(lane: Lane, L: nat, s: Store, pc: Pc, m: nat, n: nat)
    ensures Iterate(lane, L, s, pc, m + n) == Iterate(lane, L, Iterate(lane, L, s, pc, m).0, Iterate(lane, L, s, pc, m).1, n)
    decreases m
  {
    hide Next;
    if m > 0 {
      var (t, pc') := Next(lane, L, s, pc);
      IterateMore(lane, L, t, pc', m - 1, n);
    }
  }

  lemma {:induction false} UninterruptedInserts(lane: Lane, L: nat, s: Store, key: Key, seqs: seq<int>)
    ensures Iterate(lane, L, s, Recording(key, seqs), |seqs| + 1) == (s.(ledger := s.ledger + Losses(key, seqs)), ReadMark(key, 0))
    decreases |seqs|
  {
    if seqs == [] {
      assert s.ledger + Losses(key, []) == s.ledger;
      Unfold(lane, L, s, Recording(key, seqs), s, ReadMark(key, 0), 0);
    } else {
      var t := s.(ledger := s.ledger + {Loss(key, seqs[0])});
      assert Next(lane, L, s, Recording(key, seqs)) == (t, Recording(key, seqs[1..]));
      Unfold(lane, L, s, Recording(key, seqs), t, Recording(key, seqs[1..]), |seqs|);
      UninterruptedInserts(lane, L, t, key, seqs[1..]);
      assert s.ledger + Losses(key, seqs) == t.ledger + Losses(key, seqs[1..]) by {
        assert seqs == [seqs[0]] + seqs[1..];
      }
    }
  }

  /** With nothing in between, the inserts and the advance of RecordKnownLoss are RecordLoss. */
  lemma UninterruptedRecord(lane: Lane, L: nat, s: Store, key: Key, seqs: seq<int>)
    ensures var t := RecordLoss(lane, L, s, key, seqs);
            Iterate(lane, L, s, Recording(key, seqs), |seqs| + 1 + 5) == (t, Returned(key, Contiguous(t, key)))
  {
    hide Iterate, Advance, Next;
    var mid := s.(ledger := s.ledger + Losses(key, seqs));
    IterateMore(lane, L, s, Recording(key, seqs), |seqs| + 1, 5);
    UninterruptedInserts(lane, L, s, key, seqs);
    UninterruptedAdvance(lane, L, mid, key, 0);
  }

  lemma {:induction false} FilterIsEligible(lane: Lane, s: Store, key: Key, seqs: seq<int>)
    ensures Filter(seqs, Ceiling(s, key), OdsSeqs(lane, s.ods, key) + LedgerSeqs(lane, s.ledger, key)) == Eligible(lane, s, key, seqs)
  {
    hide OdsSeqs, LedgerSeqs, Ceiling;
    if seqs != [] {
      FilterIsEligible(lane, s, key, seqs[..|seqs| - 1]);
    }
  }

  /** With nothing in between, the statements of ConfirmLost are ConfirmLost, its count the number of losses it records. */
  lemma UninterruptedConfirm(lane: Lane, L: nat, s: Store, key: Key, seqs: seq<int>)
    ensures var (t, promoted) := ConfirmLost(lane, L, s, key, seqs);
            Iterate(lane, L, s, ConfirmRead(key, seqs), 3 + (promoted + 1 + 5)) == (t, Returned(key, Contiguous(t, key)))
  {
    var absent := Eligible(lane, s, key, seqs);
    ConfirmReads(lane, L, s, key, seqs);
    IterateMore(lane, L, s, ConfirmRead(key, seqs), 3, |absent| + 1 + 5);
    UninterruptedRecord(lane, L, s, key, absent);
    assert s.ledger + Losses(key, []) == s.ledger;
    assert absent == [] ==> s.(ledger := s.ledger + Losses(key, absent)) == s;
    hide Iterate, Advance, Eligible;
  }

  lemma ConfirmReads(lane: Lane, L: nat, s: Store, key: Key, seqs: seq<int>)
    ensures Iterate(lane, L, s, ConfirmRead(key, seqs), 3) == (s, Recording(key, Eligible(lane, s, key, seqs)))
  {
    hide OdsSeqs, LedgerSeqs, Ceiling, Eligible, Filter, Iterate;
    FilterIsEligible(lane, s, key, seqs);
    var p1 := ConfirmOds(key, seqs, Ceiling(s, key));
    var p2 := ConfirmLedger(key, seqs, Ceiling(s, key), OdsSeqs(lane, s.ods, key));
    var p3 := Recording(key, Eligible(lane, s, key, seqs));
    Unfold(lane, L, s, ConfirmRead(key, seqs), s, p1, 2);
    Unfold(lane, L, s, p1, s, p2, 1);
    Unfold(lane, L, s, p2, s, p3, 0);
  }

  // ---- what interleaving costs ----

  ghost predicate Reachable(lane: Lane, L: nat, sys: System) {
    exists run :: Exec(lane, L, INIT, run) == sys
  }

  lemma {:induction false} ExecConcat(lane: Lane, L: nat, sys: System, a: seq<Step>, b: seq<Step>)
    ensures Exec(lane, L, sys, a + b) == Exec(lane, L, Exec(lane, L, sys, a), b)
    decreases |a|
  {
    if a == [] {
      assert a + b == b;
    } else {
      assert (a + b)[0] == a[0] && (a + b)[1..] == a[1..] + b;
      ExecConcat(lane, L, Apply(lane, L, sys, a[0]), a[1..], b);
    }
  }

  lemma ReachableStep(lane: Lane, L: nat, sys: System, step: Step) returns (next: System)
    requires Reachable(lane, L, sys)
    ensures next == Apply(lane, L, sys, step) && Reachable(lane, L, next)
  {
    var run :| Exec(lane, L, INIT, run) == sys;
    ExecConcat(lane, L, INIT, run, [step]);
    next := Apply(lane, L, sys, step);
    assert Exec(lane, L, sys, [step]) == Exec(lane, L, next, [step][1..]) == next;
    assert Exec(lane, L, INIT, run + [step]) == next;
  }

  lemma ReadOnlyMove(lane: Lane, L: nat, s: Store, callers: map<nat, Pc>, who: nat, pc: Pc, pc': Pc)
    requires Reachable(lane, L, System(s, callers[who := pc])) && Next(lane, L, s, pc) == (s, pc')
    ensures Reachable(lane, L, System(s, callers[who := pc']))
  {
    var next := ReachableStep(lane, L, System(s, callers[who := pc]), Move(who));
    assert next == System(s, callers[who := pc']);
  }

  /** On empty tables a caller can be brought to the point of writing 0. */
  lemma LateWriter(lane: Lane, L: nat, callers: map<nat, Pc>, who: nat, key: Key)
    requires Reachable(lane, L, System(EMPTY, callers))
    ensures Reachable(lane, L, System(EMPTY, callers[who := Writing(key, 0, 0, 0)]))
  {
    assert OdsSeqs(lane, EMPTY.ods, key) == {} && Window(OdsSeqs(lane, EMPTY.ods, key), 0, 0 + L) == {};
    assert Window({} + LedgerSeqs(lane, EMPTY.ledger, key), 0, 0 + L) == {};
    var begun := ReachableStep(lane, L, System(EMPTY, callers), Begin(who, ReadMark(key, 0)));
    ReadOnlyMove(lane, L, EMPTY, callers, who, ReadMark(key, 0), ScanningOds(key, 0, 0));
    ReadOnlyMove(lane, L, EMPTY, callers, who, ScanningOds(key, 0, 0), ScanningLedger(key, 0, 0, {}));
    ReadOnlyMove(lane, L, EMPTY, callers, who, ScanningLedger(key, 0, 0, {}), ReadingMax(key, 0, 0));
    ReadOnlyMove(lane, L, EMPTY, callers, who, ReadingMax(key, 0, 0), Writing(key, 0, 0, 0));
  }

  /**
   A reachable state in which a declared floor is lost for good: the watermark stands below
   its own floor, and declaring that floor again changes nothing.
   */
  lemma FloorOverwritten(lane: Lane, L: nat, key: Key)
    ensures exists sys :: Reachable(lane, L, sys) && Contiguous(sys.store, key) < Floor(sys.store, key)
                       && ApplyFloor(sys.store, key, Floor(sys.store, key)) == (sys.store, false)
  {
    // Caller 0 reads "no row" and gets as far as its write; caller 1 declares floor 5.
    hide Zip, MaxSeq, OdsSeqs, LedgerSeqs, Window;
    assert Exec(lane, L, INIT, []) == INIT;
    LateWriter(lane, L, map[], 0, key);
    var late := map[0 := Writing(key, 0, 0, 0)];
    var sys := ReachableStep(lane, L, System(EMPTY, late), Begin(1, FloorUpdate(key, 5)));
    ReadOnlyMove(lane, L, EMPTY, late, 1, FloorUpdate(key, 5), FloorSeed(key, 5));
    sys := ReachableStep(lane, L, System(EMPTY, late[1 := FloorSeed(key, 5)]), Move(1));
    OverwriteFloor(lane, L, sys, key);
  }

  lemma OverwriteFloor(lane: Lane, L: nat, sys: System, key: Key)
    requires Reachable(lane, L, sys) && key in sys.store.marks && sys.store.marks[key].floor == 5
    requires 0 in sys.callers && sys.callers[0] == Writing(key, 0, 0, 0)
    ensures exists sys' :: Reachable(lane, L, sys') && Contiguous(sys'.store, key) < Floor(sys'.store, key)
                        && ApplyFloor(sys'.store, key, Floor(sys'.store, key)) == (sys'.store, false)
  {
    var next := ReachableStep(lane, L, sys, Move(0));
    assert Contiguous(next.store, key) == 0 && Floor(next.store, key) == 5;
  }

  /** A declaration that answers without its floor being recorded: a row appeared between its two statements. */
  lemma FloorMissed(lane: Lane, L: nat, key: Key)
    ensures exists sys, who: nat :: Reachable(lane, L, sys) && who in sys.callers && sys.callers[who].FloorRead?
                       && sys.callers[who].key == key && Floor(sys.store, key) < sys.callers[who].floor
  {
    assert Exec(lane, L, INIT, []) == INIT;
    var begun := ReachableStep(lane, L, INIT, Begin(1, FloorUpdate(key, 5)));
    ReadOnlyMove(lane, L, EMPTY, map[], 1, FloorUpdate(key, 5), FloorSeed(key, 5));
    var seeding := map[1 := FloorSeed(key, 5)];
    LateWriter(lane, L, seeding, 0, key);
    var sys := ReachableStep(lane, L, System(EMPTY, seeding[0 := Writing(key, 0, 0, 0)]), Move(0));
    IgnoreSeed(lane, L, sys, key);
  }

  lemma IgnoreSeed(lane: Lane, L: nat, sys: System, key: Key)
    requires Reachable(lane, L, sys) && key in sys.store.marks && sys.store.marks[key].floor == 0
    requires 1 in sys.callers && sys.callers[1] == FloorSeed(key, 5)
    ensures exists sys', who: nat :: Reachable(lane, L, sys') && who in sys'.callers && sys'.callers[who].FloorRead?
                        && sys'.callers[who].key == key && Floor(sys'.store, key) < sys'.callers[who].floor
  {
    var next := ReachableStep(lane, L, sys, Move(1));
    assert next.callers[1] == FloorRead(key, 5) && Floor(next.store, key) == 0;
  }
}
