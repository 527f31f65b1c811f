/**
 What interleaving does to stream floors, over whole runs of the statement machine: when
 watermarks stay at or above their floors, and when a declared floor is recorded.
 */
module StreamFloors {
  import opened WatermarkStore
  import opened WatermarkProtocol

  /** The system before step i of a run that starts on empty tables. */
  function At(lane: Lane, L: nat, run: seq<Step>, i: nat): System
    requires i <= |run|
  {
    Exec(lane, L, INIT, run[..i])
  }

  lemma AtNext(lane: Lane, L: nat, run: seq<Step>, i: nat)
    requires i < |run|
    ensures At(lane, L, run, i + 1) == Apply(lane, L, At(lane, L, run, i), run[i])
  {
    assert run[..i + 1] == run[..i] + [run[i]];
    ExecConcat(lane, L, INIT, run[..i], [run[i]]);
    var sys, next := At(lane, L, run, i), Apply(lane, L, At(lane, L, run, i), run[i]);
    assert Exec(lane, L, sys, [run[i]]) == Exec(lane, L, next, [run[i]][1..]) == next;
  }

  /** The step is a statement of the caller `who`, who stands at `pc`. */
  predicate Moves(sys: System, step: Step, who: nat, pc: Pc) {
    step == Move(who) && who in sys.callers && sys.callers[who] == pc
  }

  // ---- watermarks and their floors ----

  ghost predicate FloorsKept(s: Store) {
    forall key :: key in s.marks ==> s.marks[key].floor <= s.marks[key].contiguous
  }

  /** A caller about to write a watermark below the floor its row has by now. */
  ghost predicate WritesLate(sys: System, step: Step) {
    exists who, key, issued, reached, maxSeen ::
      Moves(sys, step, who, Writing(key, issued, reached, maxSeen)) && reached < Floor(sys.store, key)
  }

  lemma StepKeepsFloorsIff(lane: Lane, L: nat, sys: System, step: Step)
    requires FloorsKept(sys.store)
    ensures FloorsKept(Apply(lane, L, sys, step).store) <==> !WritesLate(sys, step)
  {
    var s, t := sys.store, Apply(lane, L, sys, step).store;
    if step.Move? && step.who in sys.callers {
      var pc := sys.callers[step.who];
      if pc.Writing? {
        assert Moves(sys, step, step.who, Writing(pc.key, pc.issued, pc.reached, pc.maxSeen));
        assert WritesLate(sys, step) <==> pc.reached < Floor(s, pc.key);
        assert t.marks[pc.key].floor == Floor(s, pc.key) && t.marks[pc.key].contiguous == pc.reached;
      }
    }
  }

  /**
   Over any interleaving: every watermark is at or above its floor in every state exactly when no caller ever
   writes a value below the floor its row has at that moment.
   */
  lemma {:induction false} FloorsKeptIff(lane: Lane, L: nat, run: seq<Step>)
    ensures (forall i :: 0 <= i <= |run| ==> FloorsKept(At(lane, L, run, i).store)) <==>
            (forall i :: 0 <= i < |run| ==> !WritesLate(At(lane, L, run, i), run[i]))
  {
    hide FloorsKept, WritesLate, At;
    if forall i :: 0 <= i <= |run| ==> FloorsKept(At(lane, L, run, i).store) {
      forall i | 0 <= i < |run|
        ensures !WritesLate(At(lane, L, run, i), run[i])
      {
        AtNext(lane, L, run, i);
        StepKeepsFloorsIff(lane, L, At(lane, L, run, i), run[i]);
        assert FloorsKept(At(lane, L, run, i + 1).store);
      }
    }
    if forall i :: 0 <= i < |run| ==> !WritesLate(At(lane, L, run, i), run[i]) {
      forall i | 0 <= i <= |run|
        ensures FloorsKept(At(lane, L, run, i).store)
      {
        KeptWithoutLateWrites(lane, L, run, i);
      }
    }
  }

  lemma {:induction false} KeptWithoutLateWrites(lane: Lane, L: nat, run: seq<Step>, i: nat)
    requires i <= |run| && forall k :: 0 <= k < i ==> !WritesLate(At(lane, L, run, k), run[k])
    ensures FloorsKept(At(lane, L, run, i).store)
  {
    if i > 0 {
      KeptWithoutLateWrites(lane, L, run, i - 1);
      AtNext(lane, L, run, i - 1);
      StepKeepsFloorsIff(lane, L, At(lane, L, run, i - 1), run[i - 1]);
    }
  }

  /** A caller about to write below the watermark its row has by now. */
  ghost predicate WritesBack(sys: System, step: Step) {
    exists who, key, issued, reached, maxSeen ::
      Moves(sys, step, who, Writing(key, issued, reached, maxSeen)) && reached < Contiguous(sys.store, key)
  }

  ghost predicate Rises(s: Store, t: Store) {
    forall key :: Contiguous(s, key) <= Contiguous(t, key)
  }

  lemma StepRisesIff(lane: Lane, L: nat, sys: System, step: Step)
    requires Ok(lane, sys)
    ensures Rises(sys.store, Apply(lane, L, sys, step).store) <==> !WritesBack(sys, step)
  {
    var s, t := sys.store, Apply(lane, L, sys, step).store;
    if step.Move? && step.who in sys.callers {
      var pc := sys.callers[step.who];
      if pc.Writing? {
        assert Moves(sys, step, step.who, Writing(pc.key, pc.issued, pc.reached, pc.maxSeen));
        assert Contiguous(t, pc.key) == pc.reached;
      } else {
        assert PcOk(lane, s, pc);
      }
    }
  }

  /** And a stored watermark goes back exactly when a caller writes a value another one has moved past. */
  lemma NeverBackIff(lane: Lane, L: nat, run: seq<Step>)
    ensures (forall i :: 0 <= i < |run| ==>
               Rises(At(lane, L, run, i).store, At(lane, L, run, i + 1).store)) <==>
            (forall i :: 0 <= i < |run| ==> !WritesBack(At(lane, L, run, i), run[i]))
  {
    hide WritesBack, At, Rises, Ok;
    if forall i :: 0 <= i < |run| ==> Rises(At(lane, L, run, i).store, At(lane, L, run, i + 1).store) {
      forall i | 0 <= i < |run|
        ensures !WritesBack(At(lane, L, run, i), run[i])
      {
        RisesAt(lane, L, run, i);
      }
    }
    if forall i :: 0 <= i < |run| ==> !WritesBack(At(lane, L, run, i), run[i]) {
      forall i | 0 <= i < |run|
        ensures Rises(At(lane, L, run, i).store, At(lane, L, run, i + 1).store)
      {
        RisesAt(lane, L, run, i);
      }
    }
  }

  lemma RisesAt(lane: Lane, L: nat, run: seq<Step>, i: nat)
    requires i < |run|
    ensures Rises(At(lane, L, run, i).store, At(lane, L, run, i + 1).store) <==> !WritesBack(At(lane, L, run, i), run[i])
  {
    hide WritesBack, At, Rises, Ok;
    AtOk(lane, L, run, i);
    AtNext(lane, L, run, i);
    StepRisesIff(lane, L, At(lane, L, run, i), run[i]);
  }

  lemma AtOk(lane: Lane, L: nat, run: seq<Step>, i: nat)
    requires i <= |run|
    ensures Ok(lane, At(lane, L, run, i))
  {
    ExecOk(lane, L, INIT, run[..i]);
  }

  // ---- what a caller can do about it ----

  /** The floor of its row when `who` last read its watermark, in the first i steps. */
  function FloorAtRead(lane: Lane, L: nat, run: seq<Step>, i: nat, who: nat): int
    requires i <= |run|
  {
    if i == 0 then 0
    else
      var sys := At(lane, L, run, i - 1);
      if run[i - 1] == Move(who) && who in sys.callers && sys.callers[who].ReadMark? then
        Floor(sys.store, sys.callers[who].key)
      else FloorAtRead(lane, L, run, i - 1, who)
  }

  /** No floor is raised on a row between a caller's read of the watermark and its write. */
  ghost predicate NoRaiseUnderWay(lane: Lane, L: nat, run: seq<Step>) {
    forall i, who :: 0 <= i < |run| && run[i] == Move(who) && PcOf(At(lane, L, run, i), who).Writing? ==>
      Floor(At(lane, L, run, i).store, PcOf(At(lane, L, run, i), who).key) <= FloorAtRead(lane, L, run, i, who)
  }

  function PcOf(sys: System, who: nat): Pc {
    if who in sys.callers then sys.callers[who] else Returned(Key("", ""), 0)
  }

  /** A caller on its way to its write carries at least the floor it started from. */
  ghost predicate Carries(pc: Pc, floor: int) {
    && ((pc.ScanningOds? || pc.ScanningLedger?) ==> floor <= pc.base)
    && ((pc.ReadingMax? || pc.Writing?) ==> floor <= pc.reached)
  }

  lemma NextCarries(lane: Lane, L: nat, s: Store, pc: Pc, floor: int)
    requires FloorsKept(s) && (pc.ReadMark? ==> floor == Floor(s, pc.key)) && Carries(pc, floor)
    ensures Carries(Next(lane, L, s, pc).1, floor)
  {
  }

  lemma {:induction false} AllCarry(lane: Lane, L: nat, run: seq<Step>, i: nat, who: nat)
    requires i <= |run| && forall k :: 0 <= k < i ==> FloorsKept(At(lane, L, run, k).store)
    ensures who in At(lane, L, run, i).callers ==> Carries(At(lane, L, run, i).callers[who], FloorAtRead(lane, L, run, i, who))
  {
    hide At, Next, FloorsKept, Carries;
    if i == 0 {
      assert At(lane, L, run, 0) == INIT by { NothingRun(lane, L, run); }
    } else {
      AllCarry(lane, L, run, i - 1, who);
      AtNext(lane, L, run, i - 1);
      StepCarries(lane, L, At(lane, L, run, i - 1), run[i - 1], who, FloorAtRead(lane, L, run, i - 1, who));
    }
  }

  lemma NothingRun(lane: Lane, L: nat, run: seq<Step>)
    ensures At(lane, L, run, 0) == INIT && FloorsKept(INIT.store)
  {
  }

  lemma StepCarries(lane: Lane, L: nat, sys: System, step: Step, who: nat, floor: int)
    requires FloorsKept(sys.store) && (who in sys.callers ==> Carries(sys.callers[who], floor))
    ensures var next := Apply(lane, L, sys, step);
            var read := step == Move(who) && who in sys.callers && sys.callers[who].ReadMark?;
            who in next.callers ==>
              Carries(next.callers[who], if read then Floor(sys.store, sys.callers[who].key) else floor)
  {
    hide FloorsKept, Next;
    if step == Move(who) && who in sys.callers {
      var pc := sys.callers[who];
      NextCarries(lane, L, sys.store, pc, if pc.ReadMark? then Floor(sys.store, pc.key) else floor);
    }
  }

  /** So no watermark ever falls below its floor if no floor is raised between a caller's read and its write. */
  lemma {:induction false} UndisturbedKeepsFloors(lane: Lane, L: nat, run: seq<Step>, i: nat)
    requires NoRaiseUnderWay(lane, L, run) && i <= |run|
    ensures forall k :: 0 <= k <= i ==> FloorsKept(At(lane, L, run, k).store)
  {
    hide At, FloorsKept;
    if i == 0 {
      NothingRun(lane, L, run);
    } else {
      UndisturbedKeepsFloors(lane, L, run, i - 1);
      var sys, step := At(lane, L, run, i - 1), run[i - 1];
      AtNext(lane, L, run, i - 1);
      StepKeepsFloorsIff(lane, L, sys, step);
      if step.Move? {
        AllCarry(lane, L, run, i - 1, step.who);
        assert PcOf(sys, step.who).Writing? ==> Floor(sys.store, PcOf(sys, step.who).key) <= FloorAtRead(lane, L, run, i - 1, step.who);
      }
      assert !WritesLate(sys, step);
    }
  }

  // ---- declarations ----

  predicate Own(step: Step, who: nat) {
    step == Move(who) || (step.Begin? && step.who == who && Entry(step.pc))
  }

  /** The last step of `who`, -1 for none. */
  function LastOwn(run: seq<Step>, who: nat): (j: int)
    ensures -1 <= j < |run| && (j >= 0 ==> Own(run[j], who))
    ensures forall l :: j < l < |run| ==> !Own(run[l], who)
  {
    if run == [] then -1
    else if Own(run[|run| - 1], who) then |run| - 1
    else LastOwn(run[..|run| - 1], who)
  }

  /** The seed statement of a declaration finds a row whose floor is lower, and ignores it. */
  predicate MeetsLower(sys: System, who: nat) {
    && who in sys.callers && sys.callers[who].FloorSeed?
    && sys.callers[who].key in sys.store.marks
    && sys.store.marks[sys.callers[who].key].floor < sys.callers[who].floor
  }

  /** The update statement of a declaration of at least `floor` raises the row. */
  predicate Raises(sys: System, step: Step, key: Key, floor: int) {
    && step.Move? && step.who in sys.callers && sys.callers[step.who].FloorUpdate?
    && sys.callers[step.who].key == key && sys.callers[step.who].floor >= floor
    && Floor(sys.store, key) < sys.callers[step.who].floor
  }

  /** Once a row is there, one step lifts its floor from below a mark to it or above exactly by such an update. */
  lemma StepRaisesIff(lane: Lane, L: nat, sys: System, step: Step, key: Key, floor: int)
    requires key in sys.store.marks
    ensures var t := Apply(lane, L, sys, step).store;
            key in t.marks
            && (Floor(t, key) >= floor <==> Floor(sys.store, key) >= floor || Raises(sys, step, key, floor))
  {
  }

  lemma {:induction false} RecordedLaterIff(lane: Lane, L: nat, run: seq<Step>, j: nat, i: nat, key: Key, floor: int)
    requires j <= i <= |run| && key in At(lane, L, run, j).store.marks
    ensures key in At(lane, L, run, i).store.marks
    ensures Floor(At(lane, L, run, i).store, key) >= floor <==>
            (Floor(At(lane, L, run, j).store, key) >= floor || exists l :: j <= l < i && Raises(At(lane, L, run, l), run[l], key, floor))
    decreases i - j
  {
    hide At, Apply, Raises, Floor;
    if j < i {
      RecordedLaterIff(lane, L, run, j, i - 1, key, floor);
      AtNext(lane, L, run, i - 1);
      StepRaisesIff(lane, L, At(lane, L, run, i - 1), run[i - 1], key, floor);
    }
  }

  /** A caller that has not acted since stands where it stood. */
  lemma {:induction false} Waits(lane: Lane, L: nat, run: seq<Step>, j: nat, i: nat, who: nat)
    requires j <= i <= |run| && forall l :: j <= l < i ==> !Own(run[l], who)
    ensures PcOf(At(lane, L, run, i), who) == PcOf(At(lane, L, run, j), who)
    ensures who in At(lane, L, run, i).callers <==> who in At(lane, L, run, j).callers
    decreases i - j
  {
    hide At, Next;
    if j < i {
      Waits(lane, L, run, j, i - 1, who);
      AtNext(lane, L, run, i - 1);
    }
  }

  /** What the last statement before the answer did: it raised or seeded the row, or it met a lower one. */
  lemma BeforeAnswer(lane: Lane, L: nat, sys: System, step: Step, who: nat)
    requires Own(step, who)
    requires who in Apply(lane, L, sys, step).callers && Apply(lane, L, sys, step).callers[who].FloorRead?
    ensures var next := Apply(lane, L, sys, step);
            var pc := next.callers[who];
            step == Move(who) && pc.key in next.store.marks
            && (Floor(next.store, pc.key) >= pc.floor <==> !MeetsLower(sys, who))
  {
  }

  /**
   Over any interleaving: when a declaration answers, its floor is recorded exactly when its seed statement met no
   lower row, or another declaration of at least that floor raised the row in the meantime. Then it stays recorded.
   */
  lemma DeclarationRecordedIff(lane: Lane, L: nat, run: seq<Step>, who: nat, after: seq<Step>)
    requires who in Exec(lane, L, INIT, run).callers && Exec(lane, L, INIT, run).callers[who].FloorRead?
    ensures var sys := Exec(lane, L, INIT, run);
            var pc := sys.callers[who];
            var j := LastOwn(run, who);
            && 0 <= j
            && (Floor(sys.store, pc.key) >= pc.floor <==>
                  !MeetsLower(At(lane, L, run, j), who)
                  || exists l :: j < l < |run| && Raises(At(lane, L, run, l), run[l], pc.key, pc.floor))
            && Floor(Exec(lane, L, sys, after).store, pc.key) >= Floor(sys.store, pc.key)
  {
    hide Apply, Raises, Floor, MeetsLower, Own, Exec, GrowsTo, Ok;
    var sys, j := Exec(lane, L, INIT, run), LastOwn(run, who);
    assert run[..|run|] == run;
    LaterFloor(lane, L, run, after, sys.callers[who].key);
    if j < 0 {
      Waits(lane, L, run, 0, |run|, who);
      NothingRun(lane, L, run);
      assert false;
    }
    Waits(lane, L, run, j + 1, |run|, who);
    AtNext(lane, L, run, j);
    BeforeAnswer(lane, L, At(lane, L, run, j), run[j], who);
    RecordedLaterIff(lane, L, run, j + 1, |run|, sys.callers[who].key, sys.callers[who].floor);
  }

  lemma LaterFloor(lane: Lane, L: nat, run: seq<Step>, after: seq<Step>, key: Key)
    ensures var sys := Exec(lane, L, INIT, run);
            Floor(Exec(lane, L, sys, after).store, key) >= Floor(sys.store, key)
  {
    ExecOk(lane, L, INIT, run);
    ExecOk(lane, L, Exec(lane, L, INIT, run), after);
  }
}
