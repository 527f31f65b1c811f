/**
 Several callers storing conversation records at once, record by record. Each one first looks
 up who owns the record's sequence number and later stores the record with the verdict it took
 from that, and anything may happen in between. The question is when a slot keeps exactly one
 accepted record.
 */
module ConversationRaces {
  import opened Database
  import opened Options
  import opened ConversationIngest

  // A caller between its two statements: the record and the verdict it will be stored with.
  datatype Caller = Caller(rec: Record, quarantined: bool)

  datatype System = System(records: seq<Stored>, callers: map<nat, Caller>)

  // A look-up that fails is a caller that never looks.
  datatype Act = Look(who: nat, rec: Record, pick: nat) | Store(who: nat, fault: Fault)

  function Apply(env: Env, sys: System, act: Act): System {
    match act
    case Look(who, r, pick) =>
      if Validate(r).Some? then sys
      else sys.(callers := sys.callers[who := Caller(r, Verdict(sys.records, r, pick))])
    case Store(who, fault) =>
      if who !in sys.callers then sys
      else
        var c := sys.callers[who];
        System(Insert(env, sys.records, c.rec, c.quarantined, fault).0, sys.callers - {who})
  }

  /** A run that starts on an empty table. */
  function Exec(env: Env, run: seq<Act>): System {
    if run == [] then System([], map[]) else Apply(env, Exec(env, run[..|run| - 1]), run[|run| - 1])
  }

  /** Before the i-th act. */
  function At(env: Env, run: seq<Act>, i: nat): System
    requires i <= |run|
  {
    Exec(env, run[..i])
  }

  lemma AtNext(env: Env, run: seq<Act>, i: nat)
    requires i < |run|
    ensures At(env, run, i + 1) == Apply(env, At(env, run, i), run[i])
  {
    assert run[..i + 1][..i] == run[..i];
  }

  lemma Start(env: Env, run: seq<Act>)
    ensures At(env, run, 0) == System([], map[])
  {
  }

  /** A caller whose look and store follow one another does what ingesting its record alone does. */
  lemma LookThenStore(env: Env, sys: System, who: nat, r: Record, luck: Luck)
    requires Validate(r).None? && !luck.fault.OwnerFault?
    ensures Apply(env, Apply(env, sys, Look(who, r, luck.pick)), Store(who, luck.fault)).records
         == IngestOne(env, Tables(sys.records, map[]), r, luck).tables.records
  {
  }

  predicate SlotTaken(records: seq<Stored>, r: Record) {
    exists s :: s in records && SameSlot(s.rec, r)
  }

  /** The act adds a row whose verdict is not what its slot says by now. */
  predicate Outdated(env: Env, sys: System, act: Act) {
    && act.Store? && act.who in sys.callers
    && Insert(env, sys.records, sys.callers[act.who].rec, sys.callers[act.who].quarantined, act.fault).0 != sys.records
    && (sys.callers[act.who].quarantined <==> !SlotTaken(sys.records, sys.callers[act.who].rec))
  }

  lemma InsertShape(env: Env, records: seq<Stored>, r: Record, q: bool, fault: Fault)
    ensures var after := Insert(env, records, r, q, fault).0;
            after == records || (after == records + [Stored(r, q)] && env.admits(r) && !KeyTaken(records, r))
  {
  }

  lemma AppendIff(records: seq<Stored>, r: Record, q: bool)
    requires Owned(records)
    ensures Owned(records + [Stored(r, q)]) <==> (q <==> SlotTaken(records, r))
  {
    var after := records + [Stored(r, q)];
    if q <==> SlotTaken(records, r) {
      AppendOwned(records, r, q);
    } else {
      assert First(after, |records|) <==> !SlotTaken(records, r) by {
        assert forall j :: 0 <= j < |records| ==> after[j] == records[j];
        if SlotTaken(records, r) {
          var s :| s in records && SameSlot(s.rec, r);
          var j :| 0 <= j < |records| && records[j] == s;
          assert SameSlot(after[j].rec, after[|records|].rec);
        }
      }
    }
  }

  lemma StepOwnedIff(env: Env, sys: System, act: Act)
    requires Owned(sys.records)
    ensures Owned(Apply(env, sys, act).records) <==> !Outdated(env, sys, act)
  {
    hide Insert, Owned, SlotTaken, Verdict;
    if act.Store? && act.who in sys.callers {
      var c := sys.callers[act.who];
      InsertShape(env, sys.records, c.rec, c.quarantined, act.fault);
      AppendIff(sys.records, c.rec, c.quarantined);
    }
  }

  /**
   Over any interleaving: in every state the first record of each slot is its one accepted record, exactly when no row
   is ever added with a verdict that its slot has outdated.
   */
  lemma OwnedThroughoutIff(env: Env, run: seq<Act>)
    ensures (forall i :: 0 <= i <= |run| ==> Owned(At(env, run, i).records)) <==>
            (forall i :: 0 <= i < |run| ==> !Outdated(env, At(env, run, i), run[i]))
  {
    hide Owned, Outdated, At;
    if forall i :: 0 <= i <= |run| ==> Owned(At(env, run, i).records) {
      forall i | 0 <= i < |run|
        ensures !Outdated(env, At(env, run, i), run[i])
      {
        assert Owned(At(env, run, i).records) && Owned(At(env, run, i + 1).records);
        OwnedNext(env, run, i);
      }
    }
    if forall i :: 0 <= i < |run| ==> !Outdated(env, At(env, run, i), run[i]) {
      forall i | 0 <= i <= |run|
        ensures Owned(At(env, run, i).records)
      {
        OwnedUpTo(env, run, i);
      }
    }
  }

  lemma OwnedNext(env: Env, run: seq<Act>, i: nat)
    requires i < |run| && Owned(At(env, run, i).records)
    ensures Owned(At(env, run, i + 1).records) <==> !Outdated(env, At(env, run, i), run[i])
  {
    hide Owned, Outdated, Apply;
    AtNext(env, run, i);
    StepOwnedIff(env, At(env, run, i), run[i]);
  }

  lemma {:induction false} OwnedUpTo(env: Env, run: seq<Act>, i: nat)
    requires i <= |run| && forall k :: 0 <= k < i ==> !Outdated(env, At(env, run, k), run[k])
    ensures Owned(At(env, run, i).records)
  {
    hide Outdated, Apply;
    if i == 0 {
      Start(env, run);
    } else {
      OwnedUpTo(env, run, i - 1);
      OwnedNext(env, run, i - 1);
    }
  }

  // ---- what callers can do about it ----

  /** The table as it was when `who` last looked, in the first i acts. */
  function LookedAt(env: Env, run: seq<Act>, i: nat, who: nat): seq<Stored>
    requires i <= |run|
  {
    if i == 0 then []
    else if run[i - 1].Look? && run[i - 1].who == who && Validate(run[i - 1].rec).None? then At(env, run, i - 1).records
    else LookedAt(env, run, i - 1, who)
  }

  lemma {:induction false} VerdictWas(env: Env, run: seq<Act>, i: nat, who: nat)
    requires i <= |run|
    ensures LookedAt(env, run, i, who) <= At(env, run, i).records
    ensures who in At(env, run, i).callers ==>
      var c := At(env, run, i).callers[who];
      exists pick :: c.quarantined == Verdict(LookedAt(env, run, i, who), c.rec, pick)
  {
    hide Verdict, Insert, At;
    if i == 0 {
      assert At(env, run, 0) == System([], map[]) by { Start(env, run); }
    } else {
      VerdictWas(env, run, i - 1, who);
      AtNext(env, run, i - 1);
      var sys := At(env, run, i - 1);
      if run[i - 1].Store? && run[i - 1].who in sys.callers {
        var c := sys.callers[run[i - 1].who];
        InsertShape(env, sys.records, c.rec, c.quarantined, run[i - 1].fault);
      }
    }
  }

  /** Whenever a caller stores, no row joined its slot since it looked, and its own event was not in the slot then. */
  ghost predicate NoRival(env: Env, run: seq<Act>) {
    forall i :: 0 <= i < |run| && run[i].Store? && run[i].who in At(env, run, i).callers ==>
      Unrivalled(At(env, run, i).records, LookedAt(env, run, i, run[i].who), At(env, run, i).callers[run[i].who].rec)
  }

  predicate Unrivalled(now: seq<Stored>, before: seq<Stored>, r: Record) {
    && (SlotTaken(now, r) ==> SlotTaken(before, r))
    && !OwnSlotTaken(before, r)
  }

  /** Then ownership is kept in every state. */
  lemma NoRivalOwned(env: Env, run: seq<Act>, i: nat)
    requires NoRival(env, run) && i <= |run|
    ensures Owned(At(env, run, i).records)
  {
    forall k | 0 <= k < |run|
      ensures !Outdated(env, At(env, run, k), run[k])
    {
      NotOutdated(env, run, k);
    }
    hide Outdated;
    OwnedUpTo(env, run, i);
  }

  lemma NotOutdated(env: Env, run: seq<Act>, k: nat)
    requires NoRival(env, run) && k < |run|
    ensures !Outdated(env, At(env, run, k), run[k])
  {
    hide Insert, Verdict, At, LookedAt;
    var sys := At(env, run, k);
    if run[k].Store? && run[k].who in sys.callers {
      var c, looked := sys.callers[run[k].who], LookedAt(env, run, k, run[k].who);
      VerdictWas(env, run, k, run[k].who);
      var pick :| c.quarantined == Verdict(looked, c.rec, pick);
      assert forall s :: s in looked ==> s in sys.records;
      VerdictExact(looked, c.rec, pick);
    }
  }

  /** Two callers that both look before either stores leave a slot with two accepted records, whoever stores first. */
  lemma TwoCallersBreakOwnership(env: Env, a: Record, b: Record, m: nat, n: nat)
    requires Validate(a).None? && Validate(b).None? && env.admits(a) && env.admits(b)
    requires a.id != b.id && SameSlot(a, b)
    ensures var run := [Look(0, a, m), Look(1, b, n), Store(0, NoFault), Store(1, NoFault)];
            At(env, run, 4).records == [Stored(a, false), Stored(b, false)] && !Owned(At(env, run, 4).records)
  {
    var run := [Look(0, a, m), Look(1, b, n), Store(0, NoFault), Store(1, NoFault)];
    assert !Verdict([], a, m) && !Verdict([], b, n);
    Start(env, run);
    AtNext(env, run, 0);
    AtNext(env, run, 1);
    AtNext(env, run, 2);
    AtNext(env, run, 3);
    hide At;
    assert At(env, run, 1) == System([], map[0 := Caller(a, false)]);
    assert At(env, run, 2) == System([], map[0 := Caller(a, false), 1 := Caller(b, false)]);
    assert At(env, run, 3) == System([Stored(a, false)], map[1 := Caller(b, false)]);
    TwoStores(env, a, b);
    assert At(env, run, 4).records == [Stored(a, false), Stored(b, false)];
    assert !First([Stored(a, false), Stored(b, false)], 1);
  }

  lemma TwoStores(env: Env, a: Record, b: Record)
    requires env.admits(a) && env.admits(b) && a.id != b.id && SameSlot(a, b)
    ensures Insert(env, [Stored(a, false)], b, false, NoFault).0 == [Stored(a, false), Stored(b, false)]
    ensures SameSlot([Stored(a, false), Stored(b, false)][0].rec, [Stored(a, false), Stored(b, false)][1].rec)
  {
  }
}
