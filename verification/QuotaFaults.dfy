/**
 Quota counters when statements fail. A failed recompute or mark is only logged; the next call
 that hits the bucket makes good for it.
 */
module QuotaFaults {
  import opened Facts
  import opened Options
  import opened Quota
  import opened QuotaDebounce
  import opened QuotaPeriods

  // One OnFact call: the fact table it reads, and what goes wrong for each subject and bucket.
  datatype Pass = Pass(dwd: seq<Fact>, c: Call, faults: nat -> Faults)

  function Passes(month: int -> string, index: Index, counters: Counters, run: seq<Pass>): Counters {
    if run == [] then counters
    else
      var p := run[|run| - 1];
      Fire(month, index, Passes(month, index, counters, run[..|run| - 1]), p.dwd, p.c, p.faults)
  }

  function Faultless(run: seq<Pass>): seq<Pass> {
    seq(|run|, i requires 0 <= i < |run| => run[i].(faults := Smooth()))
  }

  /** Facts are only added and have no negative amounts: sums rise from call to call. */
  predicate SumsRise(run: seq<Pass>, sub: Subject, b: Bucket) {
    forall i, j :: 0 <= i <= j < |run| ==> SumFor(run[i].dwd, sub, b) <= SumFor(run[j].dwd, sub, b)
  }

  // ---- what the statements of a call do to one bucket ----

  /** In some visit of the subject the bucket's sum is written. */
  ghost predicate Writes(subs: seq<Subject>, faults: nat -> Faults, sub: Subject, b: Bucket) {
    exists j :: 0 <= j < |subs| && subs[j] == sub && !faults(j)(b).SumFault?
  }

  /** In some visit of the subject the bucket's thresholds are checked and marked. */
  ghost predicate Marks(subs: seq<Subject>, faults: nat -> Faults, sub: Subject, b: Bucket) {
    exists j :: 0 <= j < |subs| && subs[j] == sub && faults(j)(b).NoFault?
  }

  ghost function If(c: bool, used: int): Option<int> {
    if c then Some(used) else None
  }

  /** The later of two, if there is one. */
  function Later(first: Option<int>, second: Option<int>): Option<int> {
    if second.Some? then second else first
  }

  /** The bucket's amount has become `wrote`, if that is some, and is the old one otherwise. */
  predicate Amounts(before: Counters, after: Counters, b: Bucket, wrote: Option<int>) {
    if wrote.Some? then b in after && after[b].used == wrote.value
    else (b in after <==> b in before) && (b in before ==> after[b].used == before[b].used)
  }

  /** The bucket's percentages are the old ones and those that `marked` crosses, if that is some. */
  ghost predicate Latched(before: Counters, after: Counters, sub: Subject, b: Bucket, marked: Option<int>) {
    forall pct :: pct in Triggered(after, b) <==>
      pct in Triggered(before, b) || (marked.Some? && Crosses(sub.rules, b.metric, PeriodOf(b.key), marked.value, pct))
  }

  ghost predicate Became(before: Counters, after: Counters, sub: Subject, b: Bucket, wrote: Option<int>, marked: Option<int>) {
    Amounts(before, after, b, wrote) && Latched(before, after, sub, b, marked)
  }

  lemma ApplyBecomes(month: int -> string, counters: Counters, dwd: seq<Fact>, sub: Subject, c: Call, faults: Faults, b: Bucket)
    ensures var used, hit := SumFor(dwd, sub, b), b in Touched(month, sub, c);
            Became(counters, Apply(month, counters, dwd, sub, c, faults), sub, b,
              If(hit && !faults(b).SumFault?, used), If(hit && faults(b).NoFault?, used))
  {
    var used := SumFor(dwd, sub, b);
    forall pct
      ensures pct in Trigger(Triggered(counters, b), sub.rules, b.metric, PeriodOf(b.key), used)
         <==> pct in Triggered(counters, b) || Crosses(sub.rules, b.metric, PeriodOf(b.key), used, pct)
    {
      TriggerExact(Triggered(counters, b), sub.rules, b.metric, PeriodOf(b.key), used, pct);
    }
    hide Touched, Trigger, Sum, Crosses;
  }

  /** Sums rise, so what an earlier one crosses a later one does too. */
  lemma BecameThen(x: Counters, y: Counters, z: Counters, sub: Subject, b: Bucket,
                   w1: Option<int>, m1: Option<int>, w2: Option<int>, m2: Option<int>)
    requires Became(x, y, sub, b, w1, m1) && Became(y, z, sub, b, w2, m2)
    requires m1.Some? && m2.Some? ==> m1.value <= m2.value
    ensures Became(x, z, sub, b, Later(w1, w2), Later(m1, m2))
  {
  }

  lemma BecameSelf(counters: Counters, sub: Subject, b: Bucket)
    ensures Became(counters, counters, sub, b, None, None)
  {
  }

  lemma WritesNext(subs: seq<Subject>, faults: nat -> Faults, sub: Subject, b: Bucket)
    requires subs != []
    ensures var n := |subs| - 1;
            && (Writes(subs, faults, sub, b) <==> Writes(subs[..n], faults, sub, b) || (subs[n] == sub && !faults(n)(b).SumFault?))
            && (Marks(subs, faults, sub, b) <==> Marks(subs[..n], faults, sub, b) || (subs[n] == sub && faults(n)(b).NoFault?))
  {
    var n := |subs| - 1;
    assert forall j :: 0 <= j < n ==> subs[..n][j] == subs[j];
  }

  lemma {:induction false} ApplyAllBecomes(month: int -> string, counters: Counters, dwd: seq<Fact>, subs: seq<Subject>,
    c: Call, faults: nat -> Faults, sub: Subject, b: Bucket)
    requires b.subject == sub.id && forall s :: s in subs && s.id == sub.id ==> s == sub
    ensures var used, hit := SumFor(dwd, sub, b), b in Touched(month, sub, c);
            Became(counters, ApplyAll(month, counters, dwd, subs, c, faults), sub, b,
              If(hit && Writes(subs, faults, sub, b), used), If(hit && Marks(subs, faults, sub, b), used))
  {
    hide Touched, Apply, Became, SumFor, Writes, Marks;
    if subs == [] {
      NoVisit(faults, sub, b);
      BecameSelf(counters, sub, b);
    } else {
      var n, used, hit := |subs| - 1, SumFor(dwd, sub, b), b in Touched(month, sub, c);
      var front, last := subs[..n], subs[n];
      assert subs == front + [last];
      ApplyAllBecomes(month, counters, dwd, front, c, faults, sub, b);
      WritesNext(subs, faults, sub, b);
      var mid, after := ApplyAll(month, counters, dwd, front, c, faults), ApplyAll(month, counters, dwd, subs, c, faults);
      ApplyBecomes(month, mid, dwd, last, c, faults(n), b);
      if last != sub {
        OtherSubject(month, last, c, b);
        SameBecame(mid, after, last, sub, b);
      }
      BecameThen(counters, mid, after, sub, b,
        If(hit && Writes(front, faults, sub, b), used), If(hit && Marks(front, faults, sub, b), used),
        If(hit && last == sub && !faults(n)(b).SumFault?, used), If(hit && last == sub && faults(n)(b).NoFault?, used));
    }
  }

  lemma NoVisit(faults: nat -> Faults, sub: Subject, b: Bucket)
    ensures !Writes([], faults, sub, b) && !Marks([], faults, sub, b)
  {
  }

  lemma SameBecame(x: Counters, y: Counters, other: Subject, sub: Subject, b: Bucket)
    requires Became(x, y, other, b, None, None)
    ensures Became(x, y, sub, b, None, None)
  {
  }

  ghost predicate PassWrites(month: int -> string, index: Index, p: Pass, sub: Subject, b: Bucket) {
    Hits(month, sub, p.c, b) && Writes(Applicable(index, p.c.seat), p.faults, sub, b)
  }

  ghost predicate PassMarks(month: int -> string, index: Index, p: Pass, sub: Subject, b: Bucket) {
    Hits(month, sub, p.c, b) && Marks(Applicable(index, p.c.seat), p.faults, sub, b)
  }

  lemma FireBecomes(month: int -> string, subs: seq<Subject>, counters: Counters, p: Pass, sub: Subject, b: Bucket)
    requires UniqueSubjects(subs) && sub in subs && b.subject == sub.id
    ensures var index, used := BuildIndex(subs), SumFor(p.dwd, sub, b);
            Became(counters, Fire(month, index, counters, p.dwd, p.c, p.faults), sub, b,
              If(PassWrites(month, index, p, sub, b), used), If(PassMarks(month, index, p, sub, b), used))
  {
    hide Touched, BuildIndex, ApplyAll, Applicable, SumFor, Became;
    var here := Applicable(BuildIndex(subs), p.c.seat);
    if p.c.seat == "" {
      BecameSelf(counters, sub, b);
    } else {
      forall s | s in here
        ensures s in subs
      {
        IndexExact(subs, p.c.seat, s);
      }
      IndexExact(subs, p.c.seat, sub);
      ApplyAllBecomes(month, counters, p.dwd, here, p.c, p.faults, sub, b);
    }
  }

  // ---- whole runs ----

  /** The sum at the last call that hits the bucket. */
  ghost function LastHitSum(month: int -> string, run: seq<Pass>, sub: Subject, b: Bucket): Option<int> {
    if run == [] then None
    else
      var p := run[|run| - 1];
      Later(LastHitSum(month, run[..|run| - 1], sub, b), If(Hits(month, sub, p.c, b), SumFor(p.dwd, sub, b)))
  }

  /** The sum at the last hit that managed to write it. */
  ghost function LastWritten(month: int -> string, index: Index, run: seq<Pass>, sub: Subject, b: Bucket): Option<int> {
    if run == [] then None
    else
      var p := run[|run| - 1];
      Later(LastWritten(month, index, run[..|run| - 1], sub, b), If(PassWrites(month, index, p, sub, b), SumFor(p.dwd, sub, b)))
  }

  /** The sum at the last hit that managed to mark what it crosses. */
  ghost function LastMarked(month: int -> string, index: Index, run: seq<Pass>, sub: Subject, b: Bucket): Option<int> {
    if run == [] then None
    else
      var p := run[|run| - 1];
      Later(LastMarked(month, index, run[..|run| - 1], sub, b), If(PassMarks(month, index, p, sub, b), SumFor(p.dwd, sub, b)))
  }

  lemma {:induction false} MarkedUnder(month: int -> string, index: Index, run: seq<Pass>, sub: Subject, b: Bucket)
    requires run != [] && SumsRise(run, sub, b)
    ensures var m := LastMarked(month, index, run, sub, b); m.Some? ==> m.value <= SumFor(run[|run| - 1].dwd, sub, b)
  {
    hide PassMarks, SumFor;
    var front := run[..|run| - 1];
    if front != [] {
      MarkedUnder(month, index, front, sub, b);
      assert SumFor(run[|run| - 2].dwd, sub, b) <= SumFor(run[|run| - 1].dwd, sub, b);
    }
  }

  /**
   Whatever fails: a bucket ends with the sum at the last hit that wrote it, and with exactly the percentages it held or
   the sum at the last hit that marked them crosses.
   */
  lemma {:induction false} FaultyAt(month: int -> string, subs: seq<Subject>, counters: Counters, run: seq<Pass>, sub: Subject, b: Bucket)
    requires UniqueSubjects(subs) && sub in subs && b.subject == sub.id && SumsRise(run, sub, b)
    ensures var index := BuildIndex(subs);
            Became(counters, Passes(month, index, counters, run), sub, b,
              LastWritten(month, index, run, sub, b), LastMarked(month, index, run, sub, b))
  {
    hide Became, Fire, SumFor, BuildIndex, PassWrites, PassMarks, UniqueSubjects;
    if run == [] {
      BecameSelf(counters, sub, b);
    } else {
      var index, front, p := BuildIndex(subs), run[..|run| - 1], run[|run| - 1];
      var used, mid := SumFor(p.dwd, sub, b), Passes(month, index, counters, front);
      FaultyAt(month, subs, counters, front, sub, b);
      FireBecomes(month, subs, mid, p, sub, b);
      if front != [] {
        MarkedUnder(month, index, front, sub, b);
        assert SumFor(run[|run| - 2].dwd, sub, b) <= used;
      }
      BecameThen(counters, mid, Passes(month, index, counters, run), sub, b,
        LastWritten(month, index, front, sub, b), LastMarked(month, index, front, sub, b),
        If(PassWrites(month, index, p, sub, b), used), If(PassMarks(month, index, p, sub, b), used));
    }
  }

  /** Without faults every hit writes and marks. */
  lemma {:induction false} FaultlessLast(month: int -> string, subs: seq<Subject>, run: seq<Pass>, sub: Subject, b: Bucket)
    requires sub in subs
    ensures var index, sum := BuildIndex(subs), LastHitSum(month, run, sub, b);
            LastWritten(month, index, Faultless(run), sub, b) == sum && LastMarked(month, index, Faultless(run), sub, b) == sum
    ensures SumsRise(run, sub, b) ==> SumsRise(Faultless(run), sub, b)
  {
    hide Hits, SumFor, BuildIndex, PassWrites, PassMarks;
    if run != [] {
      var n := |run| - 1;
      FaultlessLast(month, subs, run[..n], sub, b);
      assert Faultless(run)[..n] == Faultless(run[..n]);
      CleanHit(month, subs, Faultless(run)[n], sub, b);
    }
  }

  lemma CleanHit(month: int -> string, subs: seq<Subject>, p: Pass, sub: Subject, b: Bucket)
    requires sub in subs && Clean(p.faults, b)
    ensures var index := BuildIndex(subs);
            && (PassWrites(month, index, p, sub, b) <==> Hits(month, sub, p.c, b))
            && (PassMarks(month, index, p, sub, b) <==> Hits(month, sub, p.c, b))
  {
    hide Touched, BuildIndex, Applicable;
    if Hits(month, sub, p.c, b) {
      IndexExact(subs, p.c.seat, sub);
      var here := Applicable(BuildIndex(subs), p.c.seat);
      var j :| 0 <= j < |here| && here[j] == sub;
    }
  }

  /** The bucket's amount in the end: the last one written, else the one it had. */
  ghost function EndAmount(counters: Counters, b: Bucket, wrote: Option<int>): Option<int> {
    if wrote.Some? then wrote else if b in counters then Some(counters[b].used) else None
  }

  /** Nothing that the sum at the last hit crosses is left to mark. */
  ghost predicate NothingMissed(counters: Counters, sub: Subject, b: Bucket, sum: int, marked: Option<int>) {
    forall pct :: Crosses(sub.rules, b.metric, PeriodOf(b.key), sum, pct) ==>
      pct in Triggered(counters, b) || (marked.Some? && Crosses(sub.rules, b.metric, PeriodOf(b.key), marked.value, pct))
  }

  /**
   Faults leave no trace in a bucket exactly when it is never hit, or its amount is the sum at its last hit and every
   percentage that sum crosses was held before or is crossed by the sum at the last hit that could mark.
   */
  lemma FaultsShowIff(month: int -> string, subs: seq<Subject>, counters: Counters, run: seq<Pass>, sub: Subject, b: Bucket)
    requires UniqueSubjects(subs) && sub in subs && b.subject == sub.id && SumsRise(run, sub, b)
    ensures var index, sum := BuildIndex(subs), LastHitSum(month, run, sub, b);
            Agree(Passes(month, index, counters, run), Passes(month, index, counters, Faultless(run)), b) <==>
              (sum.Some? ==>
                && EndAmount(counters, b, LastWritten(month, index, run, sub, b)) == sum
                && NothingMissed(counters, sub, b, sum.value, LastMarked(month, index, run, sub, b)))
  {
    hide *;
    var index, sum := BuildIndex(subs), LastHitSum(month, run, sub, b);
    FaultlessLast(month, subs, run, sub, b);
    FaultyAt(month, subs, counters, run, sub, b);
    FaultyAt(month, subs, counters, Faultless(run), sub, b);
    OnlyHitsCount(month, index, run, sub, b);
    var w, m := LastWritten(month, index, run, sub, b), LastMarked(month, index, run, sub, b);
    MarkedReaches(month, index, run, sub, b);
    AgreeIffHeld(counters, Passes(month, index, counters, run), Passes(month, index, counters, Faultless(run)), sub, b, w, m, sum);
  }

  lemma {:induction false} OnlyHitsCount(month: int -> string, index: Index, run: seq<Pass>, sub: Subject, b: Bucket)
    ensures LastHitSum(month, run, sub, b).None? ==>
              LastWritten(month, index, run, sub, b).None? && LastMarked(month, index, run, sub, b).None?
  {
    hide Hits, SumFor, Writes, Marks;
    if run != [] {
      OnlyHitsCount(month, index, run[..|run| - 1], sub, b);
    }
  }

  /** The last sum marked is not above the sum at the last hit. */
  lemma {:induction false} MarkedReaches(month: int -> string, index: Index, run: seq<Pass>, sub: Subject, b: Bucket)
    requires SumsRise(run, sub, b)
    ensures var m, sum := LastMarked(month, index, run, sub, b), LastHitSum(month, run, sub, b);
            m.Some? ==> sum.Some? && m.value <= sum.value
  {
    hide Hits, SumFor, Marks;
    if run != [] {
      var front := run[..|run| - 1];
      MarkedReaches(month, index, front, sub, b);
      MarkedUnder(month, index, run, sub, b);
    }
  }

  lemma AgreeIffHeld(counters: Counters, x: Counters, y: Counters, sub: Subject, b: Bucket,
                     w: Option<int>, m: Option<int>, sum: Option<int>)
    requires Became(counters, x, sub, b, w, m) && Became(counters, y, sub, b, sum, sum)
    requires (sum.None? ==> w.None? && m.None?) && (m.Some? ==> m.value <= sum.value)
    ensures Agree(x, y, b) <==>
            (sum.Some? ==> EndAmount(counters, b, w) == sum && NothingMissed(counters, sub, b, sum.value, m))
  {
    AgreeParts(x, y, b);
    if sum.Some? {
      SameTriggeredIff(counters, x, y, sub, b, m, sum.value);
    }
    hide Latched, NothingMissed, SameTriggered, Crosses;
    if sum.None? {
      NoneTriggered(counters, x, y, sub, b);
    }
  }

  ghost predicate SameTriggered(x: Counters, y: Counters, b: Bucket) {
    forall pct :: pct in Triggered(x, b) <==> pct in Triggered(y, b)
  }

  lemma AgreeParts(x: Counters, y: Counters, b: Bucket)
    ensures Agree(x, y, b) <==> (b in x <==> b in y) && (b in x ==> x[b].used == y[b].used && SameTriggered(x, y, b))
  {
    if b in x && b in y {
      assert Triggered(x, b) == x[b].triggered && Triggered(y, b) == y[b].triggered;
      if SameTriggered(x, y, b) {
        forall pct
          ensures pct in x[b].triggered <==> pct in y[b].triggered
        {
          assert pct in Triggered(x, b) <==> pct in Triggered(y, b);
        }
      }
    }
  }

  lemma NoneTriggered(counters: Counters, x: Counters, y: Counters, sub: Subject, b: Bucket)
    requires Latched(counters, x, sub, b, None) && Latched(counters, y, sub, b, None)
    ensures SameTriggered(x, y, b)
  {
  }

  lemma SameTriggeredIff(counters: Counters, x: Counters, y: Counters, sub: Subject, b: Bucket, m: Option<int>, sum: int)
    requires Latched(counters, x, sub, b, m) && Latched(counters, y, sub, b, Some(sum)) && (m.Some? ==> m.value <= sum)
    ensures SameTriggered(x, y, b) <==> NothingMissed(counters, sub, b, sum, m)
  {
    forall pct | m.Some? && Crosses(sub.rules, b.metric, PeriodOf(b.key), m.value, pct)
      ensures Crosses(sub.rules, b.metric, PeriodOf(b.key), sum, pct)
    {
    }
    hide Crosses;
  }

  /** In particular when the bucket's last hit met no fault. */
  lemma FaultsHeal(month: int -> string, subs: seq<Subject>, counters: Counters, run: seq<Pass>, sub: Subject, b: Bucket)
    requires UniqueSubjects(subs) && sub in subs && b.subject == sub.id && SumsRise(run, sub, b)
    requires var h := LastPass(month, run, sub, b); h > 0 ==> Clean(run[h - 1].faults, b)
    ensures var index := BuildIndex(subs);
            Agree(Passes(month, index, counters, run), Passes(month, index, counters, Faultless(run)), b)
  {
    hide BuildIndex, Hits, SumFor, Passes, Agree, UniqueSubjects, Crosses;
    FaultsShowIff(month, subs, counters, run, sub, b);
    CleanLast(month, subs, run, sub, b);
  }

  /** One past the last call that hits the bucket; 0 if none does. */
  function LastPass(month: int -> string, run: seq<Pass>, sub: Subject, b: Bucket): (h: nat)
    ensures h <= |run|
    ensures h > 0 ==> Hits(month, sub, run[h - 1].c, b)
    ensures forall i :: h <= i < |run| ==> !Hits(month, sub, run[i].c, b)
  {
    if run == [] then 0
    else if Hits(month, sub, run[|run| - 1].c, b) then |run|
    else LastPass(month, run[..|run| - 1], sub, b)
  }

  lemma {:induction false} CleanLast(month: int -> string, subs: seq<Subject>, run: seq<Pass>, sub: Subject, b: Bucket)
    requires sub in subs
    requires var h := LastPass(month, run, sub, b); h > 0 ==> Clean(run[h - 1].faults, b)
    ensures var index, sum := BuildIndex(subs), LastHitSum(month, run, sub, b);
            LastWritten(month, index, run, sub, b) == sum && LastMarked(month, index, run, sub, b) == sum
  {
    hide Hits, SumFor, BuildIndex, Writes, Marks;
    if run != [] {
      var n := |run| - 1;
      if Hits(month, sub, run[n].c, b) {
        CleanHit(month, subs, run[n], sub, b);
      } else {
        CleanLast(month, subs, run[..n], sub, b);
      }
    }
  }

  /** A fault does show: the first call brings a seat to its limit, its mark fails, and the percentage stays untriggered. */
  lemma LastFaultShows(month: int -> string, text: string)
    ensures var sub, f := Subject("s", Seat, [], [Rule(Tokens, Daily, 10, [100])]), Fact(1, "o", "a", 0, "s", text, 10, 0, "");
            var run, index, b := [Pass([f], CallOf(f), _ => _ => MarkFault)], BuildIndex([sub]), Bucket("s", Tokens, DailyKey(0));
            !Agree(Passes(month, index, map[], run), Passes(month, index, map[], Faultless(run)), b)
  {
    var sub, f := Subject("s", Seat, [], [Rule(Tokens, Daily, 10, [100])]), Fact(1, "o", "a", 0, "s", text, 10, 0, "");
    var p, b := Pass([f], CallOf(f), _ => _ => MarkFault), Bucket("s", Tokens, DailyKey(0));
    SeatReached(month, sub, f, b);
    Unmarked(month, BuildIndex([sub]), p, sub, b);
    hide Hits, SumFor, Crosses, BuildIndex, Applicable, Passes, Agree, Writes, LastHitSum, LastMarked, LastWritten, Faultless;
    FaultsShowIff(month, [sub], map[], [p], sub, b);
    assert !NothingMissed(map[], sub, b, 10, None);
  }

  /** One call that hits the bucket and can mark nothing. */
  lemma Unmarked(month: int -> string, index: Index, p: Pass, sub: Subject, b: Bucket)
    requires Hits(month, sub, p.c, b) && forall j :: !p.faults(j)(b).NoFault?
    ensures LastHitSum(month, [p], sub, b) == Some(SumFor(p.dwd, sub, b)) && LastMarked(month, index, [p], sub, b) == None
  {
    hide Hits, SumFor, Applicable;
    assert [p][..0] == [];
    assert LastMarked(month, index, [], sub, b) == None && LastHitSum(month, [], sub, b) == None;
  }

  lemma SeatReached(month: int -> string, sub: Subject, f: Fact, b: Bucket)
    requires sub == Subject("s", Seat, [], [Rule(Tokens, Daily, 10, [100])])
    requires f.seat == "s" && f.tokens == 10 && f.time == 0 && b == Bucket("s", Tokens, DailyKey(0))
    ensures Hits(month, sub, CallOf(f), b) && SumFor([f], sub, b) == 10
    ensures Crosses(sub.rules, b.metric, PeriodOf(b.key), 10, 100)
  {
    DistinctPeriodsExact(sub.rules, Daily);
    assert sub.rules[0] in sub.rules;
    TouchedExact(month, sub, CallOf(f), b);
    hide Touched, DistinctPeriods;
    assert [f][..0] == [] && Sum([], SubjectSeats(sub), b.metric, b.key) == 0;
    assert f.seat in SubjectSeats(sub) && Matches(b.key, f) && Amount(b.metric, f.tokens, f.usd) == 10;
    assert Sum([f], SubjectSeats(sub), b.metric, b.key) == 10;
    assert Limits(sub.rules[0], b.metric, Daily) && 100 in sub.rules[0].thresholds && Reached(10, 10, 100);
  }
}
