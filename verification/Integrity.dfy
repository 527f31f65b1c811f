/** Completeness of a source as the scanner reports it: the classification and the exact hole count. */
module Integrity {
  import opened Sets
  import opened WatermarkStore
  import WatermarkRuns

  datatype Status = StatusOk | MiddleGap | TailGap | Silent

  // A nullable age in milliseconds.
  datatype Age = Unset | Millis(ms: int)

  datatype Criteria = Criteria(middleGapAge: int, tailGapTimeout: int, silenceTimeout: int, knownLossTimeout: int)

  predicate OlderThan(age: Age, limit: int) {
    age.Millis? && age.ms > limit
  }

  /** Division that drops the fraction towards zero. */
  function TruncDiv(a: int, b: int): int
    requires b > 0
  {
    if a >= 0 then a / b else -((-a) / b)
  }

  function Seconds(age: Age): Age {
    if age.Unset? then Unset else Millis(TruncDiv(age.ms, 1000))
  }

  class SourceCompleteness {
    const contiguous: int
    const maxSeen: int
    const clientAllocated: int
    var tailPending: int
    var status: Status
    var promotable: bool
    var staleSeconds: Age  // in seconds here
    var lastEventAgeSeconds: Age

    constructor (mark: Mark)
      ensures contiguous == mark.contiguous && maxSeen == mark.maxSeen && clientAllocated == mark.issued
      ensures tailPending == 0
    {
      contiguous, maxSeen, clientAllocated := mark.contiguous, mark.maxSeen, mark.issued;
      tailPending, status, promotable := 0, StatusOk, false;
      staleSeconds, lastEventAgeSeconds := Unset, Unset;
    }

    method Classify(c: Criteria, stale: Age, lastEvent: Age)
      requires tailPending == 0
      modifies this
      ensures Verdict(status, tailPending, promotable)
           == Classification(Mark(contiguous, maxSeen, clientAllocated, 0), c, stale, lastEvent)
      ensures staleSeconds == (if stale.Unset? then old(staleSeconds) else Seconds(stale))
      ensures lastEventAgeSeconds == (if lastEvent.Unset? then old(lastEventAgeSeconds) else Seconds(lastEvent))
    {
      var accounted := maxSeen;
      if contiguous > accounted {
        accounted := contiguous;
      }
      if clientAllocated > accounted {
        tailPending := clientAllocated - accounted;
      }
      if stale.Millis? {
        staleSeconds := Millis(TruncDiv(stale.ms, 1000));
      }
      if lastEvent.Millis? {
        lastEventAgeSeconds := Millis(TruncDiv(lastEvent.ms, 1000));
      }
      var midStale := stale.Millis? && stale.ms > c.middleGapAge;
      var tailStale := stale.Millis? && stale.ms > c.tailGapTimeout;
      var promoteStale := stale.Millis? && stale.ms > c.knownLossTimeout;
      var silent := lastEvent.Millis? && lastEvent.ms > c.silenceTimeout;
      var maxKnown := maxSeen;
      if clientAllocated > maxKnown {
        maxKnown := clientAllocated;
      }
      if contiguous < maxSeen && midStale {
        status := MiddleGap;
      } else if contiguous < clientAllocated && tailStale {
        status := TailGap;
      } else if silent {
        status := Silent;
      } else {
        status := StatusOk;
      }
      promotable := contiguous < maxKnown && promoteStale;
    }
  }

  datatype Verdict = Verdict(status: Status, tailPending: int, promotable: bool)

  function Classification(m: Mark, c: Criteria, stale: Age, lastEvent: Age): Verdict {
    Verdict(
      if m.contiguous < m.maxSeen && OlderThan(stale, c.middleGapAge) then MiddleGap
      else if m.contiguous < m.issued && OlderThan(stale, c.tailGapTimeout) then TailGap
      else if OlderThan(lastEvent, c.silenceTimeout) then Silent
      else StatusOk,
      Max(0, m.issued - Max(m.maxSeen, m.contiguous)),
      m.contiguous < Max(m.maxSeen, m.issued) && OlderThan(stale, c.knownLossTimeout))
  }

  /**
   What each label means: a hole below the highest received number, stale; else an issued number that is not accounted for,
   stale; else silence. Promotion looks at either hole.
   */
  lemma StatusExact(m: Mark, c: Criteria, stale: Age, lastEvent: Age)
    ensures var v := Classification(m, c, stale, lastEvent);
            var middle := m.contiguous < m.maxSeen && stale.Millis? && stale.ms > c.middleGapAge;
            var tail := m.contiguous < m.issued && stale.Millis? && stale.ms > c.tailGapTimeout;
            && (v.status.MiddleGap? <==> middle)
            && (v.status.TailGap? <==> !middle && tail)
            && (v.status.Silent? <==> !middle && !tail && lastEvent.Millis? && lastEvent.ms > c.silenceTimeout)
            && (v.promotable <==> (m.contiguous < m.maxSeen || m.contiguous < m.issued) && stale.Millis? && stale.ms > c.knownLossTimeout)
  {
  }

  /** The pending tail is the number of issued numbers above the watermark and above the highest received one. */
  lemma TailExact(m: Mark, c: Criteria, stale: Age, lastEvent: Age)
    ensures Classification(m, c, stale, lastEvent).tailPending == |set q | q in Span(m.contiguous, m.issued) && q > m.maxSeen|
  {
    assert (set q | q in Span(m.contiguous, m.issued) && q > m.maxSeen) == Span(Max(m.maxSeen, m.contiguous), m.issued);
  }

  /** Ages are reported in whole seconds, fractions dropped towards zero. */
  lemma SecondsExact(ms: int)
    ensures var s := Seconds(Millis(ms));
            s.Millis? && (ms >= 0 ==> 1000 * s.ms <= ms < 1000 * s.ms + 1000) && (ms <= 0 ==> 1000 * s.ms - 1000 < ms <= 1000 * s.ms)
  {
  }

  predicate NoGap(v: Verdict) {
    !v.status.MiddleGap? && !v.status.TailGap? && v.tailPending == 0 && !v.promotable
  }

  /** A row is free of gaps at every age and under every threshold exactly when its watermark has reached its ceiling. */
  lemma NoGapEver(m: Mark)
    ensures (forall c, stale, lastEvent :: NoGap(Classification(m, c, stale, lastEvent)))
       <==> m.contiguous >= Max(m.maxSeen, m.issued)
  {
    if m.contiguous < Max(m.maxSeen, m.issued) {
      var c := Criteria(0, 0, 0, 0);
      assert Classification(m, c, Millis(1), Unset).promotable;
      assert !NoGap(Classification(m, c, Millis(1), Unset));
    }
  }

  /** Once client reconciliation has run its rounds the scanner has nothing left to report, whatever the ages. */
  lemma ReconciledIsClean(lane: Lane, L: nat, s: Store, key: Key, limit: int, n: nat, c: Criteria, stale: Age, lastEvent: Age)
    requires WatermarkRuns.Fresh(lane, s, key) && Contiguous(s, key) >= 0
    requires n * GapLimit(L, limit) >= Ceiling(s, key) - Contiguous(s, key)
    ensures var t := WatermarkRuns.Rounds(lane, L, s, key, limit, n);
            key in t.marks && NoGap(Classification(t.marks[key], c, stale, lastEvent))
  {
    WatermarkRuns.ReconcileConverges(lane, L, s, key, limit, n);
    WatermarkRuns.RoundsProgress(lane, L, s, key, limit, n);
    NoGapEver(WatermarkRuns.Rounds(lane, L, s, key, limit, n).marks[key]);
  }

  /** DefaultCriteria, in milliseconds. */
  const DEFAULT_CRITERIA := Criteria(600000, 600000, 86400000, 86400000)

  /** Nothing is promoted to the ledger without a gap being reported, exactly when the promotion threshold is the longest. */
  lemma PromotableIsAlarmed(c: Criteria)
    ensures (forall m, stale, lastEvent :: var v := Classification(m, c, stale, lastEvent);
               v.promotable ==> v.status.MiddleGap? || v.status.TailGap?)
       <==> c.knownLossTimeout >= c.middleGapAge && c.knownLossTimeout >= c.tailGapTimeout
  {
    if c.knownLossTimeout < c.middleGapAge {
      var v := Classification(Mark(0, 1, 0, 0), c, Millis(c.middleGapAge), Unset);
      assert v.promotable && !v.status.MiddleGap? && !v.status.TailGap?;
    } else if c.knownLossTimeout < c.tailGapTimeout {
      var v := Classification(Mark(0, 0, 1, 0), c, Millis(c.tailGapTimeout), Unset);
      assert v.promotable && !v.status.MiddleGap? && !v.status.TailGap?;
    }
  }

  /** The production thresholds alarm before they promote, and an alarm is a gap old enough. */
  lemma DefaultAlarms(m: Mark, stale: Age, lastEvent: Age)
    ensures var v := Classification(m, DEFAULT_CRITERIA, stale, lastEvent);
            && (v.promotable ==> v.status.MiddleGap? || v.status.TailGap?)
            && (v.status.MiddleGap? || v.status.TailGap? <==> m.contiguous < Max(m.maxSeen, m.issued) && OlderThan(stale, 600000))
  {
    PromotableIsAlarmed(DEFAULT_CRITERIA);
  }

  // ---- the hole count ----

  /** Event rows of this org in (lo, hi]; rows are counted, not numbers. */
  function Received(s: Store, key: Key, lo: int, hi: int): set<Delivery> {
    set d | d in s.ods && d.key == key && lo < d.num <= hi
  }

  function ReceivedNums(s: Store, key: Key, lo: int, hi: int): set<int> {
    set d | d in Received(s, key, lo, hi) :: d.num
  }

  /** Ledger rows of this org in (lo, hi] whose number never turned up after all. */
  function Ledgered(s: Store, key: Key, lo: int, hi: int): set<Loss> {
    set l | l in s.ledger && l.key == key && lo < l.num <= hi && l.num !in ReceivedNums(s, key, lo, hi)
  }

  function LedgeredNums(s: Store, key: Key, lo: int, hi: int): set<int> {
    set l | l in Ledgered(s, key, lo, hi) :: l.num
  }

  /** middleHoleCount; odsRead and ledgerRead say whether the two counting queries succeeded. */
  function MiddleHoleCount(s: Store, key: Key, lo: int, hi: int, odsRead: bool, ledgerRead: bool): int {
    if hi - lo <= 0 then 0
    else if !odsRead then hi - lo
    else Max(0, hi - lo - |Received(s, key, lo, hi)| - (if ledgerRead then |Ledgered(s, key, lo, hi)| else 0))
  }

  /** The numbers of (lo, hi]. */
  function Span(lo: int, hi: int): (r: set<int>)
    ensures forall q :: q in r <==> lo < q <= hi
    ensures |r| == Max(0, hi - lo)
    decreases if lo < hi then hi - lo else 0
  {
    if hi <= lo then {} else Span(lo, hi - 1) + {hi}
  }

  /** Numbers of (lo, hi] that no org of the source has received or ledgered. */
  function Absent(s: Store, key: Key, lo: int, hi: int): set<int> {
    Span(lo, hi) - Seen(Usage, s, key)
  }

  /** Numbers of (lo, hi] accounted for only under other orgs of the source. */
  function Elsewhere(s: Store, key: Key, lo: int, hi: int): set<int> {
    Span(lo, hi) * Seen(Usage, s, key) - ReceivedNums(s, key, lo, hi) - LedgeredNums(s, key, lo, hi)
  }

  /** Event rows of this org beyond one per number. */
  function Excess(s: Store, key: Key, lo: int, hi: int): int {
    |Received(s, key, lo, hi)| - |ReceivedNums(s, key, lo, hi)|
  }

  lemma LedgeredSize(s: Store, key: Key, lo: int, hi: int)
    ensures |LedgeredNums(s, key, lo, hi)| == |Ledgered(s, key, lo, hi)|
  {
    var f := (l: Loss) => l.num;
    Bijection(Ledgered(s, key, lo, hi), LedgeredNums(s, key, lo, hi), f);
  }

  /** The span splits into absent, received, ledgered and accounted elsewhere. */
  lemma SpanSplits(s: Store, key: Key, lo: int, hi: int)
    requires lo <= hi
    ensures |Absent(s, key, lo, hi)| + |ReceivedNums(s, key, lo, hi)| + |LedgeredNums(s, key, lo, hi)| + |Elsewhere(s, key, lo, hi)| == hi - lo
  {
    var a, r := Absent(s, key, lo, hi), ReceivedNums(s, key, lo, hi);
    var l, e := LedgeredNums(s, key, lo, hi), Elsewhere(s, key, lo, hi);
    forall q | q in r || q in l
      ensures q in Span(lo, hi) && q in Seen(Usage, s, key)
    {
      if q in r {
        assert q in OdsSeqs(Usage, s.ods, key);
      } else {
        assert q in LedgerSeqs(Usage, s.ledger, key);
      }
    }
    assert a !! r && a !! l && a !! e && r !! l && r !! e && l !! e;
    assert Span(lo, hi) == a + r + l + e;
  }

  /** The exact meaning of the count: absent numbers, plus those only other orgs account for, minus surplus rows. */
  lemma HoleCountExact(s: Store, key: Key, lo: int, hi: int)
    ensures MiddleHoleCount(s, key, lo, hi, true, true)
         == Max(0, |Absent(s, key, lo, hi)| + |Elsewhere(s, key, lo, hi)| - Excess(s, key, lo, hi))
  {
    if lo <= hi {
      SpanSplits(s, key, lo, hi);
      LedgeredSize(s, key, lo, hi);
    }
    if hi <= lo {
      assert Received(s, key, lo, hi) == {};
    }
  }

  /** The count under-reports exactly when something is absent and surplus rows outnumber what other orgs hold. */
  lemma HoleCountNeverUnder(s: Store, key: Key, lo: int, hi: int)
    ensures MiddleHoleCount(s, key, lo, hi, true, true) >= |Absent(s, key, lo, hi)|
       <==> Absent(s, key, lo, hi) == {} || Excess(s, key, lo, hi) <= |Elsewhere(s, key, lo, hi)|
  {
    HoleCountExact(s, key, lo, hi);
  }

  ghost predicate OneRowPerNumber(s: Store) {
    forall d, e :: d in s.ods && e in s.ods && d.key == e.key && d.num == e.num ==> d == e
  }

  ghost predicate OneOrg(s: Store, key: Key) {
    && (forall d :: d in s.ods && d.key.source == key.source ==> d.key == key)
    && (forall l :: l in s.ledger && l.key.source == key.source ==> l.key == key)
  }

  /** With one row per number the count is never too small, even when a counting query fails. */
  lemma HoleCountSafe(s: Store, key: Key, lo: int, hi: int, odsRead: bool, ledgerRead: bool)
    requires OneRowPerNumber(s)
    ensures MiddleHoleCount(s, key, lo, hi, odsRead, ledgerRead) >= |Absent(s, key, lo, hi)|
  {
    NoExcess(s, key, lo, hi);
    HoleCountNeverUnder(s, key, lo, hi);
    if lo <= hi {
      SpanSplits(s, key, lo, hi);
    }
  }

  /** If moreover one org uses the source the count is exact, resurrected numbers included. */
  lemma HoleCountOneOrg(s: Store, key: Key, lo: int, hi: int)
    requires OneRowPerNumber(s) && OneOrg(s, key)
    ensures MiddleHoleCount(s, key, lo, hi, true, true) == |Absent(s, key, lo, hi)|
  {
    NoExcess(s, key, lo, hi);
    HoleCountExact(s, key, lo, hi);
    forall q | q in Span(lo, hi) && q in Seen(Usage, s, key)
      ensures q in ReceivedNums(s, key, lo, hi) || q in LedgeredNums(s, key, lo, hi)
    {
      if q in OdsSeqs(Usage, s.ods, key) {
        var d :| d in s.ods && Visible(Usage, d.key, key) && d.num == q;
        assert d in Received(s, key, lo, hi);
      } else if q !in ReceivedNums(s, key, lo, hi) {
        var l :| l in s.ledger && Visible(Usage, l.key, key) && l.num == q;
        assert l in Ledgered(s, key, lo, hi);
      }
    }
    assert Elsewhere(s, key, lo, hi) == {};
  }

  lemma NoExcess(s: Store, key: Key, lo: int, hi: int)
    requires OneRowPerNumber(s)
    ensures Excess(s, key, lo, hi) == 0
  {
    var f := (d: Delivery) => d.num;
    Bijection(Received(s, key, lo, hi), ReceivedNums(s, key, lo, hi), f);
  }

  /** A run whose row hides a hole: 2 arrives under two events, 1 never does, and the scan of (0, 2] reports none. */
  lemma HoleCountHidden(L: nat, key: Key)
    requires L >= 1
    ensures var s := WatermarkRuns.Run(Usage, L, [WatermarkRuns.Arrive(Delivery("a", key, 2)), WatermarkRuns.Arrive(Delivery("b", key, 2)),
                                                  WatermarkRuns.Bump(key, 0)]);
            && key in s.marks && s.marks[key].contiguous == 0 && s.marks[key].maxSeen == 2
            && Absent(s, key, s.marks[key].contiguous, s.marks[key].maxSeen) == {1}
            && MiddleHoleCount(s, key, s.marks[key].contiguous, s.marks[key].maxSeen, true, true) == 0
  {
    var a, b := Delivery("a", key, 2), Delivery("b", key, 2);
    var ops := [WatermarkRuns.Arrive(a), WatermarkRuns.Arrive(b), WatermarkRuns.Bump(key, 0)];
    assert ops[..2] == [WatermarkRuns.Arrive(a), WatermarkRuns.Arrive(b)] && ops[..2][..1] == [WatermarkRuns.Arrive(a)];
    assert WatermarkRuns.Run(Usage, L, []) == EMPTY && [WatermarkRuns.Arrive(a)][..0] == [];
    assert WatermarkRuns.Run(Usage, L, [WatermarkRuns.Arrive(a)]) == Store({a}, {}, map[]);
    assert WatermarkRuns.Run(Usage, L, ops[..2]) == Store({a, b}, {}, map[]);
    TwiceAdvanced(L, key);
    hide Advance;
    TwiceCounted(WatermarkRuns.Run(Usage, L, ops), key);
  }

  lemma TwiceNumbers(s: Store, key: Key)
    requires s.ods == {Delivery("a", key, 2), Delivery("b", key, 2)} && s.ledger == {}
    ensures OdsSeqs(Usage, s.ods, key) == {2} && Seen(Usage, s, key) == {2}
  {
    assert Delivery("a", key, 2) in s.ods;
  }

  lemma TwiceAdvanced(L: nat, key: Key)
    requires L >= 1
    ensures var s := Store({Delivery("a", key, 2), Delivery("b", key, 2)}, {}, map[]);
            Advance(Usage, L, s, key, 0) == s.(marks := map[key := Mark(0, 2, 0, 0)])
  {
    var s := Store({Delivery("a", key, 2), Delivery("b", key, 2)}, {}, map[]);
    TwiceNumbers(s, key);
    hide OdsSeqs, Seen;
    assert 1 !in Window({2}, 0, 0 + L);
    assert MaxSeq({2}) == 2;
  }

  lemma TwiceCounted(s: Store, key: Key)
    requires s.ods == {Delivery("a", key, 2), Delivery("b", key, 2)} && s.ledger == {}
    ensures Absent(s, key, 0, 2) == {1} && MiddleHoleCount(s, key, 0, 2, true, true) == 0
  {
    TwiceNumbers(s, key);
    hide OdsSeqs, Seen;
    assert Span(0, 2) == {1, 2};
    assert Received(s, key, 0, 2) == s.ods;
    assert |s.ods| == 2;
  }
}
