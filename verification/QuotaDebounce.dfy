/**
 After a batch commits, quota is brought up to date once per seat, billing period and UTC day
 instead of once per fact. Both end with the same counters.
 */
module QuotaDebounce {
  import opened Facts
  import opened Options
  import opened Quota
  import opened QuotaPeriods

  /** One OnFact call against the fact table as it is then. */
  function Fire(month: int -> string, index: Index, counters: Counters, dwd: seq<Fact>, c: Call, faults: nat -> Faults): Counters {
    if c.seat == "" then counters else ApplyAll(month, counters, dwd, Applicable(index, c.seat), c, faults)
  }

  function CallOf(f: Fact): Call {
    Call(f.seat, f.tokens, f.usd, f.period, f.time)
  }

  /** The per-fact path: each of the first n facts is inserted and counted before the next. */
  function PerFact(month: int -> string, index: Index, counters: Counters, dwd: seq<Fact>, facts: seq<Fact>, n: nat): Counters
    requires n <= |facts|
  {
    if n == 0 then counters
    else Fire(month, index, PerFact(month, index, counters, dwd, facts, n - 1), dwd + facts[..n], CallOf(facts[n - 1]), Smooth())
  }

  datatype GroupKey = GroupKey(seat: string, period: string, day: int)

  // time: of the first fact of the group.
  datatype GroupSum = GroupSum(tokens: int, usd: int, time: int)

  function GroupKeyOf(f: Fact): GroupKey {
    GroupKey(f.seat, f.period, UtcDay(f.time))
  }

  function Grouped(facts: seq<Fact>): map<GroupKey, GroupSum> {
    if facts == [] then map[]
    else
      var front, f := Grouped(facts[..|facts| - 1]), facts[|facts| - 1];
      var k := GroupKeyOf(f);
      var a := if k in front then front[k] else GroupSum(0, 0, f.time);
      front[k := GroupSum(a.tokens + f.tokens, a.usd + f.usd, a.time)]
  }

  function CallFor(k: GroupKey, a: GroupSum): Call {
    Call(k.seat, a.tokens, a.usd, k.period, a.time)
  }

  /** The debounced path: the whole batch is in the table, then one call per group. */
  function Debounced(month: int -> string, index: Index, counters: Counters, dwd: seq<Fact>, calls: seq<Call>): Counters {
    if calls == [] then counters
    else Fire(month, index, Debounced(month, index, counters, dwd, calls[..|calls| - 1]), dwd, calls[|calls| - 1], Smooth())
  }

  /** The groups' calls in some order of the map. */
  ghost predicate CallsOf(facts: seq<Fact>, calls: seq<Call>) {
    && (forall c :: c in calls ==> exists k :: k in Grouped(facts) && c == CallFor(k, Grouped(facts)[k]))
    && (forall k :: k in Grouped(facts) ==> CallFor(k, Grouped(facts)[k]) in calls)
  }

  /** The facts of a batch that have this seat, billing period and UTC day. */
  function InKey(facts: seq<Fact>, k: GroupKey): seq<Fact> {
    if facts == [] then []
    else
      var f := facts[|facts| - 1];
      InKey(facts[..|facts| - 1], k) + if f.seat == k.seat && f.period == k.period && UtcDay(f.time) == k.day then [f] else []
  }

  function TotalTokens(facts: seq<Fact>): int {
    if facts == [] then 0 else TotalTokens(facts[..|facts| - 1]) + facts[|facts| - 1].tokens
  }

  function TotalUsd(facts: seq<Fact>): int {
    if facts == [] then 0 else TotalUsd(facts[..|facts| - 1]) + facts[|facts| - 1].usd
  }

  /** Each group carries the summed tokens and the summed money of its facts, and the time of the first. */
  lemma {:induction false} GroupTotals(facts: seq<Fact>, k: GroupKey)
    ensures k in Grouped(facts) <==> InKey(facts, k) != []
    ensures k in Grouped(facts) ==>
      var g, own := Grouped(facts)[k], InKey(facts, k);
      g.tokens == TotalTokens(own) && g.usd == TotalUsd(own) && g.time == own[0].time
  {
    if facts != [] {
      var front, f := facts[..|facts| - 1], facts[|facts| - 1];
      GroupTotals(front, k);
      var own := InKey(front, k);
      assert own + [] == own && [] + [f] == [f];
      assert GroupKeyOf(f) == k <==> f.seat == k.seat && f.period == k.period && UtcDay(f.time) == k.day;
      TotalsAppend(own, f);
      hide UtcDay, TotalTokens, TotalUsd;
    }
  }

  lemma TotalsAppend(facts: seq<Fact>, f: Fact)
    ensures TotalTokens(facts + [f]) == TotalTokens(facts) + f.tokens && TotalUsd(facts + [f]) == TotalUsd(facts) + f.usd
    ensures TotalTokens([]) == 0 && TotalUsd([]) == 0
  {
    assert (facts + [f])[..|facts|] == facts;
  }

  /** What projectBatchTx does with a committed batch's facts. */
  method FlushBatch(m: Materializer, dwd: seq<Fact>, facts: seq<Fact>, now: int) returns (ghost calls: seq<Call>)
    modifies m
    ensures CallsOf(facts, calls) && m.index == old(m.index)
    ensures m.counters == Debounced(m.month, old(m.index), old(m.counters), dwd, calls)
  {
    hide Fire;
    var groups: map<GroupKey, GroupSum> := map[];
    for i := 0 to |facts|
      invariant groups == Grouped(facts[..i])
      invariant m.index == old(m.index) && m.counters == old(m.counters)
    {
      assert facts[..i + 1][..i] == facts[..i];
      var f := facts[i];
      var k := GroupKeyOf(f);
      if k !in groups {
        groups := groups[k := GroupSum(0, 0, f.time)];
      }
      groups := groups[k := GroupSum(groups[k].tokens + f.tokens, groups[k].usd + f.usd, groups[k].time)];
    }
    assert facts[..|facts|] == facts;
    calls := [];
    var remaining := groups.Keys;
    while remaining != {}
      invariant remaining <= groups.Keys && m.index == old(m.index)
      invariant forall c :: c in calls ==> exists k :: k in groups && c == CallFor(k, groups[k])
      invariant forall k :: k in groups && k !in remaining ==> CallFor(k, groups[k]) in calls
      invariant m.counters == Debounced(m.month, m.index, old(m.counters), dwd, calls)
    {
      var k :| k in remaining;
      var c := CallFor(k, groups[k]);
      m.OnFact(dwd, c, now, None, Smooth());
      assert (calls + [c])[..|calls|] == calls;
      calls := calls + [c];
      remaining := remaining - {k};
      assert m.counters == Debounced(m.month, m.index, old(m.counters), dwd, calls) by {
        FireDef(m.month, m.index, Debounced(m.month, m.index, old(m.counters), dwd, calls[..|calls| - 1]), dwd, c);
      }
    }
  }

  lemma FireDef(month: int -> string, index: Index, counters: Counters, dwd: seq<Fact>, c: Call)
    ensures Fire(month, index, counters, dwd, c, Smooth())
         == if c.seat == "" then counters else ApplyAll(month, counters, dwd, Applicable(index, c.seat), c, Smooth())
  {
  }

  // ---- one bucket ----

  /** The call reaches the bucket through the given subject. */
  predicate Hits(month: int -> string, sub: Subject, c: Call, b: Bucket) {
    c.seat != "" && c.seat in SubjectSeats(sub) && b in Touched(month, sub, c)
  }

  function SumFor(dwd: seq<Fact>, sub: Subject, b: Bucket): int {
    Sum(dwd, SubjectSeats(sub), b.metric, b.key)
  }

  /** The bucket holds this amount, and exactly the percentages it held or this amount crosses. */
  ghost predicate Settled(before: Counters, after: Counters, sub: Subject, b: Bucket, used: int) {
    && b in after && after[b].used == used
    && forall pct :: pct in after[b].triggered <==> pct in Triggered(before, b) || Crosses(sub.rules, b.metric, PeriodOf(b.key), used, pct)
  }

  predicate Untouched(before: Counters, after: Counters, b: Bucket) {
    (b in after <==> b in before) && (b in before ==> after[b] == before[b])
  }

  lemma ApplyAt(month: int -> string, counters: Counters, dwd: seq<Fact>, sub: Subject, c: Call, faults: Faults, b: Bucket)
    requires faults(b).NoFault?
    ensures var after := Apply(month, counters, dwd, sub, c, faults);
            if b in Touched(month, sub, c) then Settled(counters, after, sub, b, SumFor(dwd, sub, b)) else Untouched(counters, after, b)
  {
    var used := SumFor(dwd, sub, b);
    if b in Touched(month, sub, c) {
      forall pct
        ensures pct in Trigger(Triggered(counters, b), sub.rules, b.metric, PeriodOf(b.key), used)
           <==> pct in Triggered(counters, b) || Crosses(sub.rules, b.metric, PeriodOf(b.key), used, pct)
      {
        TriggerExact(Triggered(counters, b), sub.rules, b.metric, PeriodOf(b.key), used, pct);
      }
    }
    hide Touched, Trigger, Sum, Crosses;
  }

  /** No two enabled subjects share an id. */
  ghost predicate UniqueSubjects(subs: seq<Subject>) {
    forall s, t :: s in subs && t in subs && s.id == t.id ==> s == t
  }

  lemma OtherSubject(month: int -> string, sub: Subject, c: Call, b: Bucket)
    requires sub.id != b.subject
    ensures b !in Touched(month, sub, c)
  {
  }

  lemma {:induction false} ApplyAllAt(month: int -> string, counters: Counters, dwd: seq<Fact>, subs: seq<Subject>,
    c: Call, faults: nat -> Faults, sub: Subject, b: Bucket)
    requires b.subject == sub.id && forall s :: s in subs && s.id == sub.id ==> s == sub
    requires Clean(faults, b)
    ensures var after := ApplyAll(month, counters, dwd, subs, c, faults);
            if sub in subs && b in Touched(month, sub, c) then Settled(counters, after, sub, b, SumFor(dwd, sub, b))
            else Untouched(counters, after, b)
  {
    hide Touched, Apply, Settled, Untouched;
    if subs == [] {
      UntouchedSelf(counters, b);
    } else {
      var front, last := subs[..|subs| - 1], subs[|subs| - 1];
      assert subs == front + [last];
      ApplyAllAt(month, counters, dwd, front, c, faults, sub, b);
      var mid := ApplyAll(month, counters, dwd, front, c, faults);
      var after := ApplyAll(month, counters, dwd, subs, c, faults);
      ApplyAt(month, mid, dwd, last, c, faults(|front|), b);
      if last == sub {
        Compose(counters, mid, after, sub, b, SumFor(dwd, sub, b));
      } else {
        OtherSubject(month, last, c, b);
        Compose(counters, mid, after, sub, b, SumFor(dwd, sub, b));
      }
    }
  }

  lemma UntouchedSelf(a: Counters, k: Bucket)
    ensures Untouched(a, a, k)
  {
  }

  /** Passes over a bucket in sequence, all with the same sum. */
  lemma Compose(a: Counters, b: Counters, c: Counters, sub: Subject, k: Bucket, used: int)
    ensures Settled(a, b, sub, k, used) && Settled(b, c, sub, k, used) ==> Settled(a, c, sub, k, used)
    ensures Settled(a, b, sub, k, used) && Untouched(b, c, k) ==> Settled(a, c, sub, k, used)
    ensures Untouched(a, b, k) && Settled(b, c, sub, k, used) ==> Settled(a, c, sub, k, used)
    ensures Untouched(a, b, k) && Untouched(b, c, k) ==> Untouched(a, c, k)
  {
  }

  lemma FireAt(month: int -> string, subs: seq<Subject>, counters: Counters, dwd: seq<Fact>, c: Call, faults: nat -> Faults,
               sub: Subject, b: Bucket)
    requires UniqueSubjects(subs) && sub in subs && b.subject == sub.id && Clean(faults, b)
    ensures var after := Fire(month, BuildIndex(subs), counters, dwd, c, faults);
            if Hits(month, sub, c, b) then Settled(counters, after, sub, b, SumFor(dwd, sub, b)) else Untouched(counters, after, b)
  {
    hide Touched, Settled, BuildIndex, ApplyAll, Applicable;
    if c.seat != "" {
      var here := Applicable(BuildIndex(subs), c.seat);
      forall s | s in here
        ensures s in subs
      {
        IndexExact(subs, c.seat, s);
      }
      IndexExact(subs, c.seat, sub);
      ApplyAllAt(month, counters, dwd, here, c, faults, sub, b);
    }
  }

  // ---- sums ----

  predicate Contributes(f: Fact, sub: Subject, b: Bucket) {
    f.seat in SubjectSeats(sub) && Matches(b.key, f) && Amount(b.metric, f.tokens, f.usd) > 0
  }

  predicate NonNegative(facts: seq<Fact>) {
    forall f :: f in facts ==> f.tokens >= 0 && f.usd >= 0
  }

  lemma SumOneMore(dwd: seq<Fact>, facts: seq<Fact>, n: nat, sub: Subject, b: Bucket)
    requires n < |facts| && NonNegative(facts)
    ensures SumFor(dwd + facts[..n + 1], sub, b) >= SumFor(dwd + facts[..n], sub, b)
    ensures SumFor(dwd + facts[..n + 1], sub, b) > SumFor(dwd + facts[..n], sub, b) <==> Contributes(facts[n], sub, b)
  {
    var longer := dwd + facts[..n + 1];
    assert longer[..|longer| - 1] == dwd + facts[..n] && longer[|longer| - 1] == facts[n];
    assert facts[n] in facts;
    hide Matches;
  }

  lemma {:induction false} SumsGrow(dwd: seq<Fact>, facts: seq<Fact>, m: nat, n: nat, sub: Subject, b: Bucket)
    requires m <= n <= |facts| && NonNegative(facts)
    ensures SumFor(dwd + facts[..n], sub, b) >= SumFor(dwd + facts[..m], sub, b)
    ensures SumFor(dwd + facts[..n], sub, b) == SumFor(dwd + facts[..m], sub, b)
       <==> forall i :: m <= i < n ==> !Contributes(facts[i], sub, b)
  {
    hide SumFor, Contributes;
    if m < n {
      SumsGrow(dwd, facts, m, n - 1, sub, b);
      SumOneMore(dwd, facts, n - 1, sub, b);
    }
  }

  // ---- the per-fact path ----

  /** One past the last of the first n facts that hits the bucket; 0 if none does. */
  function LastHit(month: int -> string, sub: Subject, facts: seq<Fact>, n: nat, b: Bucket): (h: nat)
    requires n <= |facts|
    ensures h <= n
    ensures h > 0 ==> Hits(month, sub, CallOf(facts[h - 1]), b)
    ensures forall i :: h <= i < n ==> !Hits(month, sub, CallOf(facts[i]), b)
  {
    if n == 0 then 0
    else if Hits(month, sub, CallOf(facts[n - 1]), b) then n
    else LastHit(month, sub, facts, n - 1, b)
  }

  lemma SettledHigher(a: Counters, b: Counters, c: Counters, sub: Subject, k: Bucket, low: int, high: int)
    requires low <= high && Settled(a, b, sub, k, low) && Settled(b, c, sub, k, high)
    ensures Settled(a, c, sub, k, high)
  {
  }

  /** Per fact, a bucket ends with the sum at its last hit. */
  lemma {:induction false} PerFactAt(month: int -> string, subs: seq<Subject>, counters: Counters, dwd: seq<Fact>, facts: seq<Fact>,
                                     n: nat, sub: Subject, b: Bucket)
    requires UniqueSubjects(subs) && sub in subs && b.subject == sub.id && NonNegative(facts) && n <= |facts|
    ensures var after, h := PerFact(month, BuildIndex(subs), counters, dwd, facts, n), LastHit(month, sub, facts, n, b);
            if h > 0 then Settled(counters, after, sub, b, SumFor(dwd + facts[..h], sub, b)) else Untouched(counters, after, b)
  {
    hide Settled, Untouched, Fire, Hits, SumFor, BuildIndex;
    if n == 0 {
      UntouchedSelf(counters, b);
    } else {
      PerFactAt(month, subs, counters, dwd, facts, n - 1, sub, b);
      var mid := PerFact(month, BuildIndex(subs), counters, dwd, facts, n - 1);
      var after := PerFact(month, BuildIndex(subs), counters, dwd, facts, n);
      FireAt(month, subs, mid, dwd + facts[..n], CallOf(facts[n - 1]), Smooth(), sub, b);
      var h := LastHit(month, sub, facts, n - 1, b);
      if Hits(month, sub, CallOf(facts[n - 1]), b) {
        Compose(counters, mid, after, sub, b, SumFor(dwd + facts[..n], sub, b));
        if h > 0 {
          SumsGrow(dwd, facts, h, n, sub, b);
          SettledHigher(counters, mid, after, sub, b, SumFor(dwd + facts[..h], sub, b), SumFor(dwd + facts[..n], sub, b));
        }
      } else {
        Compose(counters, mid, after, sub, b, SumFor(dwd + facts[..h], sub, b));
      }
    }
  }

  // ---- the debounced path ----

  lemma {:induction false} DebouncedAt(month: int -> string, subs: seq<Subject>, counters: Counters, dwd: seq<Fact>,
    calls: seq<Call>, sub: Subject, b: Bucket)
    requires UniqueSubjects(subs) && sub in subs && b.subject == sub.id
    ensures var after := Debounced(month, BuildIndex(subs), counters, dwd, calls);
            if exists c :: c in calls && Hits(month, sub, c, b) then Settled(counters, after, sub, b, SumFor(dwd, sub, b))
            else Untouched(counters, after, b)
  {
    hide Settled, Untouched, Fire, Hits, SumFor, BuildIndex;
    if calls == [] {
      UntouchedSelf(counters, b);
    } else {
      var front, last := calls[..|calls| - 1], calls[|calls| - 1];
      assert calls == front + [last];
      DebouncedAt(month, subs, counters, dwd, front, sub, b);
      var mid := Debounced(month, BuildIndex(subs), counters, dwd, front);
      FireAt(month, subs, mid, dwd, last, Smooth(), sub, b);
      Compose(counters, mid, Debounced(month, BuildIndex(subs), counters, dwd, calls), sub, b, SumFor(dwd, sub, b));
      assert Hits(month, sub, last, b) ==> last in calls;
      assert forall c :: c in calls <==> c in front || c == last;
    }
  }

  ghost predicate InGroup(facts: seq<Fact>, k: GroupKey, metric: Metric) {
    exists f :: f in facts && GroupKeyOf(f) == k && Amount(metric, f.tokens, f.usd) > 0
  }

  /** A group's sum is positive exactly when one of its facts' amounts is. */
  lemma {:induction false} GroupExact(facts: seq<Fact>, k: GroupKey, metric: Metric)
    requires NonNegative(facts)
    ensures k in Grouped(facts) <==> exists f :: f in facts && GroupKeyOf(f) == k
    ensures k in Grouped(facts) ==>
      && UtcDay(Grouped(facts)[k].time) == k.day
      && Grouped(facts)[k].tokens >= 0 && Grouped(facts)[k].usd >= 0
      && (Amount(metric, Grouped(facts)[k].tokens, Grouped(facts)[k].usd) > 0 <==> InGroup(facts, k, metric))
  {
    if facts != [] {
      var front, f := facts[..|facts| - 1], facts[|facts| - 1];
      assert facts == front + [f] && f in facts;
      assert forall g :: g in facts <==> g in front || g == f;
      GroupExact(front, k, metric);
      hide UtcDay;
    }
  }

  lemma KeyOfDay(month: int -> string, p: Period, billingPeriod: string, s: int, t: int)
    requires UtcDay(s) == UtcDay(t)
    ensures KeyAt(month, p, billingPeriod, s) == KeyAt(month, p, billingPeriod, t)
  {
  }

  lemma SameBucket(month: int -> string, sub: Subject, f: Fact, a: GroupSum, b: Bucket)
    requires UtcDay(a.time) == UtcDay(f.time)
    requires Amount(b.metric, f.tokens, f.usd) > 0 && Amount(b.metric, a.tokens, a.usd) > 0
    ensures Hits(month, sub, CallOf(f), b) <==> Hits(month, sub, CallFor(GroupKeyOf(f), a), b)
  {
    hide Touched;
    TouchedExact(month, sub, CallOf(f), b);
    TouchedExact(month, sub, CallFor(GroupKeyOf(f), a), b);
    KeyOfDay(month, PeriodOf(b.key), f.period, a.time, f.time);
    hide KeyAt;
  }

  lemma HitMoves(month: int -> string, sub: Subject, c: Call, b: Bucket)
    requires Hits(month, sub, c, b)
    ensures Amount(b.metric, c.tokens, c.usd) > 0
  {
  }

  /** The groups hit a bucket exactly when the facts do. */
  lemma GroupsHit(month: int -> string, sub: Subject, facts: seq<Fact>, calls: seq<Call>, b: Bucket)
    requires NonNegative(facts) && CallsOf(facts, calls)
    ensures (exists c :: c in calls && Hits(month, sub, c, b)) <==> exists f :: f in facts && Hits(month, sub, CallOf(f), b)
  {
    hide Hits, Grouped, Amount;
    if f :| f in facts && Hits(month, sub, CallOf(f), b) {
      var k := GroupKeyOf(f);
      HitMoves(month, sub, CallOf(f), b);
      GroupExact(facts, k, b.metric);
      assert InGroup(facts, k, b.metric);
      SameBucket(month, sub, f, Grouped(facts)[k], b);
      assert CallFor(k, Grouped(facts)[k]) in calls;
    }
    if c :| c in calls && Hits(month, sub, c, b) {
      var k :| k in Grouped(facts) && c == CallFor(k, Grouped(facts)[k]);
      HitMoves(month, sub, c, b);
      GroupExact(facts, k, b.metric);
      var f :| f in facts && GroupKeyOf(f) == k && Amount(b.metric, f.tokens, f.usd) > 0;
      SameBucket(month, sub, f, Grouped(facts)[k], b);
    }
  }

  /** Same amount, same set of triggered percentages. */
  ghost predicate Agree(a: Counters, b: Counters, k: Bucket) {
    && (k in a <==> k in b)
    && (k in a ==> a[k].used == b[k].used && forall pct :: pct in a[k].triggered <==> pct in b[k].triggered)
  }

  /** After the bucket's last hit comes a fact without a seat that is summed for it all the same. */
  ghost predicate TrailingBlank(month: int -> string, sub: Subject, facts: seq<Fact>, b: Bucket) {
    var h := LastHit(month, sub, facts, |facts|, b);
    h > 0 && exists i :: h <= i < |facts| && facts[i].seat == "" && Contributes(facts[i], sub, b)
  }

  /** A fact that is summed for a bucket hits it, if it has a seat and the bucket is hit at all. */
  lemma ContributorHits(month: int -> string, sub: Subject, c: Call, f: Fact, b: Bucket)
    requires (forall d :: month(d) != "") && Hits(month, sub, c, b) && Contributes(f, sub, b) && f.seat != ""
    ensures Hits(month, sub, CallOf(f), b)
  {
    hide Touched, IsoWeekRange, IsoWeek;
    TouchedExact(month, sub, c, b);
    TouchedExact(month, sub, CallOf(f), b);
    KeysAgree(month, PeriodOf(b.key), c.period, c.time, f);
  }

  lemma AgreeIffSameSum(before: Counters, a: Counters, b: Counters, sub: Subject, k: Bucket, usedA: int, usedB: int)
    requires Settled(before, a, sub, k, usedA) && Settled(before, b, sub, k, usedB)
    ensures Agree(a, b, k) <==> usedA == usedB
  {
  }

  lemma UntouchedAgree(before: Counters, a: Counters, b: Counters, k: Bucket)
    requires Untouched(before, a, k) && Untouched(before, b, k)
    ensures Agree(a, b, k)
  {
  }

  /** After the last hit only facts without a seat still count towards the bucket. */
  lemma TrailingExact(month: int -> string, dwd: seq<Fact>, facts: seq<Fact>, sub: Subject, b: Bucket)
    requires (forall d :: month(d) != "") && NonNegative(facts)
    ensures var h := LastHit(month, sub, facts, |facts|, b);
            h > 0 ==> (SumFor(dwd + facts[..h], sub, b) == SumFor(dwd + facts, sub, b) <==> !TrailingBlank(month, sub, facts, b))
  {
    hide Hits, Contributes, SumFor;
    var h := LastHit(month, sub, facts, |facts|, b);
    if h > 0 {
      SumsGrow(dwd, facts, h, |facts|, sub, b);
      assert facts[..|facts|] == facts;
      forall i | h <= i < |facts| && Contributes(facts[i], sub, b)
        ensures facts[i].seat == ""
      {
        if facts[i].seat != "" {
          ContributorHits(month, sub, CallOf(facts[h - 1]), facts[i], b);
        }
      }
    }
  }

  /**
   Per bucket the two paths agree on amount and triggered set unless a trailing fact without a
   seat is summed for it, and then they differ in the amount.
   */
  lemma BucketAgreesIff(month: int -> string, subs: seq<Subject>, counters: Counters, dwd: seq<Fact>, facts: seq<Fact>, calls: seq<Call>,
                        sub: Subject, b: Bucket)
    requires UniqueSubjects(subs) && sub in subs && b.subject == sub.id && (forall d :: month(d) != "")
    requires NonNegative(facts) && CallsOf(facts, calls)
    ensures Agree(PerFact(month, BuildIndex(subs), counters, dwd, facts, |facts|),
                  Debounced(month, BuildIndex(subs), counters, dwd + facts, calls), b)
       <==> !TrailingBlank(month, sub, facts, b)
  {
    hide Hits, BuildIndex, Contributes, SumFor, CallsOf, Settled, Untouched, Agree, PerFact, Debounced;
    var h := LastHit(month, sub, facts, |facts|, b);
    var one := PerFact(month, BuildIndex(subs), counters, dwd, facts, |facts|);
    var all := Debounced(month, BuildIndex(subs), counters, dwd + facts, calls);
    PerFactAt(month, subs, counters, dwd, facts, |facts|, sub, b);
    DebouncedAt(month, subs, counters, dwd + facts, calls, sub, b);
    GroupsHit(month, sub, facts, calls, b);
    if h > 0 {
      assert facts[h - 1] in facts && Hits(month, sub, CallOf(facts[h - 1]), b);
      TrailingExact(month, dwd, facts, sub, b);
      AgreeIffSameSum(counters, one, all, sub, b, SumFor(dwd + facts[..h], sub, b), SumFor(dwd + facts, sub, b));
    } else {
      UntouchedAgree(counters, one, all, b);
    }
  }

  // ---- buckets of no enabled subject ----

  lemma ForeignFire(month: int -> string, subs: seq<Subject>, counters: Counters, dwd: seq<Fact>, c: Call, faults: nat -> Faults, b: Bucket)
    requires forall s :: s in subs ==> s.id != b.subject
    ensures Untouched(counters, Fire(month, BuildIndex(subs), counters, dwd, c, faults), b)
  {
    var here := Applicable(BuildIndex(subs), c.seat);
    forall s | s in here
      ensures s.id != b.subject
    {
      IndexExact(subs, c.seat, s);
    }
    ForeignApply(month, counters, dwd, here, c, faults, b);
    hide ApplyAll, BuildIndex, Applicable;
  }

  lemma {:induction false} ForeignApply(month: int -> string, counters: Counters, dwd: seq<Fact>, subs: seq<Subject>, c: Call, faults: nat -> Faults, b: Bucket)
    requires forall s :: s in subs ==> s.id != b.subject
    ensures Untouched(counters, ApplyAll(month, counters, dwd, subs, c, faults), b)
  {
    hide Touched, Refreshed;
    if subs != [] {
      var front, last := subs[..|subs| - 1], subs[|subs| - 1];
      assert subs == front + [last];
      ForeignApply(month, counters, dwd, front, c, faults, b);
      OtherSubject(month, last, c, b);
    }
  }

  lemma {:induction false} ForeignPerFact(month: int -> string, subs: seq<Subject>, counters: Counters, dwd: seq<Fact>,
    facts: seq<Fact>, n: nat, b: Bucket)
    requires n <= |facts| && forall s :: s in subs ==> s.id != b.subject
    ensures Untouched(counters, PerFact(month, BuildIndex(subs), counters, dwd, facts, n), b)
  {
    hide Fire, BuildIndex;
    if n > 0 {
      ForeignPerFact(month, subs, counters, dwd, facts, n - 1, b);
      ForeignFire(month, subs, PerFact(month, BuildIndex(subs), counters, dwd, facts, n - 1), dwd + facts[..n], CallOf(facts[n - 1]), Smooth(), b);
    }
  }

  lemma {:induction false} ForeignDebounced(month: int -> string, subs: seq<Subject>, counters: Counters, dwd: seq<Fact>,
    calls: seq<Call>, b: Bucket)
    requires forall s :: s in subs ==> s.id != b.subject
    ensures Untouched(counters, Debounced(month, BuildIndex(subs), counters, dwd, calls), b)
  {
    hide Fire, BuildIndex;
    if calls != [] {
      var front, last := calls[..|calls| - 1], calls[|calls| - 1];
      ForeignDebounced(month, subs, counters, dwd, front, b);
      ForeignFire(month, subs, Debounced(month, BuildIndex(subs), counters, dwd, front), dwd, last, Smooth(), b);
    }
  }

  // ---- the refinement ----

  ghost predicate Equivalent(a: Counters, b: Counters) {
    forall k :: Agree(a, b, k)
  }

  /** Some bucket of some enabled subject has a trailing fact without a seat. */
  ghost predicate SomeTrailingBlank(month: int -> string, subs: seq<Subject>, facts: seq<Fact>) {
    exists sub, b :: sub in subs && InSubject(sub, b) && TrailingBlank(month, sub, facts, b)
  }

  predicate InSubject(sub: Subject, b: Bucket) {
    b.subject == sub.id
  }

  /**
   Debouncing refines per-fact work: for any order of the groups the counters end with the same
   amounts and the same triggered sets, exactly when no bucket has a trailing blank fact.
   */
  lemma DebounceExact(month: int -> string, subs: seq<Subject>, counters: Counters, dwd: seq<Fact>, facts: seq<Fact>, calls: seq<Call>)
    requires UniqueSubjects(subs) && (forall d :: month(d) != "") && NonNegative(facts) && CallsOf(facts, calls)
    ensures Equivalent(PerFact(month, BuildIndex(subs), counters, dwd, facts, |facts|),
                       Debounced(month, BuildIndex(subs), counters, dwd + facts, calls))
       <==> !SomeTrailingBlank(month, subs, facts)
  {
    hide BuildIndex, CallsOf, Untouched, Agree, PerFact, Debounced, TrailingBlank, UniqueSubjects, NonNegative;
    var one := PerFact(month, BuildIndex(subs), counters, dwd, facts, |facts|);
    var all := Debounced(month, BuildIndex(subs), counters, dwd + facts, calls);
    forall sub, b | sub in subs && InSubject(sub, b)
      ensures Agree(one, all, b) <==> !TrailingBlank(month, sub, facts, b)
    {
      BucketAgreesIff(month, subs, counters, dwd, facts, calls, sub, b);
    }
    forall b: Bucket | forall s :: s in subs ==> !InSubject(s, b)
      ensures Agree(one, all, b)
    {
      assert forall s :: s in subs ==> InSubject(s, b) || s.id != b.subject;
      ForeignPerFact(month, subs, counters, dwd, facts, |facts|, b);
      ForeignDebounced(month, subs, counters, dwd + facts, calls, b);
      UntouchedAgree(counters, one, all, b);
    }
  }

  /** In particular when every fact has a seat, or no subject lists the empty one. */
  lemma SeatedFactsAgree(month: int -> string, subs: seq<Subject>, counters: Counters, dwd: seq<Fact>, facts: seq<Fact>, calls: seq<Call>)
    requires UniqueSubjects(subs) && (forall d :: month(d) != "") && NonNegative(facts) && CallsOf(facts, calls)
    requires (forall f :: f in facts ==> f.seat != "") || forall s :: s in subs ==> "" !in SubjectSeats(s)
    ensures Equivalent(PerFact(month, BuildIndex(subs), counters, dwd, facts, |facts|),
                       Debounced(month, BuildIndex(subs), counters, dwd + facts, calls))
  {
    hide BuildIndex, CallsOf, PerFact, Debounced, Equivalent, Hits, Matches;
    DebounceExact(month, subs, counters, dwd, facts, calls);
  }

  /** The blank case does occur: a group that lists the empty seat beside another one. */
  lemma BlankSeatBreaks(month: int -> string, text: string)
    ensures var sub := Subject("g", Group, ["", "s"], [Rule(Tokens, Daily, 10, [100])]);
            var seated, blank := Fact(1, "o", "a", 0, "s", text, 1, 0, ""), Fact(2, "o", "b", 0, "", text, 1, 0, "");
            SomeTrailingBlank(month, [sub], [seated, blank])
  {
    var sub := Subject("g", Group, ["", "s"], [Rule(Tokens, Daily, 10, [100])]);
    var seated, blank := Fact(1, "o", "a", 0, "s", text, 1, 0, ""), Fact(2, "o", "b", 0, "", text, 1, 0, "");
    var facts, b := [seated, blank], Bucket("g", Tokens, DailyKey(0));
    DistinctPeriodsExact(sub.rules, Daily);
    assert sub.rules[0] in sub.rules;
    TouchedExact(month, sub, CallOf(seated), b);
    hide Touched, DistinctPeriods;
    assert Hits(month, sub, CallOf(seated), b) && !Hits(month, sub, CallOf(blank), b);
    assert LastHit(month, sub, facts, 1, b) == 1 && LastHit(month, sub, facts, 2, b) == 1;
    assert facts[1].seat == "" && Contributes(facts[1], sub, b);
    assert TrailingBlank(month, sub, facts, b) && InSubject(sub, b) && sub in [sub];
  }
}
