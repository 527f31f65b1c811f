/**
 Quota counters: for every subject, metric and period a materialized sum over the fact table,
 and the thresholds it has crossed. Amounts are integers in the smallest unit.
 */
module Quota {
  import opened Facts
  import opened Options
  import opened QuotaPeriods

  datatype Metric = Tokens | Usd | OtherMetric(name: string)

  datatype Rule = Rule(metric: Metric, period: Period, limit: int, thresholds: seq<int>)

  datatype Kind = Seat | Group | OtherKind

  datatype Subject = Subject(id: string, kind: Kind, members: seq<string>, rules: seq<Rule>)

  datatype Bucket = Bucket(subject: string, metric: Metric, key: PeriodKey)

  datatype Counter = Counter(used: int, triggered: seq<int>)

  type Counters = map<Bucket, Counter>

  // The arguments of one OnFact call.
  datatype Call = Call(seat: string, tokens: int, usd: int, period: string, time: int)

  const ALL_METRICS := [Tokens, Usd]

  function Amount(m: Metric, tokens: int, usd: int): int {
    match m
    case Tokens => tokens
    case Usd => usd
    case OtherMetric(_) => 0
  }

  /** sumFromDWD. */
  function Sum(dwd: seq<Fact>, seats: seq<string>, metric: Metric, key: PeriodKey): int {
    if dwd == [] then 0
    else
      var f := dwd[|dwd| - 1];
      Sum(dwd[..|dwd| - 1], seats, metric, key) + if f.seat in seats && Matches(key, f) then Amount(metric, f.tokens, f.usd) else 0
  }

  /** The seats whose usage rolls up to a subject. */
  function SubjectSeats(sub: Subject): seq<string> {
    match sub.kind
    case Seat => [sub.id]
    case Group => sub.members
    case OtherKind => []
  }

  /** One more fact adds its tokens to a tokens bucket, its money to a money bucket, if its seat counts and it is of the period. */
  lemma SumAppend(dwd: seq<Fact>, f: Fact, seats: seq<string>, metric: Metric, key: PeriodKey)
    ensures Sum(dwd + [f], seats, metric, key) - Sum(dwd, seats, metric, key)
         == (if f.seat !in seats || !Matches(key, f) then 0 else if metric == Tokens then f.tokens else if metric == Usd then f.usd else 0)
    ensures Sum([], seats, metric, key) == 0
  {
    assert (dwd + [f])[..|dwd|] == dwd;
  }

  // ---- the index of subjects by seat ----

  type Index = map<string, seq<Subject>>

  function Applicable(index: Index, seat: string): seq<Subject> {
    if seat in index then index[seat] else []
  }

  function AddSeats(index: Index, sub: Subject, seats: seq<string>): Index {
    if seats == [] then index
    else
      var front, seat := AddSeats(index, sub, seats[..|seats| - 1]), seats[|seats| - 1];
      front[seat := Applicable(front, seat) + [sub]]
  }

  function BuildIndex(subs: seq<Subject>): Index {
    if subs == [] then map[]
    else
      var sub := subs[|subs| - 1];
      AddSeats(BuildIndex(subs[..|subs| - 1]), sub, SubjectSeats(sub))
  }

  lemma {:induction false} AddSeatsExact(index: Index, sub: Subject, seats: seq<string>, seat: string, s: Subject)
    ensures s in Applicable(AddSeats(index, sub, seats), seat) <==> s in Applicable(index, seat) || (s == sub && seat in seats)
  {
    if seats != [] {
      var front, last := seats[..|seats| - 1], seats[|seats| - 1];
      AddSeatsExact(index, sub, front, seat, s);
      assert seats == front + [last];
    }
  }

  /** A seat's subjects are those it rolls up to. */
  lemma {:induction false} IndexExact(subs: seq<Subject>, seat: string, s: Subject)
    ensures s in Applicable(BuildIndex(subs), seat) <==> s in subs && seat in SubjectSeats(s)
  {
    if subs != [] {
      var front, last := subs[..|subs| - 1], subs[|subs| - 1];
      IndexExact(front, seat, s);
      AddSeatsExact(BuildIndex(front), last, SubjectSeats(last), seat, s);
      assert subs == front + [last];
    }
  }

  // ---- one subject ----

  function DistinctPeriods(rules: seq<Rule>): seq<Period> {
    if rules == [] then []
    else
      var front, p := DistinctPeriods(rules[..|rules| - 1]), rules[|rules| - 1].period;
      if p == Other("") || p in front then front else front + [p]
  }

  lemma {:induction false} DistinctPeriodsExact(rules: seq<Rule>, p: Period)
    ensures p in DistinctPeriods(rules) <==> p != Other("") && exists r :: r in rules && r.period == p
  {
    if rules != [] {
      DistinctPeriodsExact(rules[..|rules| - 1], p);
      assert forall r :: r in rules <==> r in rules[..|rules| - 1] || r == rules[|rules| - 1];
    }
  }

  function BucketFor(month: int -> string, sub: Subject, metric: Metric, p: Period, c: Call): Bucket {
    Bucket(sub.id, metric, KeyAt(month, p, c.period, c.time))
  }

  /** The buckets a call recomputes: of the rules' periods, and only the metrics it moved. */
  function Touched(month: int -> string, sub: Subject, c: Call): set<Bucket> {
    if SubjectSeats(sub) == [] then {}
    else set p, m | p in DistinctPeriods(sub.rules) && m in ALL_METRICS && Amount(m, c.tokens, c.usd) > 0 :: BucketFor(month, sub, m, p, c)
  }

  lemma TouchedExact(month: int -> string, sub: Subject, c: Call, b: Bucket)
    ensures b in Touched(month, sub, c)
       <==> && SubjectSeats(sub) != [] && b.subject == sub.id
            && b.metric in ALL_METRICS && Amount(b.metric, c.tokens, c.usd) > 0
            && PeriodOf(b.key) in DistinctPeriods(sub.rules) && b.key == KeyAt(month, PeriodOf(b.key), c.period, c.time)
  {
    hide IsoWeek, DistinctPeriods;
    var p := PeriodOf(b.key);
    if SubjectSeats(sub) != [] && b.subject == sub.id && b.metric in ALL_METRICS && Amount(b.metric, c.tokens, c.usd) > 0
      && p in DistinctPeriods(sub.rules) && b.key == KeyAt(month, p, c.period, c.time) {
      assert b == BucketFor(month, sub, b.metric, p, c);
    }
  }

  predicate Reached(used: int, limit: int, pct: int) {
    used * 100 >= limit * pct
  }

  function TriggerTiers(triggered: seq<int>, limit: int, tiers: seq<int>, used: int): seq<int> {
    if tiers == [] then triggered
    else
      var front, pct := TriggerTiers(triggered, limit, tiers[..|tiers| - 1], used), tiers[|tiers| - 1];
      if Reached(used, limit, pct) && pct !in front then front + [pct] else front
  }

  predicate Limits(r: Rule, metric: Metric, period: Period) {
    r.metric == metric && r.period == period && r.limit > 0
  }

  /** A bucket's triggered list after checking all its rules. */
  function Trigger(triggered: seq<int>, rules: seq<Rule>, metric: Metric, period: Period, used: int): seq<int> {
    if rules == [] then triggered
    else
      var front, r := Trigger(triggered, rules[..|rules| - 1], metric, period, used), rules[|rules| - 1];
      if Limits(r, metric, period) then TriggerTiers(front, r.limit, r.thresholds, used) else front
  }

  /** The percentages of a bucket's rules that an amount reaches. */
  ghost predicate Crosses(rules: seq<Rule>, metric: Metric, period: Period, used: int, pct: int) {
    exists r :: r in rules && Limits(r, metric, period) && pct in r.thresholds && Reached(used, r.limit, pct)
  }

  lemma {:induction false} TiersExact(triggered: seq<int>, limit: int, tiers: seq<int>, used: int, pct: int)
    ensures pct in TriggerTiers(triggered, limit, tiers, used) <==> pct in triggered || (pct in tiers && Reached(used, limit, pct))
  {
    if tiers != [] {
      var front := tiers[..|tiers| - 1];
      TiersExact(triggered, limit, front, used, pct);
      assert tiers == front + [tiers[|tiers| - 1]];
    }
  }

  /** Thresholds latch: the old ones stay, and exactly the reached ones are added. */
  lemma {:induction false} TriggerExact(triggered: seq<int>, rules: seq<Rule>, metric: Metric, period: Period, used: int, pct: int)
    ensures pct in Trigger(triggered, rules, metric, period, used) <==> pct in triggered || Crosses(rules, metric, period, used, pct)
  {
    if rules != [] {
      var front, r := rules[..|rules| - 1], rules[|rules| - 1];
      TriggerExact(triggered, front, metric, period, used, pct);
      TiersExact(Trigger(triggered, front, metric, period, used), r.limit, r.thresholds, used, pct);
      assert forall x :: x in rules <==> x in front || x == r;
      hide Reached, Limits;
    }
  }

  predicate EachOnce<T(==)>(xs: seq<T>) {
    forall i, j :: 0 <= i < j < |xs| ==> xs[i] != xs[j]
  }

  lemma {:induction false} TiersOnce(triggered: seq<int>, limit: int, tiers: seq<int>, used: int)
    requires EachOnce(triggered)
    ensures EachOnce(TriggerTiers(triggered, limit, tiers, used))
  {
    if tiers != [] {
      TiersOnce(triggered, limit, tiers[..|tiers| - 1], used);
    }
  }

  /** Neither a percentage nor a period is ever listed twice, however often the rules name it. */
  lemma {:induction false} ListedOnce(triggered: seq<int>, rules: seq<Rule>, metric: Metric, period: Period, used: int)
    requires EachOnce(triggered)
    ensures EachOnce(Trigger(triggered, rules, metric, period, used)) && EachOnce(DistinctPeriods(rules))
  {
    if rules != [] {
      var front, r := rules[..|rules| - 1], rules[|rules| - 1];
      ListedOnce(triggered, front, metric, period, used);
      TiersOnce(Trigger(triggered, front, metric, period, used), r.limit, r.thresholds, used);
    }
  }

  function Triggered(counters: Counters, b: Bucket): seq<int> {
    if b in counters then counters[b].triggered else []
  }

  // What goes wrong for a bucket in one pass: the sum or its write, reading the row back, or writing the triggered list.
  datatype Fault = NoFault | SumFault | ReadFault | MarkFault

  type Faults = Bucket -> Fault

  function NoFaults(): Faults {
    (_: Bucket) => NoFault
  }

  /** Nothing goes wrong for the bucket. */
  ghost predicate Clean(faults: nat -> Faults, b: Bucket) {
    forall j :: faults(j)(b).NoFault?
  }

  function Smooth(): nat -> Faults {
    (_: nat) => NoFaults()
  }

  /** A bucket whose amount was written in one pass over its subject. */
  function Refreshed(counters: Counters, dwd: seq<Fact>, sub: Subject, b: Bucket, fault: Fault): Counter {
    var used := Sum(dwd, SubjectSeats(sub), b.metric, b.key);
    Counter(used,
      if fault.NoFault? then Trigger(Triggered(counters, b), sub.rules, b.metric, PeriodOf(b.key), used) else Triggered(counters, b))
  }

  /** The touched buckets whose amount a pass writes. */
  function Written(month: int -> string, sub: Subject, c: Call, faults: Faults): set<Bucket> {
    set b | b in Touched(month, sub, c) && !faults(b).SumFault?
  }

  /** What applyToSubject leaves: the written buckets refreshed, the others as they were. */
  function Apply(month: int -> string, counters: Counters, dwd: seq<Fact>, sub: Subject, c: Call, faults: Faults): Counters {
    map b | b in counters.Keys + Written(month, sub, c, faults) ::
      if b in Written(month, sub, c, faults) then Refreshed(counters, dwd, sub, b, faults(b)) else counters[b]
  }

  /** What OnFact leaves, subject by subject. */
  function ApplyAll(month: int -> string, counters: Counters, dwd: seq<Fact>, subs: seq<Subject>, c: Call, faults: nat -> Faults): Counters {
    if subs == [] then counters
    else Apply(month, ApplyAll(month, counters, dwd, subs[..|subs| - 1], c, faults), dwd, subs[|subs| - 1], c, faults(|subs| - 1))
  }

  lemma ReachedAsReal(used: int, limit: int, pct: int)
    ensures Reached(used, limit, pct) <==> used as real >= limit as real * pct as real / 100.0
  {
    assert (limit * pct) as real == limit as real * pct as real;
    assert (used * 100) as real == used as real * 100.0;
  }

  /**
   After a faultless pass a bucket's amount is the sum, and its percentages are those it held and those a rule of its metric
   and period with a positive limit lists and the amount reaches: amount >= limit * percentage / 100.
   */
  lemma TriggeredExact(month: int -> string, counters: Counters, dwd: seq<Fact>, sub: Subject, c: Call, faults: Faults, b: Bucket, pct: int)
    requires b in Touched(month, sub, c) && faults(b).NoFault?
    ensures var after := Apply(month, counters, dwd, sub, c, faults);
            && b in after && after[b].used == Sum(dwd, SubjectSeats(sub), b.metric, b.key)
            && (pct in after[b].triggered <==>
                  (b in counters && pct in counters[b].triggered)
                  || exists r :: r in sub.rules && r.metric == b.metric && r.period == PeriodOf(b.key) && r.limit > 0
                       && pct in r.thresholds && after[b].used as real >= r.limit as real * pct as real / 100.0)
  {
    var used := Sum(dwd, SubjectSeats(sub), b.metric, b.key);
    TriggerExact(Triggered(counters, b), sub.rules, b.metric, PeriodOf(b.key), used, pct);
    hide Touched, Sum, Trigger, Reached;
    forall r | r in sub.rules
      ensures Reached(used, r.limit, pct) <==> used as real >= r.limit as real * pct as real / 100.0
    {
      ReachedAsReal(used, r.limit, pct);
    }
  }

  /** The least amount that triggers a positive percentage of a bucket's only rule: the percentage of the limit, rounded up. */
  lemma LeastTrigger(r: Rule, pct: int, used: int)
    requires r.limit > 0 && pct > 0 && pct in r.thresholds
    ensures pct in Trigger([], [r], r.metric, r.period, used) <==> used >= (r.limit * pct + 99) / 100
  {
    TriggerExact([], [r], r.metric, r.period, used, pct);
    var n := r.limit * pct;
    assert Reached(used, r.limit, pct) <==> used * 100 >= n;
    assert used * 100 >= n <==> used >= (n + 99) / 100;
    hide Trigger;
    assert [r][0] in [r];
  }

  datatype Acc = Acc(used: int, triggered: seq<int>)

  class Materializer {
    const month: int -> string
    const ttl: int
    var counters: Counters
    var index: Index
    var loaded: bool
    var loadedAt: int

    constructor (month: int -> string, ttl: int)
      ensures this.month == month && this.ttl == (if ttl <= 0 then 30000 else ttl)
      ensures counters == map[] && index == map[] && !loaded
    {
      this.month, this.ttl := month, if ttl <= 0 then 30000 else ttl;
      counters, index, loaded, loadedAt := map[], map[], false, 0;
    }

    method IndexSubject(index: Index, sub: Subject) returns (built: Index)
      ensures built == AddSeats(index, sub, SubjectSeats(sub))
    {
      built := index;
      var seats := SubjectSeats(sub);
      for j := 0 to |seats|
        invariant built == AddSeats(index, sub, seats[..j])
      {
        assert seats[..j + 1][..j] == seats[..j];
        built := built[seats[j] := Applicable(built, seats[j]) + [sub]];
      }
      assert seats[..|seats|] == seats;
    }

    /** Reloads the enabled subjects when the cache is stale; a failed load keeps the last ones. */
    method EnsureConfig(now: int, load: Option<seq<Subject>>)
      modifies this`index, this`loaded, this`loadedAt
      ensures if (old(loaded) && now - old(loadedAt) < ttl) || load.None?
              then index == old(index) && loaded == old(loaded) && loadedAt == old(loadedAt)
              else index == BuildIndex(load.value) && loaded && loadedAt == now
    {
      hide AddSeats, SubjectSeats;
      var current := loaded && now - loadedAt < ttl;
      if current || load.None? {
        return;
      }
      var subs, built := load.value, map[];
      for i := 0 to |subs|
        invariant built == BuildIndex(subs[..i])
      {
        assert subs[..i + 1][..i] == subs[..i];
        built := IndexSubject(built, subs[i]);
      }
      assert subs[..|subs|] == subs;
      index, loaded, loadedAt := built, true, now;
    }

    /** Absolute SET of the sum; the triggered list of an existing row survives. */
    method RecomputeFromDWD(dwd: seq<Fact>, b: Bucket, seats: seq<string>, fault: Fault) returns (acc: Option<Acc>)
      modifies this`counters
      ensures acc == if fault.SumFault? || fault.ReadFault? then None
                     else Some(Acc(Sum(dwd, seats, b.metric, b.key), Triggered(old(counters), b)))
      ensures counters == if fault.SumFault? then old(counters)
                          else old(counters)[b := Counter(Sum(dwd, seats, b.metric, b.key), Triggered(old(counters), b))]
    {
      if fault.SumFault? {
        return None;
      }
      var used := 0;
      for i := 0 to |dwd|
        invariant used == Sum(dwd[..i], seats, b.metric, b.key)
      {
        assert dwd[..i + 1][..i] == dwd[..i];
        if dwd[i].seat in seats && Matches(b.key, dwd[i]) {
          used := used + Amount(b.metric, dwd[i].tokens, dwd[i].usd);
        }
      }
      assert dwd[..|dwd|] == dwd;
      counters := counters[b := Counter(used, Triggered(counters, b))];
      if fault.ReadFault? {
        return None;
      }
      acc := Some(Acc(used, counters[b].triggered));
    }

    method CheckThresholds(rules: seq<Rule>, b: Bucket, acc: Acc) returns (triggered: seq<int>)
      ensures triggered == Trigger(acc.triggered, rules, b.metric, PeriodOf(b.key), acc.used)
    {
      triggered := acc.triggered;
      for i := 0 to |rules|
        invariant triggered == Trigger(acc.triggered, rules[..i], b.metric, PeriodOf(b.key), acc.used)
      {
        assert rules[..i + 1][..i] == rules[..i];
        var r := rules[i];
        if r.metric == b.metric && r.period == PeriodOf(b.key) && r.limit > 0 {
          ghost var before := triggered;
          for j := 0 to |r.thresholds|
            invariant triggered == TriggerTiers(before, r.limit, r.thresholds[..j], acc.used)
          {
            assert r.thresholds[..j + 1][..j] == r.thresholds[..j];
            var pct := r.thresholds[j];
            if acc.used * 100 >= r.limit * pct && pct !in triggered {
              triggered := triggered + [pct];
            }
          }
          assert r.thresholds[..|r.thresholds|] == r.thresholds;
        }
      }
      assert rules[..|rules|] == rules;
    }

    method PeriodsOf(rules: seq<Rule>) returns (out: seq<Period>)
      ensures out == DistinctPeriods(rules)
    {
      var seen: set<Period> := {};
      out := [];
      for i := 0 to |rules|
        invariant out == DistinctPeriods(rules[..i]) && forall p :: p in seen <==> p in out
      {
        assert rules[..i + 1][..i] == rules[..i];
        if rules[i].period != Other("") && rules[i].period !in seen {
          seen, out := seen + {rules[i].period}, out + [rules[i].period];
        }
      }
      assert rules[..|rules|] == rules;
    }

    /** Step one: both metrics of every period the rules name, unless the call did not move the metric. */
    method RecomputeBuckets(dwd: seq<Fact>, sub: Subject, c: Call, faults: Faults) returns (results: map<Bucket, Acc>)
      requires SubjectSeats(sub) != []
      modifies this`counters
      ensures Recomputed(old(counters), dwd, sub, Touched(month, sub, c), faults, results, counters)
    {
      hide *;
      results := map[];
      var periods := PeriodsOf(sub.rules);
      ghost var done := {};
      RecomputedNone(counters, dwd, sub, faults);
      for i := 0 to |periods|
        invariant Recomputed(old(counters), dwd, sub, done, faults, results, counters)
        invariant done == set p, m | p in periods[..i] && m in ALL_METRICS && Amount(m, c.tokens, c.usd) > 0 :: BucketFor(month, sub, m, p, c)
      {
        ghost var before := done;
        for j := 0 to |ALL_METRICS|
          invariant Recomputed(old(counters), dwd, sub, done, faults, results, counters)
          invariant done == before + set m | m in ALL_METRICS[..j] && Amount(m, c.tokens, c.usd) > 0 :: BucketFor(month, sub, m, periods[i], c)
        {
          var metric := ALL_METRICS[j];
          assert ALL_METRICS[..j + 1] == ALL_METRICS[..j] + [metric];
          if Amount(metric, c.tokens, c.usd) <= 0 {
            continue;
          }
          var b := BucketFor(month, sub, metric, periods[i], c);
          ghost var was, got, hit := counters, results, done;
          var acc := RecomputeFromDWD(dwd, b, SubjectSeats(sub), faults(b));
          if acc.Some? {
            results := results[b := acc.value];
          }
          done := done + {b};
          RecomputedOne(old(counters), dwd, sub, hit, faults, got, was, b);
        }
        assert ALL_METRICS[..|ALL_METRICS|] == ALL_METRICS;
        assert periods[..i + 1] == periods[..i] + [periods[i]];
      }
      assert periods[..|periods|] == periods;
      TouchedDef(month, sub, c);
    }

    /** Step two: every bucket's thresholds, in whatever order the map yields them. */
    method MarkTriggered(rules: seq<Rule>, results: map<Bucket, Acc>, faults: Faults)
      requires results.Keys <= counters.Keys
      modifies this`counters
      ensures counters == Marked(old(counters), rules, results, faults, results.Keys)
    {
      hide Trigger, Reached;
      var remaining := results.Keys;
      while remaining != {}
        invariant remaining <= results.Keys && counters == Marked(old(counters), rules, results, faults, results.Keys - remaining)
      {
        var b :| b in remaining;
        var triggered := CheckThresholds(rules, b, results[b]);
        if !faults(b).MarkFault? {
          counters := counters[b := counters[b].(triggered := triggered)];
        }
        remaining := remaining - {b};
      }
    }

    method ApplyToSubject(dwd: seq<Fact>, sub: Subject, c: Call, faults: Faults)
      modifies this`counters
      ensures counters == Apply(month, old(counters), dwd, sub, c, faults)
    {
      if |SubjectSeats(sub)| == 0 {
        return;
      }
      hide Sum, Trigger, Touched;
      var results := RecomputeBuckets(dwd, sub, c, faults);
      MarkTriggered(sub.rules, results, faults);
    }

    method OnFact(dwd: seq<Fact>, c: Call, now: int, load: Option<seq<Subject>>, faults: nat -> Faults)
      modifies this`counters, this`index, this`loaded, this`loadedAt
      ensures counters == if c.seat == "" then old(counters) else ApplyAll(month, old(counters), dwd, Applicable(index, c.seat), c, faults)
      ensures load.None? ==> index == old(index)
    {
      if c.seat == "" {
        return;
      }
      EnsureConfig(now, load);
      var subs := Applicable(index, c.seat);
      ghost var config := index;
      for i := 0 to |subs|
        invariant index == config && counters == ApplyAll(month, old(counters), dwd, subs[..i], c, faults)
      {
        assert subs[..i + 1][..i] == subs[..i];
        ApplyToSubject(dwd, subs[i], c, faults(i));
      }
      assert subs[..|subs|] == subs;
    }
  }

  /** Of the buckets done those whose sum could be written hold it with their old triggered lists, and are in results if it was read back. */
  ghost predicate Recomputed(counters: Counters, dwd: seq<Fact>, sub: Subject, done: set<Bucket>, faults: Faults,
                             results: map<Bucket, Acc>, counters': Counters) {
    && counters'.Keys == counters.Keys + (set b | b in done && !faults(b).SumFault?)
    && results.Keys == (set b | b in done && !faults(b).SumFault? && !faults(b).ReadFault?)
    && (forall b :: b in results ==> results[b] == Acc(Sum(dwd, SubjectSeats(sub), b.metric, b.key), Triggered(counters, b)))
    && (forall b :: b in done && !faults(b).SumFault? ==>
          counters'[b] == Counter(Sum(dwd, SubjectSeats(sub), b.metric, b.key), Triggered(counters, b)))
    && (forall b :: b in counters && (b !in done || faults(b).SumFault?) ==> counters'[b] == counters[b])
  }

  lemma RecomputedNone(counters: Counters, dwd: seq<Fact>, sub: Subject, faults: Faults)
    ensures Recomputed(counters, dwd, sub, {}, faults, map[], counters)
  {
  }

  lemma RecomputedOne(counters: Counters, dwd: seq<Fact>, sub: Subject, done: set<Bucket>, faults: Faults,
                      results: map<Bucket, Acc>, mid: Counters, b: Bucket)
    requires Recomputed(counters, dwd, sub, done, faults, results, mid)
    ensures var acc := Acc(Sum(dwd, SubjectSeats(sub), b.metric, b.key), Triggered(mid, b));
            Recomputed(counters, dwd, sub, done + {b}, faults,
              if faults(b).SumFault? || faults(b).ReadFault? then results else results[b := acc],
              if faults(b).SumFault? then mid else mid[b := Counter(acc.used, acc.triggered)])
  {
    hide Sum;
  }

  lemma TouchedDef(month: int -> string, sub: Subject, c: Call)
    requires SubjectSeats(sub) != []
    ensures Touched(month, sub, c)
         == set p, m | p in DistinctPeriods(sub.rules) && m in ALL_METRICS && Amount(m, c.tokens, c.usd) > 0 :: BucketFor(month, sub, m, p, c)
  {
  }

  /** The counters with the triggered lists of the given buckets brought up to date, where that write succeeds. */
  function Marked(counters: Counters, rules: seq<Rule>, results: map<Bucket, Acc>, faults: Faults, done: set<Bucket>): Counters
    requires done <= results.Keys
  {
    map b | b in counters ::
      if b in done && !faults(b).MarkFault? then
        counters[b].(triggered := Trigger(results[b].triggered, rules, b.metric, PeriodOf(b.key), results[b].used))
      else counters[b]
  }
}
