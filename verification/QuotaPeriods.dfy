/**
 The periods quota counters are kept for: the key an instant is counted under, and the filter
 that reads a key's facts back. Days are numbered from 1970-01-01, a Thursday.
 */
module QuotaPeriods {
  import opened Facts
  import opened Options

  // ---- the calendar ----

  /** Days from 1970-01-01 to the first of January of a year of the Gregorian calendar. */
  function YearStart(y: int): int {
    365 * (y - 1970) + ((y - 1) / 4 - 492) - ((y - 1) / 100 - 19) + ((y - 1) / 400 - 4)
  }

  function Magnitude(d: int): nat {
    if d < 0 then -d else d
  }

  predicate Leap(y: int) {
    y % 4 == 0 && (y % 100 == 0 ==> y % 400 == 0)
  }

  lemma Quarter(y: int)
    ensures y / 4 - (y - 1) / 4 == if y % 4 == 0 then 1 else 0
  {
  }

  lemma Century(y: int)
    ensures y / 100 - (y - 1) / 100 == if y % 100 == 0 then 1 else 0
  {
  }

  /** The three leap corrections between a year and the next. */
  lemma Corrections(y: int, q: int, c: int, f: int)
    requires q == (if y % 4 == 0 then 1 else 0) && c == (if y % 100 == 0 then 1 else 0) && f == (if y % 400 == 0 then 1 else 0)
    requires (y % 400 == 0 ==> y % 100 == 0) && (y % 100 == 0 ==> y % 4 == 0)
    ensures q - c + f == if Leap(y) then 1 else 0
  {
  }

  lemma FourCenturies(y: int)
    ensures y / 400 - (y - 1) / 400 == if y % 400 == 0 then 1 else 0
    ensures y % 400 == 0 ==> y % 100 == 0
    ensures y % 100 == 0 ==> y % 4 == 0
  {
  }

  lemma YearLength(y: int)
    ensures YearStart(y + 1) - YearStart(y) == if Leap(y) then 366 else 365
  {
    var q, c, f, q', c', f' := y / 4, y / 100, y / 400, (y - 1) / 4, (y - 1) / 100, (y - 1) / 400;
    assert YearStart(y + 1) == 365 * (y - 1969) + (q - 492) - (c - 19) + (f - 4);
    assert YearStart(y) == 365 * (y - 1970) + (q' - 492) - (c' - 19) + (f' - 4);
    hide YearStart, Leap;
    Quarter(y);
    Century(y);
    FourCenturies(y);
    Corrections(y, q - q', c - c', f - f');
  }

  function YearOf(d: int): int
    decreases Magnitude(d)
  {
    if d == 0 then 1970
    else if d > 0 then
      var y := YearOf(d - 1);
      if d < YearStart(y + 1) then y else y + 1
    else
      var y := YearOf(d + 1);
      if YearStart(y) <= d then y else y - 1
  }

  /** ... is the year the day is in. */
  lemma {:induction false} InYear(d: int)
    ensures YearStart(YearOf(d)) <= d < YearStart(YearOf(d) + 1)
    decreases Magnitude(d)
  {
    hide YearStart;
    if d == 0 {
      Epoch();
    } else if d > 0 {
      InYear(d - 1);
      YearLength(YearOf(d - 1) + 1);
    } else {
      InYear(d + 1);
      YearLength(YearOf(d + 1) - 1);
    }
  }

  lemma Epoch()
    ensures YearStart(1970) == 0 && YearStart(1971) == 365
  {
  }

  /** Monday is 0. */
  function Weekday(d: int): (w: int)
    ensures 0 <= w < 7
  {
    (d + 3) % 7
  }

  datatype Week = Week(year: int, week: int)

  /** A week belongs to the year its Thursday is in. */
  function IsoWeek(d: int): Week {
    var thursday := d - Weekday(d) + 3;
    var y := YearOf(thursday);
    Week(y, (thursday - YearStart(y)) / 7 + 1)
  }

  datatype DayRange = DayRange(start: int, end: int)

  /** isoWeekRange: counted in sevens from the Monday of the week with the fourth of January. */
  function IsoWeekRange(w: Week): Option<DayRange> {
    if w.week < 1 || w.week > 53 then None
    else
      var jan4 := YearStart(w.year) + 3;
      var monday := jan4 - Weekday(jan4) + (w.week - 1) * 7;
      Some(DayRange(monday, monday + 7))
  }

  predicate InRange(w: Week, d: int) {
    var r := IsoWeekRange(w);
    r.Some? && r.value.start <= d < r.value.end
  }

  lemma {:induction false} YearsGrow(a: int, b: int)
    requires a <= b
    ensures YearStart(a) <= YearStart(b)
    decreases b - a
  {
  }

  lemma YearIs(d: int, y: int)
    requires YearStart(y) <= d < YearStart(y + 1)
    ensures YearOf(d) == y
  {
    hide YearStart, YearOf;
    InYear(d);
    var z := YearOf(d);
    if z < y {
      YearsGrow(z + 1, y);
    } else if y < z {
      YearsGrow(y + 1, z);
    }
  }

  lemma ThursdayOf(d: int)
    ensures Weekday(d - Weekday(d) + 3) == 3
  {
  }

  /** The range of a day's week starts on the Monday of that day. */
  lemma RangeStart(d: int)
    ensures IsoWeekRange(IsoWeek(d)) == Some(DayRange(d - Weekday(d), d - Weekday(d) + 7))
  {
    hide YearOf, YearStart, Weekday;
    var thursday := d - Weekday(d) + 3;
    ThursdayOf(d);
    InYear(thursday);
    YearLength(YearOf(thursday));
    ThursdayCount(thursday, YearStart(YearOf(thursday)));
  }

  lemma ThursdayCount(thursday: int, first: int)
    requires Weekday(thursday) == 3 && first <= thursday < first + 366
    ensures var k := (thursday - first) / 7;
            0 <= k <= 52 && first + 3 - Weekday(first + 3) + k * 7 == thursday - 3
  {
  }

  /** A week's range contains exactly the seven days that carry its label. */
  lemma WeekDays(d: int, e: int)
    ensures var r := IsoWeekRange(IsoWeek(d));
            r.Some? && r.value.end == r.value.start + 7 && (InRange(IsoWeek(d), e) <==> IsoWeek(e) == IsoWeek(d))
  {
    RangeStart(d);
    RangeStart(e);
    if d - Weekday(d) <= e < d - Weekday(d) + 7 {
      SameMonday(d, e);
      SameThursday(d, e);
    }
    hide IsoWeek, IsoWeekRange, Weekday;
  }

  lemma SameThursday(d: int, e: int)
    requires e - Weekday(e) == d - Weekday(d)
    ensures IsoWeek(e) == IsoWeek(d)
  {
    hide Weekday, YearOf, YearStart;
  }

  lemma SameMonday(d: int, e: int)
    requires d - Weekday(d) <= e < d - Weekday(d) + 7
    ensures e - Weekday(e) == d - Weekday(d)
  {
  }

  /** The Thursdays of a span of days: 1970-01-01, day 0, was one. */
  function Thursdays(first: int, last: int): set<int> {
    set t | first <= t <= last && t % 7 == 0
  }

  lemma {:induction false} CountThursdays(first: int, thursday: int)
    requires first <= thursday && thursday % 7 == 0
    ensures |Thursdays(first, thursday)| == (thursday - first) / 7 + 1
    decreases thursday - first
  {
    if thursday - 7 < first {
      assert Thursdays(first, thursday) == {thursday};
    } else {
      CountThursdays(first, thursday - 7);
      assert Thursdays(first, thursday) == Thursdays(first, thursday - 7) + {thursday};
    }
  }

  /**
   The calendar week of a day, by the calendar alone: it starts on a Monday (1970-01-05, day 4, was one) and contains the
   day; its year is the one its Thursday is in, and its number says how many Thursdays that year has had up to that one.
   */
  lemma CalendarWeek(d: int)
    ensures var w := IsoWeek(d);
            var r := IsoWeekRange(w);
            && r.Some? && r.value.start % 7 == 4 && r.value.end == r.value.start + 7 && r.value.start <= d < r.value.end
            && var thursday := r.value.start + 3;
               && thursday % 7 == 0 && YearStart(w.year) <= thursday < YearStart(w.year + 1)
               && w.week == |Thursdays(YearStart(w.year), thursday)|
  {
    hide YearOf, YearStart;
    RangeStart(d);
    var thursday := d - Weekday(d) + 3;
    ThursdayOf(d);
    InYear(thursday);
    CountThursdays(YearStart(YearOf(thursday)), thursday);
  }

  /** Years are counted from 1970-01-01, day 0, so a year's first day is right by YearLength. */
  lemma YearOrigin()
    ensures YearStart(1970) == 0 && YearStart(2000) == 30 * 365 + 7 && IsoWeek(20454) == Week(2026, 1)
  {
    YearIs(20454, 2026);
  }

  /** A UTC day lasts 24 hours of milliseconds, and day 0 starts at instant 0. */
  lemma DayBounds(time: int, day: int)
    ensures UtcDay(time) == day <==> day * (24 * 60 * 60 * 1000) <= time < (day + 1) * (24 * 60 * 60 * 1000)
  {
  }

  /**
   Any label from 1 to 53 denotes its own days, but a week 53 the year does not have denotes week 1 of the next. Other labels
   denote no days.
   */
  lemma LabelDays(w: Week, e: int)
    ensures IsoWeekRange(w).Some? <==> 1 <= w.week <= 53
    ensures InRange(w, e) ==> IsoWeek(e) == w || (w.week == 53 && IsoWeek(e) == Week(w.year + 1, 1))
  {
    hide YearStart, YearOf, Weekday;
    if InRange(w, e) {
      var first, r := YearStart(w.year), IsoWeekRange(w).value;
      var offset := 6 - Weekday(first + 3);
      MondayPlus(first + 3, w.week - 1);
      SameMonday(r.start, e);
      var thursday := first + offset + 7 * (w.week - 1);
      assert e - Weekday(e) + 3 == thursday;
      YearLength(w.year);
      YearLength(w.year + 1);
      if thursday < YearStart(w.year + 1) {
        YearIs(thursday, w.year);
        CountWeeks(offset, w.week - 1);
      } else {
        YearIs(thursday, w.year + 1);
      }
    }
  }

  lemma CountWeeks(offset: int, k: nat)
    requires 0 <= offset < 7
    ensures (offset + 7 * k) / 7 == k
  {
  }

  lemma MondayPlus(d: int, k: int)
    ensures Weekday(d - Weekday(d) + k * 7) == 0
  {
  }

  // ---- keys and filters ----

  // Other: any other name; the empty one marks a rule without a period.
  datatype Period = Daily | Weekly | Monthly | Other(name: string)

  datatype PeriodKey = DailyKey(day: int) | WeeklyKey(week: Week) | MonthlyKey(month: string) | OtherKey(name: string)

  /** periodKey. month: the 'YYYY-MM' text of a day's month. */
  function KeyAt(month: int -> string, p: Period, billingPeriod: string, time: int): PeriodKey {
    match p
    case Daily => DailyKey(UtcDay(time))
    case Weekly => WeeklyKey(IsoWeek(UtcDay(time)))
    case Monthly => MonthlyKey(if billingPeriod == "" then month(UtcDay(time)) else billingPeriod)
    case Other(name) => OtherKey(name)
  }

  /** dwdPeriodFilter: the facts summed for a key; an unknown kind filters nothing. */
  predicate Matches(key: PeriodKey, f: Fact) {
    match key
    case DailyKey(day) => UtcDay(f.time) == day
    case WeeklyKey(week) => IsoWeekRange(week).None? || InRange(week, UtcDay(f.time))
    case MonthlyKey(month) => f.period == month
    case OtherKey(_) => true
  }

  function PeriodOf(key: PeriodKey): Period {
    match key
    case DailyKey(_) => Daily
    case WeeklyKey(_) => Weekly
    case MonthlyKey(_) => Monthly
    case OtherKey(name) => Other(name)
  }

  /** The key's own facts, by the key each would be counted under. */
  predicate CountedUnder(month: int -> string, key: PeriodKey, f: Fact) {
    KeyAt(month, PeriodOf(key), f.period, f.time) == key
  }

  /**
   Write key and read filter agree for every instant: whichever call made the key, a fact is
   summed for it exactly when its own key is that one, provided the fact has a billing period.
   */
  lemma KeysAgree(month: int -> string, p: Period, billingPeriod: string, time: int, f: Fact)
    requires p.Monthly? ==> f.period != ""
    ensures var key := KeyAt(month, p, billingPeriod, time); Matches(key, f) <==> CountedUnder(month, key, f)
  {
    if p.Weekly? {
      WeekDays(UtcDay(time), UtcDay(f.time));
    }
    hide IsoWeek, IsoWeekRange;
  }

  /** The proviso is exact: without a billing period a fact is left out of its own month's sum. */
  lemma MonthAgreesIff(month: int -> string, f: Fact)
    requires forall d :: month(d) != ""
    ensures (forall billingPeriod, time :: var key := KeyAt(month, Monthly, billingPeriod, time);
               Matches(key, f) <==> CountedUnder(month, key, f)) <==> f.period != ""
  {
    if f.period == "" {
      var key := KeyAt(month, Monthly, f.period, f.time);
      assert CountedUnder(month, key, f) && !Matches(key, f);
    }
  }

  /** The key of an instant, kind by kind: its UTC day, that day's week, the billing period or else that day's month. */
  lemma KeyExact(month: int -> string, p: Period, billingPeriod: string, time: int, day: int)
    requires day * (24 * 60 * 60 * 1000) <= time < (day + 1) * (24 * 60 * 60 * 1000)
    ensures var key := KeyAt(month, p, billingPeriod, time);
            && PeriodOf(key) == p
            && (p.Daily? ==> key == DailyKey(day))
            && (p.Weekly? ==> key.WeeklyKey? && InRange(key.week, day))
            && (p.Monthly? ==> key.month == if billingPeriod != "" then billingPeriod else month(day))
  {
    DayBounds(time, day);
    CalendarWeek(day);
    hide IsoWeek, IsoWeekRange;
  }
}
