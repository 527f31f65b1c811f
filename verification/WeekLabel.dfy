/** The text of a week key: written with "%04d-W%02d", read back by scanning "%d-W%d". */
module WeekLabel {
  import opened Options
  import opened QuotaPeriods

  predicate IsDigit(c: char) {
    '0' <= c <= '9'
  }

  predicate AllDigits(s: string) {
    forall i :: 0 <= i < |s| ==> IsDigit(s[i])
  }

  function Decimal(n: nat): string {
    if n < 10 then ['0' + n as char] else Decimal(n / 10) + ['0' + (n % 10) as char]
  }

  /** %0<width>d */
  function Padded(n: nat, width: nat): string
    decreases width
  {
    if |Decimal(n)| >= width then Decimal(n) else Zeros(width - |Decimal(n)|) + Decimal(n)
  }

  function Zeros(n: nat): string {
    if n == 0 then "" else "0" + Zeros(n - 1)
  }

  /** The number a digit string denotes; leading zeros do not count. */
  function Value(s: string): nat
    requires AllDigits(s)
  {
    if s == "" then 0 else Value(s[..|s| - 1]) * 10 + (s[|s| - 1] as int - '0' as int)
  }

  /** The digits a scan of %d takes. */
  function DigitRun(s: string): (n: nat)
    ensures n <= |s| && AllDigits(s[..n])
  {
    if s == "" || !IsDigit(s[0]) then 0
    else
      var n := DigitRun(s[1..]);
      assert s[..n + 1] == [s[0]] + s[1..][..n];
      n + 1
  }

  function Label(w: Week): string
    requires w.year >= 0 && w.week >= 0
  {
    Padded(w.year, 4) + "-W" + Padded(w.week, 2)
  }

  /** fmt.Sscanf(s, "%d-W%d"), of unsigned numbers; what follows the second number is not looked at. */
  function Scan(s: string): Option<Week> {
    var n := DigitRun(s);
    if n == 0 || |s| < n + 2 || s[n..n + 2] != "-W" then None
    else
      var rest := s[n + 2..];
      var m := DigitRun(rest);
      if m == 0 then None else Some(Week(Value(s[..n]), Value(rest[..m])))
  }

  lemma {:induction false} DecimalValue(n: nat)
    ensures AllDigits(Decimal(n)) && Value(Decimal(n)) == n && |Decimal(n)| > 0
  {
    if n >= 10 {
      DecimalValue(n / 10);
      var front, last := Decimal(n / 10), '0' + (n % 10) as char;
      assert Decimal(n)[..|Decimal(n)| - 1] == front && Decimal(n)[|Decimal(n)| - 1] == last;
    }
  }

  lemma {:induction false} ZerosValue(k: nat, s: string)
    requires AllDigits(s)
    ensures AllDigits(Zeros(k) + s) && Value(Zeros(k) + s) == Value(s)
    decreases k, |s|
  {
    if s != "" {
      ZerosValue(k, s[..|s| - 1]);
      assert (Zeros(k) + s)[..|Zeros(k) + s| - 1] == Zeros(k) + s[..|s| - 1];
    } else if k > 0 {
      ZerosValue(k - 1, "0");
      ZerosEnd(k);
      assert Zeros(k) + s == Zeros(k - 1) + "0";
    }
  }

  lemma {:induction false} ZerosEnd(k: nat)
    requires k > 0
    ensures Zeros(k) == Zeros(k - 1) + "0"
  {
    if k > 1 {
      ZerosEnd(k - 1);
    }
  }

  lemma PaddedValue(n: nat, width: nat)
    ensures AllDigits(Padded(n, width)) && Value(Padded(n, width)) == n && |Padded(n, width)| > 0
  {
    DecimalValue(n);
    if |Decimal(n)| < width {
      ZerosValue(width - |Decimal(n)|, Decimal(n));
    }
  }

  lemma {:induction false} RunOf(digits: string, rest: string)
    requires AllDigits(digits) && (rest == "" || !IsDigit(rest[0]))
    ensures DigitRun(digits + rest) == |digits|
  {
    if digits == "" {
      assert digits + rest == rest;
    } else {
      assert (digits + rest)[1..] == digits[1..] + rest;
      RunOf(digits[1..], rest);
    }
  }

  /** A written week label reads back as the same week. */
  lemma LabelRoundTrip(w: Week)
    requires w.year >= 0 && w.week >= 0
    ensures Scan(Label(w)) == Some(w)
  {
    hide Padded, Value, DigitRun;
    var y, k := Padded(w.year, 4), Padded(w.week, 2);
    PaddedValue(w.year, 4);
    PaddedValue(w.week, 2);
    var s := Label(w);
    assert s == y + ("-W" + k);
    RunOf(y, "-W" + k);
    assert s[..|y|] == y && s[|y|..|y| + 2] == "-W" && s[|y| + 2..] == k;
    RunOf(k, "");
    assert k + "" == k && k[..|k|] == k;
  }

  lemma {:induction false} ZerosLength(n: nat)
    ensures |Zeros(n)| == n
  {
    if n > 0 {
      ZerosLength(n - 1);
    }
  }

  /** Years from 0 to 9999 take four digits, then "-W", then two digits of the week. */
  lemma LabelShape(w: Week)
    requires 0 <= w.year < 10000 && 1 <= w.week < 100
    ensures var s := Label(w);
            && |s| == 8 && AllDigits(s[..4]) && s[4..6] == "-W" && AllDigits(s[6..])
            && Value(s[..4]) == w.year && Value(s[6..]) == w.week
  {
    hide Value;
    var y, k := Padded(w.year, 4), Padded(w.week, 2);
    PaddedValue(w.year, 4);
    PaddedValue(w.week, 2);
    FewDigits(w.year);
    FewDigits(w.week);
    ZerosLength(4 - |Decimal(w.year)|);
    ZerosLength(if w.week < 10 then 1 else 0);
    assert Label(w) == y + "-W" + k;
    assert Label(w)[..4] == y && Label(w)[6..] == k;
  }

  lemma FewDigits(n: nat)
    requires n < 10000
    ensures |Decimal(n)| == if n < 10 then 1 else if n < 100 then 2 else if n < 1000 then 3 else 4
  {
  }

  /** A text scans to a week exactly if it begins with digits, "-W" and digits, the longest runs of them, and those are the numbers. */
  lemma ScanExact(s: string, w: Week)
    ensures Scan(s) == Some(w) <==>
            var n := DigitRun(s);
            && 0 < n && n + 2 < |s| && s[n] == '-' && s[n + 1] == 'W' && IsDigit(s[n + 2])
            && w == Week(Value(s[..n]), Value(s[n + 2..][..DigitRun(s[n + 2..])]))
  {
    hide Value, DigitRun, IsDigit;
    var n := DigitRun(s);
    if n + 2 <= |s| {
      assert s[n..n + 2] == [s[n], s[n + 1]];
      RunStarts(s[n + 2..]);
    }
  }

  lemma RunStarts(s: string)
    ensures DigitRun(s) > 0 <==> s != "" && IsDigit(s[0])
  {
  }
}
