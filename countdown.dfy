/** The countdown display: the split of the time left before the launch into
    days, hours, minutes and seconds, the decimal text of a number, and the
    two-character zero padding each field is shown with. */
module Countdown {

  import opened Time

  datatype Remaining = Remaining(days: nat, hours: nat, minutes: nat, seconds: nat)

  /** The whole milliseconds a countdown value stands for. */
  function Milliseconds(r: Remaining): nat
  {
    r.days * DAY_MS + r.hours * HOUR_MS + r.minutes * MINUTE_MS + r.seconds * SECOND_MS
  }

  /** Hours, minutes and seconds within their clock ranges. */
  predicate InClockRange(r: Remaining)
  {
    r.hours <= 23 && r.minutes <= 59 && r.seconds <= 59
  }

  lemma MulAtLeast(k: int, n: int)
    requires k >= 1 && n > 0
    ensures k * n >= n
  {
  }

  /** Euclidean division is determined by its quotient and remainder. */
  lemma DivModUnique(x: int, n: int, q: int, rest: int)
    requires n > 0 && 0 <= rest < n && x == q * n + rest
    ensures x / n == q && x % n == rest
  {
    var q', rest' := x / n, x % n;
    var k := q - q';
    assert k * n == rest' - rest by {
      assert q * n - q' * n == (q - q') * n;
    }
    if k >= 1 {
      MulAtLeast(k, n);
    } else if k <= -1 {
      MulAtLeast(-k, n);
    }
  }

  /** updateCountdown's arithmetic for a positive difference. Math.floor of a
      non-negative quotient is integer division, and JavaScript's % agrees
      with Dafny's on non-negative operands. The result is the countdown
      value whose milliseconds fall in the same whole second as the
      difference, truncating the sub-second rest. */
  function Split(difference: int): (r: Remaining)
    requires difference > 0
    ensures InClockRange(r)
    ensures Milliseconds(r) <= difference < Milliseconds(r) + SECOND_MS
  {
    var r := Remaining(difference / DAY_MS,
                       (difference % DAY_MS) / HOUR_MS,
                       (difference % HOUR_MS) / MINUTE_MS,
                       (difference % MINUTE_MS) / SECOND_MS);
    var dayRest := difference % DAY_MS;
    DivModUnique(difference, HOUR_MS, r.days * 24 + r.hours, dayRest % HOUR_MS);
    var hourRest := difference % HOUR_MS;
    DivModUnique(difference, MINUTE_MS, (r.days * 24 + r.hours) * 60 + r.minutes, hourRest % MINUTE_MS);
    r
  }

  /** The split is the only countdown value in clock range that truncates the
      difference to whole seconds: no off-by-one in any field. */
  lemma {:induction false} SplitUnique(difference: int, r: Remaining)
    requires difference > 0
    requires InClockRange(r)
    requires Milliseconds(r) <= difference < Milliseconds(r) + SECOND_MS
    ensures r == Split(difference)
  {
    var sub := difference - Milliseconds(r);
    var secondRest := r.seconds * SECOND_MS + sub;
    var minuteRest := r.minutes * MINUTE_MS + secondRest;
    var hourRest := r.hours * HOUR_MS + minuteRest;
    DivModUnique(difference, DAY_MS, r.days, hourRest);
    DivModUnique(hourRest, HOUR_MS, r.hours, minuteRest);
    DivModUnique(difference, HOUR_MS, r.days * 24 + r.hours, minuteRest);
    DivModUnique(minuteRest, MINUTE_MS, r.minutes, secondRest);
    DivModUnique(difference, MINUTE_MS, (r.days * 24 + r.hours) * 60 + r.minutes, secondRest);
    DivModUnique(secondRest, SECOND_MS, r.seconds, sub);
  }

  /** A difference of exactly one day is one day and nothing else. */
  lemma OneDay()
    ensures Split(DAY_MS) == Remaining(1, 0, 0, 0)
  {
    SplitUnique(DAY_MS, Remaining(1, 0, 0, 0));
  }

  // ---- String(n) ----

  predicate IsDigit(c: char)
  {
    '0' <= c <= '9'
  }

  predicate AllDigits(s: string)
  {
    forall i :: 0 <= i < |s| ==> IsDigit(s[i])
  }

  function DigitChar(d: nat): (c: char)
    requires d < 10
    ensures IsDigit(c)
  {
    (('0' as int) + d) as char
  }

  function DigitValue(c: char): (d: nat)
    requires IsDigit(c)
    ensures d < 10 && DigitChar(d) == c
  {
    (c as int) - ('0' as int)
  }

  /** String(n) for a non-negative integer: its decimal digits, most
      significant first, without leading zeros. */
  function DecimalString(n: nat): (s: string)
    ensures |s| >= 1 && AllDigits(s)
    decreases n
  {
    if n < 10 then [DigitChar(n)] else DecimalString(n / 10) + [DigitChar(n % 10)]
  }

  /** The number a string of decimal digits denotes (leading zeros allowed). */
  function DigitsValue(s: string): nat
    requires AllDigits(s)
  {
    if s == [] then 0 else DigitsValue(s[..|s| - 1]) * 10 + DigitValue(s[|s| - 1])
  }

  /** String(n) is a non-empty run of digits with no leading zero, whose length
      tells which decade the number lies in, and reading it back gives n. */
  lemma {:induction false} DecimalStringFacts(n: nat)
    ensures AllDigits(DecimalString(n))
    ensures DigitsValue(DecimalString(n)) == n
    ensures |DecimalString(n)| >= 1 && (DecimalString(n)[0] == '0' <==> n == 0)
    ensures |DecimalString(n)| == 1 <==> n < 10
    ensures |DecimalString(n)| == 2 <==> 10 <= n < 100
    ensures |DecimalString(n)| >= 3 <==> n >= 100
    decreases n
  {
    var s := DecimalString(n);
    if n >= 10 {
      DecimalStringFacts(n / 10);
      var t := DecimalString(n / 10);
      assert s == t + [DigitChar(n % 10)];
      assert s[..|s| - 1] == t;
      assert DigitValue(s[|s| - 1]) == n % 10;
    }
  }

  // ---- padStart(2, '0') ----

  /** String.prototype.padStart(2, '0'): strings of length two or more are
      returned as they are, shorter ones get zeros in front up to length two. */
  function PadStart2(s: string): (r: string)
    ensures |s| >= 2 ==> r == s
    ensures |s| < 2 ==> |r| == 2 && r[2 - |s|..] == s && forall i :: 0 <= i < 2 - |s| ==> r[i] == '0'
  {
    if |s| >= 2 then s else if |s| == 1 then "0" + s else "00"
  }

  /** A countdown field as displayed: String(n).padStart(2, '0'). */
  function Field(n: nat): (r: string)
    ensures |r| >= 2 && AllDigits(r)
  {
    PadStart2(DecimalString(n))
  }

  /** A field below 100 shows exactly two digits, a larger one shows all of its
      digits untruncated; either way the digits read back as the number. */
  lemma {:induction false} FieldRoundTrip(n: nat)
    ensures AllDigits(Field(n))
    ensures DigitsValue(Field(n)) == n
    ensures n <= 99 ==> |Field(n)| == 2
    ensures n >= 100 ==> Field(n) == DecimalString(n) && |Field(n)| >= 3
  {
    DecimalStringFacts(n);
    var s := DecimalString(n);
    if n < 10 {
      var f := Field(n);
      assert f == ['0', s[0]];
      assert f[..1] == ['0'];
      assert ['0'][..0] == [];
      assert DigitsValue(['0']) == 0;
    }
  }

  /** What the four countdown elements show for a difference. */
  datatype Display = Display(days: string, hours: string, minutes: string, seconds: string)

  /** updateCountdown's rendering of a positive difference: each field of the
      split, padded. */
  function Render(difference: int): (d: Display)
    requires difference > 0
    ensures |d.days| >= 2 && |d.hours| >= 2 && |d.minutes| >= 2 && |d.seconds| >= 2
    ensures AllDigits(d.days) && AllDigits(d.hours) && AllDigits(d.minutes) && AllDigits(d.seconds)
  {
    var r := Split(difference);
    Display(Field(r.days), Field(r.hours), Field(r.minutes), Field(r.seconds))
  }

  /** Every clock field of the rendering is exactly two digits, the days field
      at least two, and reading the fields back gives the remaining time to
      the second: the display loses nothing but the sub-second rest. */
  lemma RenderReadsBack(difference: int)
    requires difference > 0
    ensures var d := Render(difference);
            && |d.hours| == 2 && |d.minutes| == 2 && |d.seconds| == 2 && |d.days| >= 2
            && AllDigits(d.days) && AllDigits(d.hours) && AllDigits(d.minutes) && AllDigits(d.seconds)
            && Split(difference) == Remaining(DigitsValue(d.days), DigitsValue(d.hours),
                                              DigitsValue(d.minutes), DigitsValue(d.seconds))
  {
    var r := Split(difference);
    FieldRoundTrip(r.days);
    FieldRoundTrip(r.hours);
    FieldRoundTrip(r.minutes);
    FieldRoundTrip(r.seconds);
  }

  /** One day before the launch the page shows 01 00:00:00. */
  lemma OneDayDisplay()
    ensures Render(DAY_MS) == Display("01", "00", "00", "00")
  {
    OneDay();
    assert DecimalString(1) == "1";
    assert DecimalString(0) == "0";
  }
}
