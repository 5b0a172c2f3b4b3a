/**
  Time arithmetic of the countdown (src/utils/time.ts): the split of a remaining
  duration into days, hours, minutes and seconds, the next new-year target, two-digit
  formatting and the clamped year progress.
*/
module Time {
  import opened Calendar

  /** The remaining time: `totalMs` and its split into calendar units. */
  datatype TimeLeft = TimeLeft(totalMs: int, days: int, hours: int, minutes: int, seconds: int)

  /** What `TimeLeft` promises its readers: a non-negative total and parts in clock ranges. */
  predicate WellFormed(t: TimeLeft) {
    && t.totalMs >= 0
    && t.days >= 0
    && 0 <= t.hours < 24
    && 0 <= t.minutes < 60
    && 0 <= t.seconds < 60
  }

  /** The milliseconds the parts of `t` stand for, plus the sub-second remainder `ms`. */
  function Compose(days: int, hours: int, minutes: int, seconds: int, ms: int): int {
    days * MsPerDay + hours * MsPerHour + minutes * MsPerMinute + seconds * MsPerSecond + ms
  }

  /**
    `calculateTimeLeft(target, now)` on the two instants: the difference clamped at zero,
    split by floor division and remainder.
  */
  function CalculateTimeLeft(targetMs: int, nowMs: int): (t: TimeLeft)
    ensures WellFormed(t)
    ensures t.totalMs == (if targetMs > nowMs then targetMs - nowMs else 0)
    ensures targetMs <= nowMs ==> t == TimeLeft(0, 0, 0, 0, 0)
    ensures Compose(t.days, t.hours, t.minutes, t.seconds, t.totalMs % 1000) == t.totalMs
  {
    var diff := targetMs - nowMs;
    var clamped := if 0 > diff then 0 else diff;
    var t := TimeLeft(clamped, clamped / MsPerDay, (clamped % MsPerDay) / MsPerHour,
                      (clamped % MsPerHour) / MsPerMinute, (clamped % MsPerMinute) / 1000);
    SplitRecomposes(clamped);
    t
  }

  lemma SplitRecomposes(c: int)
    requires c >= 0
    ensures Compose(c / MsPerDay, (c % MsPerDay) / MsPerHour, (c % MsPerHour) / MsPerMinute,
                    (c % MsPerMinute) / 1000, c % 1000) == c
    ensures 0 <= (c % MsPerDay) / MsPerHour < 24
    ensures 0 <= (c % MsPerHour) / MsPerMinute < 60
    ensures 0 <= (c % MsPerMinute) / 1000 < 60
  {
    var d, rd := c / MsPerDay, c % MsPerDay;
    var h, rh := rd / MsPerHour, rd % MsPerHour;
    assert c % MsPerHour == rh by {
      assert c == (d * 24 + h) * MsPerHour + rh;
    }
    var m, rm := rh / MsPerMinute, rh % MsPerMinute;
    assert c % MsPerMinute == rm by {
      assert c == ((d * 24 + h) * 60 + m) * MsPerMinute + rm;
    }
    var s, rs := rm / 1000, rm % 1000;
    assert c % 1000 == rs by {
      assert c == (((d * 24 + h) * 60 + m) * 60 + s) * 1000 + rs;
    }
  }

  /**
    The split is the unique one: composing any parts within their clock ranges and
    splitting the result gives the parts back.
  */
  lemma SplitOfCompose(days: nat, hours: int, minutes: int, seconds: int, ms: int)
    requires 0 <= hours < 24 && 0 <= minutes < 60 && 0 <= seconds < 60 && 0 <= ms < 1000
    ensures var t := CalculateTimeLeft(Compose(days, hours, minutes, seconds, ms), 0);
            t.days == days && t.hours == hours && t.minutes == minutes && t.seconds == seconds
  {
    var total := Compose(days, hours, minutes, seconds, ms);
    var inMinute := seconds * 1000 + ms;
    var inHour := minutes * 60_000 + inMinute;
    var inDay := hours * 3_600_000 + inHour;
    assert total == days * 86_400_000 + inDay;
    DivModUnique(total, 86_400_000, days, inDay);
    DivModUnique(inDay, 3_600_000, hours, inHour);
    DivModUnique(total, 3_600_000, days * 24 + hours, inHour);
    DivModUnique(inHour, 60_000, minutes, inMinute);
    DivModUnique(total, 60_000, (days * 24 + hours) * 60 + minutes, inMinute);
    DivModUnique(inMinute, 1000, seconds, ms);
  }

  /**
    `getNextYearTargetFrom(base)`: `new Date(year + 1, 0, 1, 0, 0, 0, 0)`, so 1 January,
    00:00:00.000, of the year after `base`'s, as the constructor reads that year.
  */
  function NextYearTargetFrom(base: DateTime): (t: DateTime)
    ensures Valid(t)
  {
    NewDate(base.year + 1, 0, 1, 0, 0, 0, 0)
  }

  /**
    The target is always later than `base`, and the new year of `base`'s own year is not.
    Outside the two-digit years it is the first new-year midnight after `base`, at most a
    year later; when the following year is from 0 to 99 the constructor reads it as
    1900 + year, so the target lies in the twentieth century.
  */
  lemma {:induction false} NextYearTargetIsNextNewYear(base: DateTime)
    requires Valid(base)
    ensures var t := NextYearTargetFrom(base);
            && Instant(NewYear(base.year)) <= Instant(base) < Instant(t)
            && (!IsTwoDigitYear(base.year + 1) ==>
                  t == NewYear(base.year + 1)
                  && Instant(t) <= Instant(base) + DaysInYear(base.year) * MsPerDay)
            && (IsTwoDigitYear(base.year + 1) ==> t == NewYear(base.year + 1901))
  {
    InstantWithinYear(base);
    if IsTwoDigitYear(base.year + 1) {
      NewYearMonotone(base.year + 1, base.year + 1901);
    }
  }

  // ---------------------------------------------------------------------------
  // formatTwo: `value.toString().padStart(2, '0')`
  // ---------------------------------------------------------------------------

  predicate IsDigit(c: char) {
    '0' <= c <= '9'
  }

  function DigitChar(d: int): (c: char)
    requires 0 <= d < 10
    ensures IsDigit(c)
  {
    ('0' as int + d) as char
  }

  /** The decimal digits of `n`, most significant first, with no leading zero. */
  function NatToString(n: nat): (s: string)
    ensures |s| >= 1
    ensures forall i :: 0 <= i < |s| ==> IsDigit(s[i])
    ensures n > 0 ==> s[0] != '0'
  {
    if n < 10 then [DigitChar(n)] else NatToString(n / 10) + [DigitChar(n % 10)]
  }

  /**
    `Number.prototype.toString()` on an integral number: an optional minus sign, then the
    decimal digits of the magnitude with no leading zero.
  */
  function IntToString(v: int): (s: string)
    ensures |s| >= 1
    ensures v >= 0 ==> AllDigits(s) && DigitsValue(s) == v && (|s| > 1 ==> s[0] != '0')
    ensures v < 0 ==> |s| >= 2 && s[0] == '-' && AllDigits(s[1..]) && DigitsValue(s[1..]) == -v
                      && s[1] != '0'
  {
    if v < 0 then
      NatToStringRoundTrip(-v);
      var digits := NatToString(-v);
      assert ("-" + digits)[1..] == digits;
      "-" + digits
    else
      NatToStringRoundTrip(v);
      NatToString(v)
  }

  /** `String.prototype.padStart(width, fill)` with a one-character fill. */
  function PadStart(s: string, width: nat, fill: char): (r: string)
    ensures |r| == if |s| >= width then |s| else width
    ensures r[|r| - |s|..] == s
    ensures forall i :: 0 <= i < |r| - |s| ==> r[i] == fill
  {
    if |s| >= width then s else seq(width - |s|, _ => fill) + s
  }

  /**
    `formatTwo(value)`: the decimal string, with a leading zero when it is a single digit.
    A negative value already has two characters and is left as it is.
  */
  function FormatTwo(value: int): (r: string)
    ensures |r| >= 2
    ensures 0 <= value < 10 ==> r == ['0', DigitChar(value)]
    ensures !(0 <= value < 10) ==> r == IntToString(value)
  {
    NatToStringLength(if value < 0 then 0 else value);
    PadStart(IntToString(value), 2, '0')
  }

  lemma {:induction false} NatToStringLength(n: nat)
    ensures n >= 10 ==> |NatToString(n)| >= 2
    ensures n < 10 ==> NatToString(n) == [DigitChar(n)]
  {
  }

  function DigitValue(c: char): (d: nat)
    requires IsDigit(c)
    ensures d < 10
  {
    c as int - '0' as int
  }

  predicate AllDigits(s: string) {
    forall i :: 0 <= i < |s| ==> IsDigit(s[i])
  }

  /** The value of a string of decimal digits. */
  function DigitsValue(s: string): nat
    requires AllDigits(s)
  {
    if s == [] then 0
    else DigitsValue(s[..|s| - 1]) * 10 + DigitValue(s[|s| - 1])
  }

  lemma {:induction false} NatToStringRoundTrip(n: nat)
    ensures DigitsValue(NatToString(n)) == n
  {
    var s := NatToString(n);
    if n >= 10 {
      NatToStringRoundTrip(n / 10);
      assert s[..|s| - 1] == NatToString(n / 10);
    }
  }

  function Zeros(k: nat): (z: string)
    ensures |z| == k && AllDigits(z)
  {
    seq(k, _ => '0')
  }

  lemma {:induction false} ZerosValue(k: nat)
    ensures DigitsValue(Zeros(k)) == 0
  {
    if k > 0 {
      ZerosValue(k - 1);
      assert Zeros(k)[..k - 1] == Zeros(k - 1);
    }
  }

  lemma {:induction false} LeadingZeros(k: nat, s: string)
    requires AllDigits(s)
    ensures AllDigits(Zeros(k) + s)
    ensures DigitsValue(Zeros(k) + s) == DigitsValue(s)
  {
    var z := Zeros(k);
    if s == [] {
      assert z + s == z;
      ZerosValue(k);
    } else {
      LeadingZeros(k, s[..|s| - 1]);
      assert (z + s)[..|z + s| - 1] == z + s[..|s| - 1];
    }
  }

  /** The displayed two digits read back as the value: padding never changes the number shown. */
  lemma FormatTwoRoundTrip(value: nat)
    ensures AllDigits(FormatTwo(value))
    ensures DigitsValue(FormatTwo(value)) == value
  {
    var s := NatToString(value);
    NatToStringRoundTrip(value);
    var k := if |s| >= 2 then 0 else 2 - |s|;
    assert FormatTwo(value) == Zeros(k) + s;
    LeadingZeros(k, s);
  }

  /**
    `Math.max(0, Math.ceil(timeLeftMs / 1000))`: the whole seconds left, rounded up;
    the tone cues and the music controller both count the final ten with it.
  */
  function SecondsRemaining(timeLeftMs: int): (s: int)
    ensures s >= 0
    ensures timeLeftMs <= 0 ==> s == 0
    ensures timeLeftMs > 0 ==> (s - 1) * 1000 < timeLeftMs <= s * 1000
  {
    if timeLeftMs <= 0 then 0 else (timeLeftMs + 999) / 1000
  }

  // ---------------------------------------------------------------------------
  // getYearProgress
  // ---------------------------------------------------------------------------

  function Min(a: real, b: real): real { if a <= b then a else b }
  function Max(a: real, b: real): real { if a >= b then a else b }

  /** `getYearProgress(now, startOfYear, target)` on the three instants. */
  function YearProgress(nowMs: int, startMs: int, targetMs: int): (p: real)
    ensures nowMs >= targetMs ==> p == 1.0
    ensures nowMs < targetMs && (nowMs - startMs <= 0 || targetMs - startMs <= 0) ==> p == 0.0
    ensures nowMs < targetMs ==> 0.0 <= p <= 0.9999
  {
    var total := targetMs - startMs;
    var elapsed := nowMs - startMs;
    if nowMs >= targetMs then 1.0
    else if elapsed <= 0 || total <= 0 then 0.0
    else Min(0.9999, Max(0.0, elapsed as real / total as real))
  }

  /** Inside the period, the progress is the elapsed fraction, capped just below one. */
  lemma YearProgressIsElapsedFraction(nowMs: int, startMs: int, targetMs: int)
    requires startMs < nowMs < targetMs
    ensures var f := (nowMs - startMs) as real / (targetMs - startMs) as real;
            0.0 < f < 1.0 && YearProgress(nowMs, startMs, targetMs) == Min(0.9999, f)
  {
    var e, t := (nowMs - startMs) as real, (targetMs - startMs) as real;
    assert 0.0 < e < t;
    assert e / t < 1.0 by {
      assert e / t * t == e;
    }
  }

  /** The progress never goes backwards while the clock moves forward. */
  lemma YearProgressMonotone(now1: int, now2: int, startMs: int, targetMs: int)
    requires now1 <= now2
    ensures YearProgress(now1, startMs, targetMs) <= YearProgress(now2, startMs, targetMs)
  {
    if startMs < now1 && now2 < targetMs {
      var e1, e2, t := (now1 - startMs) as real, (now2 - startMs) as real, (targetMs - startMs) as real;
      assert e1 / t <= e2 / t by {
        assert e2 / t - e1 / t == (e2 - e1) / t;
      }
    }
  }
}
