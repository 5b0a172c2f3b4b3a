/**
  The part of JavaScript's `Date` that the countdown relies on: a date is given by its
  calendar fields (month counted from 0, as `Date` does) and `getTime()` is the number
  of milliseconds since 1 January 1970 00:00:00.000 in the proleptic Gregorian calendar.
  The time-zone offset is taken to be zero: the countdown only ever subtracts two instants,
  in which a fixed offset cancels.
*/
module Calendar {

  const MsPerSecond: int := 1_000
  const MsPerMinute: int := 60_000
  const MsPerHour: int := 3_600_000
  const MsPerDay: int := 86_400_000

  datatype DateTime = DateTime(year: int, month: int, day: int,
                               hour: int, minute: int, second: int, millisecond: int)

  predicate IsLeapYear(y: int) {
    (y % 4 == 0 && y % 100 != 0) || y % 400 == 0
  }

  function DaysInYear(y: int): int {
    if IsLeapYear(y) then 366 else 365
  }

  /** Length of month `m` (0 = January). */
  function DaysInMonth(y: int, m: int): int
    requires 0 <= m < 12
  {
    if m == 1 then (if IsLeapYear(y) then 29 else 28)
    else if m == 3 || m == 5 || m == 8 || m == 10 then 30
    else 31
  }

  /** Days of year `y` that lie before the first of month `m`. */
  function DaysBeforeMonth(y: int, m: int): int
    requires 0 <= m < 12
  {
    var leap := if IsLeapYear(y) then 1 else 0;
    if m == 0 then 0
    else if m == 1 then 31
    else [59, 90, 120, 151, 181, 212, 243, 273, 304, 334][m - 2] + leap
  }

  /** Fields in the ranges `Date` produces for a real instant. */
  predicate Valid(t: DateTime) {
    && 0 <= t.month < 12
    && 1 <= t.day <= DaysInMonth(t.year, t.month)
    && 0 <= t.hour < 24
    && 0 <= t.minute < 60
    && 0 <= t.second < 60
    && 0 <= t.millisecond < 1000
  }

  /** Leap years among the years before `y`, counted from an arbitrary origin (floor division). */
  function LeapYearsBefore(y: int): int {
    (y - 1) / 4 - (y - 1) / 100 + (y - 1) / 400
  }

  /** Day number of 1 January of year `y`; day 0 is 1 January 1970. */
  function DaysBeforeYear(y: int): int {
    365 * (y - 1970) + LeapYearsBefore(y) - LeapYearsBefore(1970)
  }

  function DayNumber(t: DateTime): int
    requires Valid(t)
  {
    DaysBeforeYear(t.year) + DaysBeforeMonth(t.year, t.month) + (t.day - 1)
  }

  /** Milliseconds since midnight. */
  function TimeOfDay(t: DateTime): (ms: int)
    requires Valid(t)
    ensures 0 <= ms < MsPerDay
  {
    t.hour * MsPerHour + t.minute * MsPerMinute + t.second * MsPerSecond + t.millisecond
  }

  /** `Date.prototype.getTime()`. */
  function Instant(t: DateTime): int
    requires Valid(t)
  {
    DayNumber(t) * MsPerDay + TimeOfDay(t)
  }

  /** 1 January of `y`, 00:00:00.000. */
  function NewYear(y: int): (t: DateTime)
    ensures Valid(t)
  {
    DateTime(y, 0, 1, 0, 0, 0, 0)
  }

  /** A year the multi-argument `Date` constructor does not take literally. */
  predicate IsTwoDigitYear(y: int) {
    0 <= y <= 99
  }

  /**
    `new Date(year, monthIndex, day, hours, minutes, seconds, ms)` with the other fields
    in range: a year from 0 to 99 is read as 1900 + year, any other year is kept.
  */
  function NewDate(year: int, month: int, day: int, hour: int, minute: int, second: int,
                   millisecond: int): (t: DateTime)
    ensures year <= t.year
    ensures t.year == year <==> !IsTwoDigitYear(year)
    ensures IsTwoDigitYear(year) ==> t.year == 1900 + year
    ensures t.month == month && t.day == day && t.hour == hour && t.minute == minute
    ensures t.second == second && t.millisecond == millisecond
  {
    DateTime(if IsTwoDigitYear(year) then 1900 + year else year,
             month, day, hour, minute, second, millisecond)
  }

  // ---------------------------------------------------------------------------
  // Facts about the calendar arithmetic.
  // ---------------------------------------------------------------------------

  lemma FloorStep(y: int, d: int)
    requires d == 4 || d == 100 || d == 400
    ensures y / d - (y - 1) / d == if y % d == 0 then 1 else 0
  {
    if d == 4 {
      assert y / 4 - (y - 1) / 4 == if y % 4 == 0 then 1 else 0;
    } else if d == 100 {
      assert y / 100 - (y - 1) / 100 == if y % 100 == 0 then 1 else 0;
    } else {
      assert y / 400 - (y - 1) / 400 == if y % 400 == 0 then 1 else 0;
    }
  }

  lemma {:induction false} MulAtLeast(k: int, d: int)
    requires 1 <= k && 0 < d
    ensures k * d >= d
    decreases k
  {
    if k > 1 {
      MulAtLeast(k - 1, d);
      assert k * d == (k - 1) * d + d;
    }
  }

  /** Euclidean division is unique: a quotient and a remainder in range are the ones `/` and `%` give. */
  lemma DivModUnique(n: int, d: int, q: int, r: int)
    requires 0 < d && 0 <= r < d && n == q * d + r
    ensures n / d == q && n % d == r
  {
    var q0, r0 := n / d, n % d;
    if q0 < q {
      MulAtLeast(q - q0, d);
    } else if q < q0 {
      MulAtLeast(q0 - q, d);
    }
  }

  /** Divisibility by 400 implies divisibility by 100, which implies divisibility by 4. */
  lemma DivisorChain(y: int)
    ensures y % 400 == 0 ==> y % 100 == 0
    ensures y % 100 == 0 ==> y % 4 == 0
  {
    if y % 400 == 0 {
      DivModUnique(y, 100, 4 * (y / 400), 0);
    }
    if y % 100 == 0 {
      DivModUnique(y, 4, 25 * (y / 100), 0);
    }
  }

  /** Consecutive new years are one year length apart. */
  lemma YearLength(y: int)
    ensures DaysBeforeYear(y + 1) - DaysBeforeYear(y) == DaysInYear(y)
  {
    var by4, by100, by400 := y / 4 - (y - 1) / 4, y / 100 - (y - 1) / 100, y / 400 - (y - 1) / 400;
    FloorStep(y, 4);
    FloorStep(y, 100);
    FloorStep(y, 400);
    DivisorChain(y);
    assert LeapYearsBefore(y + 1) - LeapYearsBefore(y) == by4 - by100 + by400;
    assert by4 - by100 + by400 == if IsLeapYear(y) then 1 else 0;
  }

  /** New years come in order, at least 365 days apart per year between them. */
  lemma {:induction false} NewYearMonotone(a: int, b: int)
    requires a <= b
    ensures Instant(NewYear(a)) + (b - a) * 365 * MsPerDay <= Instant(NewYear(b))
    decreases b - a
  {
    if a < b {
      NewYearMonotone(a, b - 1);
      YearLength(b - 1);
    }
  }

  /** A valid date lies within its own year. */
  lemma DayOfYearBounds(t: DateTime)
    requires Valid(t)
    ensures 0 <= DaysBeforeMonth(t.year, t.month) + (t.day - 1) < DaysInYear(t.year)
  {
  }

  /** Every valid instant lies between the new year of its own year and the next one. */
  lemma InstantWithinYear(t: DateTime)
    requires Valid(t)
    ensures Instant(NewYear(t.year)) <= Instant(t) < Instant(NewYear(t.year + 1))
    ensures Instant(NewYear(t.year + 1)) - Instant(NewYear(t.year)) == DaysInYear(t.year) * MsPerDay
  {
    YearLength(t.year);
    DayOfYearBounds(t);
  }

  /** Two times on the same date differ by their times of day. */
  lemma SameDate(a: DateTime, b: DateTime)
    requires Valid(a) && Valid(b)
    requires a.year == b.year && a.month == b.month && a.day == b.day
    ensures Instant(b) - Instant(a) == TimeOfDay(b) - TimeOfDay(a)
  {
  }
}
