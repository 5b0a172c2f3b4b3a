/**
  Countdown phase derivation (src/hooks/useCountdown.ts): the values derived from one
  clock sample, and the rollover edge detector that raises `yearJustRolled` when the
  target year changes and lowers it again with a one-shot timer.
*/
module Countdown {
  import opened Wrappers
  import opened Calendar
  import opened Time

  const PremiereWindowMs: int := 300_000
  const FinalTenMs: int := 10_000

  /**
    `startOfYear`: `new Date(target year - 1, 0, 1, 0, 0, 0, 0)`, 1 January of the year
    before the target's, as the constructor reads that year.
  */
  function StartOfYear(target: DateTime): (s: DateTime)
    ensures Valid(s)
    ensures !IsTwoDigitYear(target.year - 1) ==> s == NewYear(target.year - 1)
    ensures IsTwoDigitYear(target.year - 1) ==> s == NewYear(target.year + 1899)
  {
    NewDate(target.year - 1, 0, 1, 0, 0, 0, 0)
  }

  /** `isPremiereWindow`: the last five minutes, excluding zero, in whole seconds shown. */
  function IsPremiereWindow(t: TimeLeft): (b: bool)
    ensures b <==> 1 <= SecondsRemaining(t.totalMs) <= PremiereWindowMs / 1000
  {
    t.totalMs > 0 && t.totalMs <= PremiereWindowMs
  }

  /**
    `isFinalTen`: the last ten seconds, excluding zero, which are exactly the samples whose
    rounded-up seconds count from 10 down to 1; always inside the premiere window.
  */
  function IsFinalTen(t: TimeLeft): (b: bool)
    ensures b <==> 1 <= SecondsRemaining(t.totalMs) <= FinalTenMs / 1000
    ensures b ==> IsPremiereWindow(t)
    ensures t.totalMs <= 0 ==> !b && !IsPremiereWindow(t)
  {
    t.totalMs > 0 && t.totalMs <= FinalTenMs
  }

  /** `isNewYearsDay`: the sample lies within the first day of its own year. */
  function IsNewYearsDay(now: DateTime): (b: bool)
    requires Valid(now)
    ensures b <==> Instant(now) < Instant(NewYear(now.year)) + MsPerDay
  {
    InstantWithinYear(now);
    assert now.month > 0 ==> DaysBeforeMonth(now.year, now.month) >= 31;
    now.month == 0 && now.day == 1
  }

  /** `newYearsDayEnd`: `new Date(year, 0, 1, 23, 59, 59, 999)` for the sample's year. */
  function NewYearsDayEnd(now: DateTime): (e: DateTime)
    ensures Valid(e)
  {
    NewDate(now.year, 0, 1, 23, 59, 59, 999)
  }

  /**
    `newYearsDayLeft`: on New Year's Day the time left until the end of that day,
    otherwise nothing. In a two-digit year the end date is read in the twentieth century,
    so the time left is then more than 1899 years.
  */
  function NewYearsDayLeft(now: DateTime): (r: Option<TimeLeft>)
    requires Valid(now)
    ensures r.Some? <==> now.month == 0 && now.day == 1
    ensures r.Some? ==> r.value == CalculateTimeLeft(Instant(NewYearsDayEnd(now)), Instant(now))
    ensures r.Some? && !IsTwoDigitYear(now.year) ==>
              r.value.totalMs == MsPerDay - 1 - TimeOfDay(now)
              && r.value.days == 0 && 0 <= r.value.totalMs < MsPerDay
    ensures r.Some? && IsTwoDigitYear(now.year) ==> r.value.days >= 1899 * 365
  {
    if now.month == 0 && now.day == 1 then
      var end := NewYearsDayEnd(now);
      var left := CalculateTimeLeft(Instant(end), Instant(now));
      if IsTwoDigitYear(now.year) then
        SameDate(NewYear(now.year), now);
        SameDate(NewYear(end.year), end);
        NewYearMonotone(now.year, end.year);
        assert left.totalMs >= 1899 * 365 * MsPerDay;
        Some(left)
      else
        SameDate(now, end);
        Some(left)
    else None
  }

  /** What the hook returns for one clock sample, apart from `yearJustRolled`. */
  datatype CountdownState = CountdownState(
    now: DateTime,
    targetDate: DateTime,
    startOfYear: DateTime,
    timeLeft: TimeLeft,
    progress: real,
    isPremiereWindow: bool,
    isFinalTen: bool,
    isNewYearsDay: bool,
    newYearsDayLeft: Option<TimeLeft>)

  /**
    The values derived from one sample. Because the target is recomputed from every
    sample, the countdown is always running: the target is later than the sample, so the
    time left is positive and the progress stays below one. In particular the hook never
    reports `totalMs == 0`.
  */
  function Derive(now: DateTime): (c: CountdownState)
    requires Valid(now)
    ensures c.now == now && Valid(c.targetDate) && Valid(c.startOfYear)
    ensures c.targetDate == NextYearTargetFrom(now) && c.startOfYear == StartOfYear(c.targetDate)
    ensures c.timeLeft == CalculateTimeLeft(Instant(c.targetDate), Instant(now))
    ensures c.progress == YearProgress(Instant(now), Instant(c.startOfYear), Instant(c.targetDate))
    ensures c.isPremiereWindow == IsPremiereWindow(c.timeLeft) && c.isFinalTen == IsFinalTen(c.timeLeft)
    ensures c.isNewYearsDay == IsNewYearsDay(now) && c.newYearsDayLeft == NewYearsDayLeft(now)
    ensures 0 < c.timeLeft.totalMs == Instant(c.targetDate) - Instant(now)
    ensures 0.0 <= c.progress <= 0.9999
    ensures c.isFinalTen ==> c.isPremiereWindow
    ensures c.isNewYearsDay <==> c.newYearsDayLeft.Some?
  {
    var target := NextYearTargetFrom(now);
    NextYearTargetIsNextNewYear(now);
    var start := StartOfYear(target);
    var left := CalculateTimeLeft(Instant(target), Instant(now));
    CountdownState(now, target, start, left,
                   YearProgress(Instant(now), Instant(start), Instant(target)),
                   IsPremiereWindow(left), IsFinalTen(left),
                   IsNewYearsDay(now), NewYearsDayLeft(now))
  }

  /**
    The period of the sample. Outside the two-digit years it runs from the sample's own
    new year to the next one, so the time left is at most a year. When the following
    year is from 0 to 99, both ends are read in the twentieth century; in year 99 only the
    start is. Either way the sample lies before the period and the progress is 0.
  */
  lemma DeriveTargetsNextNewYear(now: DateTime)
    requires Valid(now)
    ensures var c := Derive(now);
            && (!IsTwoDigitYear(now.year) && !IsTwoDigitYear(now.year + 1) ==>
                  && c.targetDate == NewYear(now.year + 1)
                  && c.startOfYear == NewYear(now.year)
                  && c.timeLeft.totalMs <= DaysInYear(now.year) * MsPerDay)
            && (IsTwoDigitYear(now.year + 1) ==>
                  && c.targetDate == NewYear(now.year + 1901)
                  && c.startOfYear == NewYear(now.year + 1900)
                  && c.progress == 0.0)
            && (now.year == 99 ==>
                  && c.targetDate == NewYear(100)
                  && c.startOfYear == NewYear(1999)
                  && c.progress == 0.0)
  {
    NextYearTargetIsNextNewYear(now);
    if IsTwoDigitYear(now.year + 1) {
      NewYearMonotone(now.year + 1, now.year + 1900);
    } else if now.year == 99 {
      NewYearMonotone(100, 1999);
    }
  }

  /**
    The progress and the time left agree: the elapsed part of the period and the time
    left add up to the whole period.
  */
  lemma DeriveElapsedPlusLeft(now: DateTime)
    requires Valid(now)
    ensures var c := Derive(now);
            (Instant(now) - Instant(c.startOfYear)) + c.timeLeft.totalMs
              == Instant(c.targetDate) - Instant(c.startOfYear)
  {
  }

  // ---------------------------------------------------------------------------
  // The rollover edge detector.
  // ---------------------------------------------------------------------------

  /**
    The detector's state: `previousTargetYearRef`, the `yearJustRolled` state, and whether
    the one-shot timer that lowers it is still armed.
  */
  datatype Rollover = Rollover(previousTargetYear: int, yearJustRolled: bool, clearTimerArmed: bool)

  /** Events: a render with a new sample (and its target year), or the one-shot timer firing. */
  datatype RolloverEvent = Rendered(targetYear: int) | ClearTimerFired

  /** The state after the first render: the ref starts at the first target year. */
  function InitialRollover(targetYear: int): Rollover {
    Rollover(targetYear, false, false)
  }

  /**
    The effect AS WRITTEN. Its dependency is the `targetDate` object, which `useMemo`
    rebuilds from every new `now`, so the effect re-runs on every render and first runs
    the cleanup of its previous run, which clears the one-shot timer.
  */
  function StepAsWritten(s: Rollover, e: RolloverEvent): (r: Rollover)
    ensures e.Rendered? && e.targetYear != s.previousTargetYear ==> r == Step(s, e)
    ensures e.Rendered? && e.targetYear == s.previousTargetYear ==>
              r == Step(s, e).(clearTimerArmed := false)
    ensures e.ClearTimerFired? ==> r == Step(s, e)
  {
    match e
    case Rendered(y) =>
      var cleaned := s.(clearTimerArmed := false);
      if y != s.previousTargetYear then Rollover(y, true, true) else cleaned
    case ClearTimerFired =>
      if s.clearTimerArmed then s.(yearJustRolled := false, clearTimerArmed := false) else s
  }

  /**
    The detector as intended: the effect re-runs (and cancels its timer) only when the
    target year changes.
  */
  function Step(s: Rollover, e: RolloverEvent): (r: Rollover)
    ensures e.Rendered? && e.targetYear != s.previousTargetYear ==>
              r.yearJustRolled && r.previousTargetYear == e.targetYear && r.clearTimerArmed
    ensures e.Rendered? && e.targetYear == s.previousTargetYear ==> r == s
    ensures e.ClearTimerFired? && s.clearTimerArmed ==>
              !r.yearJustRolled && r.previousTargetYear == s.previousTargetYear && !r.clearTimerArmed
    ensures e.ClearTimerFired? && !s.clearTimerArmed ==> r == s
  {
    match e
    case Rendered(y) =>
      if y != s.previousTargetYear then Rollover(y, true, true) else s
    case ClearTimerFired =>
      if s.clearTimerArmed then s.(yearJustRolled := false, clearTimerArmed := false) else s
  }

  function RunAsWritten(s: Rollover, es: seq<RolloverEvent>): Rollover
    decreases |es|
  {
    if es == [] then s else RunAsWritten(StepAsWritten(s, es[0]), es[1..])
  }

  function Run(s: Rollover, es: seq<RolloverEvent>): Rollover
    decreases |es|
  {
    if es == [] then s else Run(Step(s, es[0]), es[1..])
  }

  /** Renders that keep the target year `y`. */
  function SameYearRenders(y: int, k: nat): (es: seq<RolloverEvent>)
    ensures |es| == k && forall i :: 0 <= i < k ==> es[i] == Rendered(y)
  {
    seq(k, _ => Rendered(y))
  }

  /** Only renders in year `y` and timer events. */
  predicate StaysInYear(es: seq<RolloverEvent>, y: int) {
    forall i :: 0 <= i < |es| ==> es[i] == ClearTimerFired || es[i] == Rendered(y)
  }

  lemma {:induction false} AsWrittenStuck(s: Rollover, es: seq<RolloverEvent>)
    requires s.yearJustRolled && !s.clearTimerArmed
    requires StaysInYear(es, s.previousTargetYear)
    ensures RunAsWritten(s, es) == s
    decreases |es|
  {
    if es != [] {
      assert StepAsWritten(s, es[0]) == s;
      AsWrittenStuck(s, es[1..]);
    }
  }

  /**
    As written, one render after the roll cancels the timer, and from then on
    `yearJustRolled` stays true for the rest of the year, whatever the timer does.
  */
  lemma AsWrittenNeverLowers(year: int, es: seq<RolloverEvent>)
    requires StaysInYear(es, year + 1)
    ensures RunAsWritten(InitialRollover(year), [Rendered(year + 1), Rendered(year + 1)] + es).yearJustRolled
  {
    var s := StepAsWritten(StepAsWritten(InitialRollover(year), Rendered(year + 1)), Rendered(year + 1));
    assert s == Rollover(year + 1, true, false);
    var all := [Rendered(year + 1), Rendered(year + 1)] + es;
    assert all[1..][1..] == es;
    AsWrittenStuck(s, es);
  }

  /** The two definitions part on the smallest input: roll, one more tick, the timer. */
  lemma RolloverCounterexample()
    ensures RunAsWritten(InitialRollover(2025), [Rendered(2026), Rendered(2026), ClearTimerFired]).yearJustRolled
    ensures !Run(InitialRollover(2025), [Rendered(2026), Rendered(2026), ClearTimerFired]).yearJustRolled
  {
    var es := [Rendered(2026), Rendered(2026), ClearTimerFired];
    assert es[1..] == [Rendered(2026), ClearTimerFired] && es[1..][1..] == [ClearTimerFired];
  }

  lemma {:induction false} SameYearRendersKeepState(s: Rollover, k: nat, tail: seq<RolloverEvent>)
    ensures Run(s, SameYearRenders(s.previousTargetYear, k) + tail) == Run(s, tail)
    decreases k
  {
    if k > 0 {
      var es := SameYearRenders(s.previousTargetYear, k) + tail;
      assert es[0] == Rendered(s.previousTargetYear) && Step(s, es[0]) == s;
      assert es[1..] == SameYearRenders(s.previousTargetYear, k - 1) + tail;
      assert Run(s, es) == Run(s, es[1..]);
      SameYearRendersKeepState(s, k - 1, tail);
    } else {
      assert SameYearRenders(s.previousTargetYear, k) + tail == tail;
    }
  }

  /**
    As intended: after a roll, any number of renders in the new year leave the timer
    armed, and when it fires `yearJustRolled` is lowered.
  */
  lemma RolloverWindowCloses(s: Rollover, k: nat)
    ensures var y := s.previousTargetYear + 1;
            var r := Run(s, [Rendered(y)] + SameYearRenders(y, k) + [ClearTimerFired]);
            !r.yearJustRolled && r.previousTargetYear == y && !r.clearTimerArmed
  {
    var y := s.previousTargetYear + 1;
    var rolled := Step(s, Rendered(y));
    var es := [Rendered(y)] + SameYearRenders(y, k) + [ClearTimerFired];
    assert es[1..] == SameYearRenders(y, k) + [ClearTimerFired];
    SameYearRendersKeepState(rolled, k, [ClearTimerFired]);
  }

  /** The rollover detector as a stateful object, following the intended `Step`. */
  class RolloverDetector {
    var previousTargetYear: int
    var yearJustRolled: bool
    var clearTimerArmed: bool

    function State(): Rollover
      reads this
    {
      Rollover(previousTargetYear, yearJustRolled, clearTimerArmed)
    }

    constructor (targetYear: int)
      ensures State() == InitialRollover(targetYear)
    {
      previousTargetYear := targetYear;
      yearJustRolled := false;
      clearTimerArmed := false;
    }

    /** A render whose target date has year `targetYear`. */
    method Render(targetYear: int)
      modifies this
      ensures State() == Step(old(State()), Rendered(targetYear))
      ensures targetYear != old(previousTargetYear) ==>
                yearJustRolled && previousTargetYear == targetYear && clearTimerArmed
      ensures targetYear == old(previousTargetYear) ==> unchanged(this)
    {
      if targetYear != previousTargetYear {
        yearJustRolled := true;
        previousTargetYear := targetYear;
        clearTimerArmed := true;
      }
    }

    /** The one-shot timer fires. */
    method ClearTimerFires()
      requires clearTimerArmed
      modifies this
      ensures State() == Step(old(State()), ClearTimerFired)
      ensures !yearJustRolled && !clearTimerArmed && previousTargetYear == old(previousTargetYear)
    {
      yearJustRolled := false;
      clearTimerArmed := false;
    }
  }
}
