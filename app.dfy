/**
  The logic of the page component (src/App.tsx): the tone cues of the final seconds and
  of the year's rollover, the parameters of a tone, the displayed progress, and the
  throttled click confetti with its clamped origin.

  Tones and confetti bursts are appended to logs; the Web Audio graph and the
  confetti library that would render them are not part of this model.
*/
module App {
  import opened Wrappers
  import opened Time
  import opened Countdown

  // ---------------------------------------------------------------------------
  // triggerBeep: the parameters of a tone.
  // ---------------------------------------------------------------------------

  datatype Intensity = Normal | Final

  /**
    A triangle-wave tone: its frequency, how long it sounds (seconds), and its gain
    envelope, which ramps exponentially from `floorGain` up to `peakGain` at `peakAtS`
    and back down to `floorGain` at the end.
  */
  datatype Tone = Tone(frequencyHz: int, durationS: real, floorGain: real, peakGain: real, peakAtS: real)

  function ToneFor(intensity: Intensity): (t: Tone)
    ensures t.frequencyHz == (if intensity == Final then 880 else 560)
    ensures t.durationS == (if intensity == Final then 0.24 else 0.14)
    ensures t.floorGain == 0.0001 && t.peakGain == 0.32 && t.peakAtS == 0.02
  {
    var duration := if intensity == Final then 0.24 else 0.14;
    var frequency := if intensity == Final then 880 else 560;
    Tone(frequency, duration, 0.0001, 0.32, 0.02)
  }

  /**
    Every tone rises to its peak before it stops, and its envelope ramps stay positive
    (an exponential ramp needs positive end points); the final tone is higher and
    longer than the normal one.
  */
  lemma ToneEnvelopes()
    ensures forall i: Intensity :: 0.0 < ToneFor(i).peakAtS < ToneFor(i).durationS
    ensures forall i: Intensity :: 0.0 < ToneFor(i).floorGain < ToneFor(i).peakGain
    ensures ToneFor(Final).frequencyHz > ToneFor(Normal).frequencyHz
    ensures ToneFor(Final).durationS > ToneFor(Normal).durationS
  {
    forall i: Intensity
      ensures 0.0 < ToneFor(i).peakAtS < ToneFor(i).durationS
      ensures 0.0 < ToneFor(i).floorGain < ToneFor(i).peakGain
    {
      var t := ToneFor(i);
    }
  }

  /** The intensity of a final-ten beep: final for the last three seconds. */
  function IntensityFor(secondsRemaining: int): (i: Intensity)
    ensures i == Final <==> secondsRemaining <= 3
  {
    if secondsRemaining <= 3 then Final else Normal
  }

  // ---------------------------------------------------------------------------
  // The countdown cue effect, one run at a time.
  // ---------------------------------------------------------------------------

  /** What one run of the countdown cue effect does: the new `lastBeepSecondRef` and the tones. */
  datatype Cue = Cue(lastBeepSecond: Option<int>, tones: seq<Intensity>)

  /**
    One run of the countdown cue effect on the sample `t`, given whether sound is on and
    the second last beeped (`-1` once the final double beep at zero has sounded).
  */
  function CueStep(soundEnabled: bool, lastBeepSecond: Option<int>, t: TimeLeft): (c: Cue)
    ensures !soundEnabled ==> c == Cue(lastBeepSecond, [])
    ensures soundEnabled && t.totalMs <= 0 ==>
              c == (if lastBeepSecond == Some(-1) then Cue(lastBeepSecond, []) else Cue(Some(-1), [Final, Final]))
    ensures soundEnabled && t.totalMs > 0 && !IsFinalTen(t) ==> c == Cue(lastBeepSecond, [])
    ensures soundEnabled && IsFinalTen(t) ==>
              var s := SecondsRemaining(t.totalMs);
              && 1 <= s <= 10
              && c == (if lastBeepSecond == Some(s) then Cue(lastBeepSecond, []) else Cue(Some(s), [IntensityFor(s)]))
  {
    if !soundEnabled then Cue(lastBeepSecond, [])
    else
      var secondsRemaining := SecondsRemaining(t.totalMs);
      if t.totalMs <= 0 && lastBeepSecond != Some(-1) then Cue(Some(-1), [Final, Final])
      else if IsFinalTen(t) && t.totalMs > 0 && lastBeepSecond != Some(secondsRemaining) then
        Cue(Some(secondsRemaining), [IntensityFor(secondsRemaining)])
      else Cue(lastBeepSecond, [])
  }

  /**
    Running the effect again on the same sample sounds nothing, so whether React skips
    a run with unchanged dependencies does not change what is heard.
  */
  lemma CueStepIdempotent(soundEnabled: bool, lastBeepSecond: Option<int>, t: TimeLeft)
    ensures var c := CueStep(soundEnabled, lastBeepSecond, t);
            CueStep(soundEnabled, c.lastBeepSecond, t) == Cue(c.lastBeepSecond, [])
  {
  }

  /** A final-ten beep is a final one exactly in the last three seconds (`totalMs <= 3000`). */
  lemma FinalBeepInLastThreeSeconds(lastBeepSecond: Option<int>, t: TimeLeft)
    requires IsFinalTen(t) && lastBeepSecond != Some(SecondsRemaining(t.totalMs))
    ensures CueStep(true, lastBeepSecond, t).tones == [if t.totalMs <= 3000 then Final else Normal]
  {
    var s := SecondsRemaining(t.totalMs);
    assert s <= 3 <==> t.totalMs <= 3000;
  }

  /** The samples of a run of the effect, from a given `lastBeepSecondRef`, with sound on. */
  function RunCues(lastBeepSecond: Option<int>, samples: seq<TimeLeft>): (c: Cue)
    decreases |samples|
  {
    if samples == [] then Cue(lastBeepSecond, [])
    else
      var first := CueStep(true, lastBeepSecond, samples[0]);
      var rest := RunCues(first.lastBeepSecond, samples[1..]);
      Cue(rest.lastBeepSecond, first.tones + rest.tones)
  }

  /**
    However many samples at zero the effect sees, the final double beep sounds once
    (not at all if it already has).
  */
  lemma {:induction false} ZeroBeepsOnce(lastBeepSecond: Option<int>, samples: seq<TimeLeft>)
    requires forall k :: 0 <= k < |samples| ==> samples[k].totalMs <= 0
    ensures var c := RunCues(lastBeepSecond, samples);
            && c.tones == (if samples == [] || lastBeepSecond == Some(-1) then [] else [Final, Final])
            && (samples != [] ==> c.lastBeepSecond == Some(-1))
    decreases |samples|
  {
    if samples != [] {
      var first := CueStep(true, lastBeepSecond, samples[0]);
      ZeroBeepsOnce(first.lastBeepSecond, samples[1..]);
    }
  }

  /**
    In the final ten, samples within one second sound at most one beep: after the
    first sample of a second, the rest of that second is silent.
  */
  lemma {:induction false} OneBeepPerSecond(lastBeepSecond: Option<int>, s: int, samples: seq<TimeLeft>)
    requires forall k :: 0 <= k < |samples| ==> IsFinalTen(samples[k]) && SecondsRemaining(samples[k].totalMs) == s
    ensures var c := RunCues(lastBeepSecond, samples);
            && c.tones == (if samples == [] || lastBeepSecond == Some(s) then [] else [IntensityFor(s)])
            && (samples != [] ==> c.lastBeepSecond == Some(s))
    decreases |samples|
  {
    if samples != [] {
      var first := CueStep(true, lastBeepSecond, samples[0]);
      OneBeepPerSecond(first.lastBeepSecond, s, samples[1..]);
    }
  }

  // ---------------------------------------------------------------------------
  // The cue state of the page.
  // ---------------------------------------------------------------------------

  class ToneCues {
    var soundEnabled: bool
    var lastBeepSecond: Option<int>  // lastBeepSecondRef
    var tones: seq<Intensity>        // every tone started, in order

    constructor ()
      ensures !soundEnabled && lastBeepSecond == None && tones == []
    {
      soundEnabled, lastBeepSecond, tones := false, None, [];
    }

    /** `triggerBeep(intensity)`: a tone starts only while sound is on. */
    method TriggerBeep(intensity: Intensity)
      modifies this`tones
      ensures tones == old(tones) + (if soundEnabled then [intensity] else [])
    {
      if !soundEnabled {
        return;
      }
      tones := tones + [intensity];
    }

    /** A run of the countdown cue effect on the sample `t`. */
    method CountdownCueEffect(t: TimeLeft)
      modifies this`lastBeepSecond, this`tones
      ensures var c := CueStep(soundEnabled, old(lastBeepSecond), t);
              lastBeepSecond == c.lastBeepSecond && tones == old(tones) + c.tones
    {
      if !soundEnabled {
        return;
      }
      var secondsRemaining := SecondsRemaining(t.totalMs);
      if t.totalMs <= 0 && lastBeepSecond != Some(-1) {
        lastBeepSecond := Some(-1);
        TriggerBeep(Final);
        TriggerBeep(Final);
        return;
      }
      if IsFinalTen(t) && t.totalMs > 0 {
        if lastBeepSecond != Some(secondsRemaining) {
          lastBeepSecond := Some(secondsRemaining);
          TriggerBeep(IntensityFor(secondsRemaining));
        }
      }
    }

    /** A run of the rollover cue effect: a final double beep when the year has just rolled. */
    method RolloverCueEffect(yearJustRolled: bool)
      modifies this`tones
      ensures tones == old(tones) + (if soundEnabled && yearJustRolled then [Final, Final] else [])
    {
      if !soundEnabled || !yearJustRolled {
        return;
      }
      TriggerBeep(Final);
      TriggerBeep(Final);
    }

    /**
      `handleToggleSound`: sound flips and, when it goes off, `lastBeepSecondRef` is
      cleared; both cue effects depend on `soundEnabled` and run again, in order.
    */
    method ToggleSound(t: TimeLeft, yearJustRolled: bool)
      modifies this`soundEnabled, this`lastBeepSecond, this`tones
      ensures soundEnabled == !old(soundEnabled)
      ensures !soundEnabled ==> lastBeepSecond == None && tones == old(tones)
      ensures soundEnabled ==>
                var c := CueStep(true, old(lastBeepSecond), t);
                && lastBeepSecond == c.lastBeepSecond
                && tones == old(tones) + c.tones + (if yearJustRolled then [Final, Final] else [])
    {
      soundEnabled := !soundEnabled;
      if !soundEnabled {
        lastBeepSecond := None;
      }
      CountdownCueEffect(t);
      RolloverCueEffect(yearJustRolled);
    }
  }

  // ---------------------------------------------------------------------------
  // displayProgress.
  // ---------------------------------------------------------------------------

  /** The progress shown: full once the target is reached, otherwise capped at 0.999. */
  function DisplayProgress(totalMs: int, progress: real): (d: real)
    ensures totalMs <= 0 ==> d == 1.0
    ensures totalMs > 0 ==> d <= 0.999 && d <= progress && (progress <= 0.999 ==> d == progress)
    ensures totalMs > 0 && progress >= 0.999 ==> d == 0.999
  {
    if totalMs <= 0 then 1.0 else Min(progress, 0.999)
  }

  /**
    On one clock sample the displayed progress lies in [0, 1] and is full exactly when
    the target has been reached.
  */
  lemma DisplayProgressOfSample(nowMs: int, startMs: int, targetMs: int)
    ensures var d := DisplayProgress(CalculateTimeLeft(targetMs, nowMs).totalMs, YearProgress(nowMs, startMs, targetMs));
            0.0 <= d <= 1.0 && (d == 1.0 <==> nowMs >= targetMs)
  {
  }

  // ---------------------------------------------------------------------------
  // fireClickEffect.
  // ---------------------------------------------------------------------------

  const ClickThrottleMs: real := 250.0

  /** `Math.min(0.98, Math.max(0.02, v))`: an origin coordinate kept off the edges. */
  function ClampOrigin(v: real): (r: real)
    ensures 0.02 <= r <= 0.98
    ensures 0.02 <= v <= 0.98 ==> r == v
    ensures v < 0.02 ==> r == 0.02
    ensures v > 0.98 ==> r == 0.98
  {
    Min(0.98, Max(0.02, v))
  }

  /** Accepted clicks are at least the throttle interval apart, each after the previous. */
  ghost predicate Spaced(times: seq<real>) {
    forall k :: 0 <= k < |times| - 1 ==> times[k + 1] - times[k] >= ClickThrottleMs
  }

  /** Spacing accumulates: any two accepted clicks are `j - i` intervals apart or more. */
  lemma {:induction false} SpacedAccumulates(times: seq<real>, i: nat, j: nat)
    requires Spaced(times) && i <= j < |times|
    ensures times[j] - times[i] >= (j - i) as real * ClickThrottleMs
    decreases j - i
  {
    if i < j {
      SpacedAccumulates(times, i, j - 1);
      assert times[j] - times[j - 1] >= ClickThrottleMs;
    }
  }

  class ClickEffects {
    var lastClickEffect: real          // lastClickEffectRef
    var origins: seq<(real, real)>     // the origin of every burst fired
    ghost var acceptedAt: seq<real>    // the time of every accepted click

    ghost predicate Valid()
      reads this
    {
      && Spaced(acceptedAt)
      && (acceptedAt == [] ==> lastClickEffect == 0.0)
      && (acceptedAt != [] ==> lastClickEffect == acceptedAt[|acceptedAt| - 1] && acceptedAt[0] >= ClickThrottleMs)
      && |origins| == |acceptedAt|
      && (forall k :: 0 <= k < |origins| ==> 0.02 <= origins[k].0 <= 0.98 && 0.02 <= origins[k].1 <= 0.98)
    }

    constructor ()
      ensures Valid() && lastClickEffect == 0.0 && origins == []
    {
      lastClickEffect, origins, acceptedAt := 0.0, [], [];
    }

    /**
      A click at `nowTs` (`performance.now()`), at `xRatio` and `yRatio` of the window's
      width and height: dropped within 250 ms of the last accepted click, otherwise a
      burst at the clamped origin.
    */
    method Click(nowTs: real, xRatio: real, yRatio: real) returns (fired: bool)
      requires Valid()
      modifies this`lastClickEffect, this`origins, this`acceptedAt
      ensures Valid()
      ensures fired == (nowTs - old(lastClickEffect) >= ClickThrottleMs)
      ensures !fired ==> lastClickEffect == old(lastClickEffect) && origins == old(origins)
      ensures fired ==> lastClickEffect == nowTs && origins == old(origins) + [(ClampOrigin(xRatio), ClampOrigin(yRatio))]
    {
      if nowTs - lastClickEffect < ClickThrottleMs {
        return false;
      }
      lastClickEffect := nowTs;
      origins := origins + [(ClampOrigin(xRatio), ClampOrigin(yRatio))];
      acceptedAt := acceptedAt + [nowTs];
      return true;
    }
  }
}
