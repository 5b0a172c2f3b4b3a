# New-year countdown: a verified model of its logic

The application is a single-page React countdown to the next new year. Once a second it
samples the clock and derives:

- the time left, split into days, hours, minutes and seconds;
- the progress through the current year;
- whether the last five minutes or the last ten seconds have begun;
- whether today is New Year's Day, and how much of that day is left;
- `yearJustRolled`, raised when the target year changes.

On top of these it plays two music tracks. The ambient "Ice" track plays during the
countdown. The event "Hedgehog" track starts at zero and all through New Year's Day,
with confetti. The final seconds are marked by short tones, and clicks fire small
confetti bursts.

This project models that logic in Dafny and proves what it promises.

- `calendar.dfy` (module `Calendar`): the part of JavaScript's `Date` the countdown
  relies on. A date is its calendar fields, and `getTime()` is the proleptic Gregorian
  instant in milliseconds.
- `time.dfy` (module `Time`, `src/utils/time.ts`):
  - `calculateTimeLeft`, with its split and the uniqueness of that split;
  - `getNextYearTargetFrom`;
  - `formatTwo`, with the digit string read back as the value;
  - `getYearProgress`;
  - the rounded-up seconds left, shared by the tone cues and the music controller.
- `countdown.dfy` (module `Countdown`, `src/hooks/useCountdown.ts`):
  - the values derived from one clock sample;
  - the rollover edge detector, both as written and as intended (see Findings), and as a
    class following the intended step.
- `bgm.dfy` (module `Bgm`, `src/hooks/useBgmController.ts`): the music controller as a
  class.
  - Every audio element the hook creates is an entry of `audios`. A ref holds the index
    of its element, so a callback that captured an element keeps acting on it after the
    ref has moved on.
  - The hook's refs form one record, `refs`.
  - The work left with the browser forms one record, `browser`: running fades, unsettled
    `play()` promises, the armed stop timer, the armed confetti timers and the number of
    bursts fired.
  - Each external event is a method: toggling, a re-run of the enable effect, a tick of
    the time left, a play settling, the stop timer, a fade frame, a confetti timer,
    unmounting.
  - Each method's postcondition ties the new state to a relation over the old state, and
    lemmas state what those relations promise.
  - React's memoisation of `visualizerSource` on `hedgehogActive` is modelled: the value
    is recomputed only when that flag changes.
  - So is the stale `startIce` that the stop-timer fade-out calls. It was captured while
    music was on, so it starts the ambient track even after music was turned off during
    the fade-out.
- `app.dfy` (module `App`, `src/App.tsx`):
  - the tone parameters and the intensity of a beep;
  - the countdown cue effect as a step function, and a class holding
    `lastBeepSecondRef` and the log of tones;
  - the rollover cue;
  - the displayed progress;
  - the click throttle and the clamped origin, with the spacing of accepted clicks as a
    class invariant.
- `wrappers.dfy`: the `Option` type, used for `null` and `undefined`.

A consequence worth knowing: on New Year's Day the enable effect of the music controller
depends on `newYearsDayLeftMs`, which changes every second. Each re-run while
`yearJustRolled` is set is therefore a forced start. It rewinds the event track and fires
a confetti burst (`Bgm.NewYearsDayRerunForcesRestart`). With the rollover detector as
written, `yearJustRolled` never falls back (see Findings), so this repeats every second
for the whole of New Year's Day once the page has seen the year roll.

Because the target is recomputed from every sample, the time left the hook reports is
never 0 (`Countdown.Derive`). The branches that wait for it to reach 0, the event-track
start of the music controller and the double final beep, are therefore never taken with
the hook's values; the model keeps them as the source has them.

`new Date(year, month, …)` reads a year from 0 to 99 as 1900 + year. The target, the
start of the period and the end of New Year's Day are built that way, so for a sample
in years -1 to 98 the target is read as 1 January of 1900 to 1999 and the start of the
period as 1 January of 1899 to 1998. For a sample in year 99 the target is 1 January of
year 100 and the start is 1 January 1999. The model does the same (`Calendar.NewDate`).

## Model

| member | source | states |
|---|---|---|
| Calendar.InstantWithinYear | src/utils/time.ts:14 | every instant lies between the new year of its own year and the next one, which are one year length apart |
| Time.CalculateTimeLeft | src/utils/time.ts:16-29 | the total is the difference clamped at zero; the parts are in clock ranges; the parts recompose the total with its sub-second remainder; a past target gives all zeros |
| Time.SplitRecomposes | src/utils/time.ts:19-26 | the floor-and-remainder split of any non-negative duration recomposes it and gives hours < 24, minutes < 60, seconds < 60 |
| Time.SplitOfCompose | src/utils/time.ts:23-26 | the split is unique: composing parts within clock ranges and splitting gives the same parts back |
| Calendar.DivModUnique | src/utils/time.ts:23-26 | a quotient and a remainder in range are the ones floor division and remainder produce |
| Calendar.NewDate | src/utils/time.ts:14 | the multi-argument `Date` constructor never moves a year earlier, keeps it exactly when it is outside 0..99, reads a year in 0..99 as 1900 + year, and keeps the other fields |
| Time.NextYearTargetFrom | src/utils/time.ts:14 | the target is a valid date (which date it is, `Time.NextYearTargetIsNextNewYear` states) |
| Time.NextYearTargetIsNextNewYear | src/utils/time.ts:14 | the target is always after the base, and the base's own new year is not; outside the two-digit years the target is 1 January of the following year, at most one year length later; when the following year is in 0..99 the target is 1 January of 1900 + that year |
| Time.PadStart | src/utils/time.ts:31 | the result has the requested width or the input's length, ends with the input and is filled with the fill character before it |
| Time.IntToString | src/utils/time.ts:31 | the string is never empty; a non-negative value gives digits with no leading zero that read back as the value; a negative one gives '-' and the digits of its magnitude |
| Time.FormatTwo | src/utils/time.ts:31 | the result has length at least 2; 0-9 give '0' and the digit; every other value gives its decimal string unchanged |
| Time.NatToStringRoundTrip | src/utils/time.ts:31 | the decimal string of a number reads back as that number |
| Time.FormatTwoRoundTrip | src/utils/time.ts:31 | the padded two-digit string is all digits and reads back as the value |
| Time.SecondsRemaining | src/hooks/useBgmController.ts:270 | never negative; zero when no time is left; otherwise the least whole number of seconds covering the time left |
| Time.YearProgress | src/utils/time.ts:33-41 | 1 once the target is reached; 0 before the start or for an empty period; otherwise within [0, 0.9999] |
| Time.YearProgressIsElapsedFraction | src/utils/time.ts:38-40 | inside the period the progress is the elapsed fraction, which lies strictly between 0 and 1, capped at 0.9999 |
| Time.YearProgressMonotone | src/utils/time.ts:33-41 | the progress never decreases as the clock advances |
| Countdown.StartOfYear | src/hooks/useCountdown.ts:30-33 | the start of the period is 1 January 00:00 of the year before the target's, or of 1900 + that year when it is in 0..99 |
| Countdown.IsPremiereWindow | src/hooks/useCountdown.ts:41 | the premiere window holds exactly when the rounded-up seconds left are between 1 and 300 |
| Countdown.IsFinalTen | src/hooks/useCountdown.ts:41-42 | the final ten holds exactly when the rounded-up seconds left are between 1 and 10; it implies the premiere window, and neither holds when no time is left |
| Countdown.IsNewYearsDay | src/hooks/useCountdown.ts:44 | the date is 1 January exactly when the sample lies within the first day of its own year |
| Countdown.NewYearsDayLeft | src/hooks/useCountdown.ts:44-52 | present exactly on 1 January, and then the split of the time left until the end date that `CalculateTimeLeft` gives; outside the two-digit years that is the time left until 23:59:59.999 of that day, which is less than a day; in a year 0..99 the end date is read in the 1900s and more than 1899 × 365 days are left |
| Countdown.Derive | src/hooks/useCountdown.ts:29-52 | every field is the operation of the same name on the sample (target, start, time left, progress, the three flags and the day's time left); from any sample the target is after the sample and the time left is the positive difference, so `totalMs` is never 0; the progress stays in [0, 0.9999]; the final ten implies the premiere window; New Year's Day holds exactly when its time left is present |
| Countdown.DeriveTargetsNextNewYear | src/hooks/useCountdown.ts:29-33 | outside the two-digit years the target is the next new year, the period starts at this year's new year and at most a year is left; for samples in years -1..98 the target is 1 January of 1900..1999 and the start 1 January of 1899..1998; in year 99 the target is 1 January of year 100 and the start 1 January 1999; in both cases the progress is 0 |
| Countdown.DeriveElapsedPlusLeft | src/hooks/useCountdown.ts:35-39 | the elapsed part of the period plus the time left is the whole period |
| Countdown.Step | src/hooks/useCountdown.ts:54-64 | the intended detector: a new target year raises the flag, stores the year and arms the timer; the same year changes nothing; the armed timer lowers the flag and is gone |
| Countdown.StepAsWritten | src/hooks/useCountdown.ts:55-64 | the effect as it runs: a new target year and the timer act as the intended step; a same-year render acts as the intended step but also disarms the timer |
| Countdown.AsWrittenNeverLowers | src/hooks/useCountdown.ts:54-64 | as written, after a roll and one more tick in the new year, the flag stays raised whatever events follow in that year |
| Countdown.RolloverCounterexample | src/hooks/useCountdown.ts:54-64 | roll, one more tick, timer: the flag stays raised as written and is lowered as intended |
| Countdown.RolloverWindowCloses | src/hooks/useCountdown.ts:60 | as intended, after a roll and any number of ticks in the new year, the timer lowers the flag |
| Countdown.RolloverDetector.constructor | src/hooks/useCountdown.ts:54 | the stored year starts at the first target year with the flag down |
| Countdown.RolloverDetector.Render | src/hooks/useCountdown.ts:55-59 | a render performs the intended step: a new year raises the flag and arms the timer, the same year leaves the object unchanged |
| Countdown.RolloverDetector.ClearTimerFires | src/hooks/useCountdown.ts:60 | the timer lowers the flag and keeps the stored year |
| Bgm.ClampUnit | src/hooks/useBgmController.ts:65 | the target volume is clamped into [0, 1] and left alone inside it |
| Bgm.FadeProgress | src/hooks/useBgmController.ts:73 | progress lies in [0, 1], is 1 exactly when the elapsed time has reached the duration, and before that is the elapsed fraction of the duration |
| Bgm.FadeProgressMonotone | src/hooks/useBgmController.ts:72-73 | progress never decreases as frames come later |
| Bgm.FadeVolume | src/hooks/useBgmController.ts:74 | a frame's volume is the linear interpolation `(1 - p) * start + p * target`; it lies between start and target, is the start at progress 0 and the target at progress 1 |
| Bgm.FadeVolumeApproachesTarget | src/hooks/useBgmController.ts:72-79 | later frames are never further from the target than earlier ones |
| Bgm.NewYearsDayOptions | src/hooks/useBgmController.ts:237-245 | on New Year's Day the event track plays for the time left in the day (15 minutes if unknown), with confetti and force exactly when the year just rolled, a 5 s fade-in, a 10 s fade-out and the ambient track resumed |
| Bgm.Pause | src/hooks/useBgmController.ts:251-253 | only the element the ref holds changes, and it becomes paused |
| Bgm.PauseRewind | src/hooks/useBgmController.ts:218-225 | only the element the ref holds changes, and it becomes paused at position 0 |
| Bgm.HedgehogTracks | src/hooks/useBgmController.ts:153-166 | the event element (the held one or a new one) loops at volume 0, is paused and rewound only when forced and otherwise keeps its state and position; the ambient element is only paused, keeping its position and volume; no other element changes |
| Bgm.VisualizerSource | src/hooks/useBgmController.ts:48-53 | the event element when it is held and playing, otherwise the ambient element |
| Bgm.HedgehogVisualActive | src/hooks/useBgmController.ts:47 | the event visuals show all New Year's Day, and otherwise exactly while the event track is active |
| Bgm.IceStartedEffect | src/hooks/useBgmController.ts:95-112 | starting the ambient track rewinds the previous one, appends a fresh looping element at volume 0, asks it to play and changes nothing else |
| Bgm.HedgehogStartedEffect | src/hooks/useBgmController.ts:145-207 | a start that is not ignored cancels the stop timer, pauses the ambient track, prepares and plays the event element, and fires a burst exactly when the confetti guard lets it |
| Bgm.ConfettiOncePerCycle | src/hooks/useBgmController.ts:196-207 | without force a raised confetti guard lets no burst and no timer through |
| Bgm.ForcedConfettiRestartsCycle | src/hooks/useBgmController.ts:196-207 | a forced start cancels the previous timers and begins a cycle with one burst and one pending timer |
| Bgm.DisableResetsEverything | src/hooks/useBgmController.ts:212-233 | turning music off clears both refs and all four guards, pauses and rewinds both elements, and cancels the stop and confetti timers; running fades and plays are not cancelled |
| Bgm.EventFadedOutEffect | src/hooks/useBgmController.ts:177-186 | the end of the stop-timer fade-out pauses the event element, lowers both event guards, and starts the ambient track again exactly when asked to |
| Bgm.NewYearsDayRerunForcesRestart | src/hooks/useBgmController.ts:236-245 | on New Year's Day a re-run with the year just rolled rewinds the event element and fires a burst |
| Bgm.BgmController.constructor | src/hooks/useBgmController.ts:35-45 | the hook mounts with music off, no elements, cleared refs and no pending work |
| Bgm.BgmController.Render | src/hooks/useBgmController.ts:48-53 | the visualiser source is recomputed only when `hedgehogActive` changed |
| Bgm.BgmController.FadeAudio | src/hooks/useBgmController.ts:62-84 | a duration of at most 0 sets the clamped target at once and reports the completion due; otherwise a fade from the current volume to the clamped target is registered and nothing else changes |
| Bgm.BgmController.ClearConfettiTimers | src/hooks/useBgmController.ts:90-93 | every remembered confetti timer is cancelled and the list emptied |
| Bgm.BgmController.StartIce | src/hooks/useBgmController.ts:95-125 | nothing happens when the closure saw music off; otherwise the ambient track is restarted as `IceStartedEffect` describes |
| Bgm.BgmController.FireConfetti | src/hooks/useBgmController.ts:196-207 | the confetti guard: a burst and a timer for the second burst exactly when it fires, the cycle restarted when forced |
| Bgm.BgmController.StartHedgehog | src/hooks/useBgmController.ts:127-210 | ignored while the event track is started unless forced; otherwise as `HedgehogStartedEffect` describes |
| Bgm.BgmController.DisableBranch | src/hooks/useBgmController.ts:213-234 | the disabled branch resets as `DisableResetsEverything` describes and lowers `hedgehogActive` |
| Bgm.BgmController.RunCompletion | src/hooks/useBgmController.ts:177-186 | the completions of the two fade-outs: the ambient one pauses the current ambient element; the event one pauses its element, lowers the guards and resumes the ambient track if asked |
| Bgm.BgmController.Enable | src/hooks/useBgmController.ts:236-248 | turning music on starts the event track on New Year's Day, otherwise the ambient track unless already started |
| Bgm.BgmController.TurnOff | src/hooks/useBgmController.ts:213-234 | turning music off: the previous run's cleanup pauses the ambient element, then the disabled branch resets |
| Bgm.BgmController.Disable | src/hooks/useBgmController.ts:212-254 | turning music off resets everything and re-renders |
| Bgm.BgmController.EnableEffectRerun | src/hooks/useBgmController.ts:236-263 | a re-run while music is on pauses the ambient element and runs the enabled branch again; while off it resets again |
| Bgm.BgmController.TickTimeLeft | src/hooks/useBgmController.ts:265-285 | nothing outside the countdown or with music off; the ambient fade-out starts once, when 0 < time left <= 10 s; at zero the event track starts with the defaults |
| Bgm.BgmController.IcePlaying | src/hooks/useBgmController.ts:115-118 | a successful ambient play clears the error, fades in to 0.25 over 2 s and marks the ambient track started |
| Bgm.BgmController.IcePlayResult | src/hooks/useBgmController.ts:113-124 | success as `IcePlaying`; failure reports the error and turns music off, resetting as a disable does |
| Bgm.BgmController.HedgehogPlaying | src/hooks/useBgmController.ts:169-188 | a successful event play clears the error, raises `hedgehogActive`, fades in to 0.7 and arms the stop timer |
| Bgm.BgmController.HedgehogPlayResult | src/hooks/useBgmController.ts:167-194 | success as `HedgehogPlaying`; failure reports the error and lowers `hedgehogActive` and `hedgehogStartedRef` |
| Bgm.BgmController.StopTimerFired | src/hooks/useBgmController.ts:176-187 | the event element fades to 0 over the fade-out, or completes at once when that is at most 0 |
| Bgm.BgmController.FadeFrame | src/hooks/useBgmController.ts:72-79 | a frame sets the interpolated volume; the completion runs, and the fade ends, exactly when progress reaches 1 |
| Bgm.BgmController.ConfettiTimerFired | src/hooks/useBgmController.ts:204 | the second burst of the cycle fires and its timer is gone |
| Bgm.BgmController.Unmount | src/hooks/useBgmController.ts:250-300 | both elements are paused and the stop and confetti timers cancelled |
| App.ToneFor | src/App.tsx:61-68 | final tones are 880 Hz for 0.24 s, normal ones 560 Hz for 0.14 s, all peaking at gain 0.32 after 0.02 s |
| App.ToneEnvelopes | src/App.tsx:61-68 | every tone reaches its peak before it stops, its ramps stay positive, and the final tone is higher and longer |
| App.IntensityFor | src/App.tsx:91 | final exactly for three seconds or fewer |
| App.CueStep | src/App.tsx:77-94 | nothing while sound is off; at zero a double final beep unless it has sounded; in the final ten one beep exactly when the second differs from the last beeped one |
| App.CueStepIdempotent | src/App.tsx:77-94 | re-running the effect on the same sample sounds nothing |
| App.FinalBeepInLastThreeSeconds | src/App.tsx:88-93 | a final-ten beep is final exactly when at most 3000 ms are left |
| App.ZeroBeepsOnce | src/App.tsx:81-86 | however many samples at zero follow, the double final beep sounds once |
| App.OneBeepPerSecond | src/App.tsx:88-93 | samples within one second of the final ten sound at most one beep |
| App.ToneCues.constructor | src/App.tsx:19-23 | sound starts off with no second beeped |
| App.ToneCues.TriggerBeep | src/App.tsx:54-75 | a tone starts only while sound is on |
| App.ToneCues.CountdownCueEffect | src/App.tsx:77-94 | a run of the cue effect performs `CueStep` |
| App.ToneCues.RolloverCueEffect | src/App.tsx:96-100 | a double final beep exactly when sound is on and the year just rolled |
| App.ToneCues.ToggleSound | src/App.tsx:37-42 | sound flips; turning it off forgets the last beeped second and sounds nothing; turning it on runs both cue effects |
| App.DisplayProgress | src/App.tsx:137 | full when no time is left, otherwise the progress itself up to 0.999 and exactly 0.999 from there on |
| App.DisplayProgressOfSample | src/App.tsx:137 | on any sample the shown progress is within [0, 1] and full exactly when the target is reached |
| App.ClampOrigin | src/App.tsx:106-107 | the origin coordinate lies in [0.02, 0.98] and is left alone inside it |
| App.SpacedAccumulates | src/App.tsx:104-105 | accepted clicks i and j are at least (j - i) throttle intervals apart |
| App.ClickEffects.constructor | src/App.tsx:24 | no click accepted yet, the last one at time 0 |
| App.ClickEffects.Click | src/App.tsx:102-120 | a click fires exactly when 250 ms or more have passed since the last accepted one, then records its time and the clamped origin; accepted clicks stay spaced |

## Left out

- Audio output itself is not modelled. The model keeps only an element's paused and
  position-0 flags, its loop flag and its volume. `preload`, `load()` and the track
  files are not part of this model.
- A `play()` promise settles as the environment chooses (`IcePlayResult`,
  `HedgehogPlayResult`). How a browser orders a rejection against a later `pause()` is
  not modelled.
- Error messages are two tags (`IcePlayFailed`, `HedgehogPlayFailed`). `error` holds the
  last value passed to `onError`. `console` logging is not modelled.
- Timers and animation frames are events delivered in any order
  (`StopTimerFired`, `ConfettiTimerFired`, `FadeFrame`, `ClearTimerFires`). The stop
  timer keeps its delay as data, but the model does not constrain when any timer fires.
  The delays of the rollover timer (12 s) and of the second confetti burst (3 s) are
  therefore not carried at all.
- The one-second clock interval of `useCountdown` is a sequence of renders, each with a
  sample given as input.
- The Web Audio graph of `triggerBeep` is not modelled. This includes creating and
  resuming the `AudioContext`, the oscillator and gain nodes, and the exact ramp curve.
  A tone is its parameters and an entry in a log.
- `canvas-confetti` calls are counted (`bursts`) or logged (`origins`). Their particle
  options are not modelled.
- App.ClickEffects.Click takes the click position as ratios of the window's width and
  height. The division by `window.innerWidth` and `window.innerHeight` is not modelled,
  so neither is a zero-sized window.
- Floating-point rounding is not modelled: volumes, progress and ratios are `real`.
- Bgm.BgmController.FadeFrame takes the time since the fade started as a `nat`. A frame
  timestamp earlier than the `performance.now()` read at the start would give a negative
  progress, which the source clamps only from above; the volume setter would then throw
  for a fade starting at 0, and the fade would stop without its completion. The model
  assumes frames never arrive before the fade started.
- Calendar: years are unbounded integers. A JavaScript `Date` is invalid beyond
  8.64e15 ms from 1970 (about 275 000 years), and the model does not represent that.
- Calendar: the local time zone and daylight saving are not modelled. Calendar fields
  are inputs, and instants use a fixed zero offset.
- Time.FormatTwo: only integral values are modelled. `toString()` of a fractional or
  non-finite number is not, and from 10^21 on the source gives the exponent form, not
  the decimal string this contract states.
- Time.IntToString: the plain decimal form is modelled for every integer, but
  `toString()` switches to exponent form (`1e+21`) from 10^21 in magnitude on. That form
  depends on floating-point rounding and is not modelled.
- Time.FormatTwoRoundTrip: for the same reason the read-back holds of the source only
  below 10^21; the time left shown never comes near it.
- The JSX presentation components, `AudioVisualizer.tsx`, `PromptOverlay.tsx`, the
  percentage string built with `toFixed(1)` and the countdown blocks' labels are
  presentation and are not part of this model.
- Bgm.BgmController.StartHedgehog raises `hedgehogStartedRef` together with
  `hedgehogRef`, after the stop timer is cleared, instead of first. No step in between
  reads the flag, so nothing observable changes.
- Bgm.BgmController.Enable runs the enable effect only. Toggling also re-runs the
  final-ten effect, because `bgmEnabled` is among its dependencies, so enabling inside
  the last ten seconds starts the ambient fade-out in the same commit. In the model that
  takes a separate `TickTimeLeft` call.
- Countdown.RolloverDetector follows the intended step. The step as written is
  `Countdown.StepAsWritten`, with its lemmas (see Findings).

## Findings

| source | as written | input that shows it | evidently intended | confidence | as-written member | corrected member |
|---|---|---|---|---|---|---|
| src/hooks/useCountdown.ts:54-64 | the rollover effect depends on `targetDate`, an object that `useMemo` rebuilds from every new `now`; each one-second tick re-runs the effect, and its cleanup cancels the 12 s timer that should lower `yearJustRolled` | the target year goes from 2025 to 2026, one more tick follows in 2026, and the timer is due: `yearJustRolled` stays true for the rest of the year | `yearJustRolled` falls back to false 12 s after the roll | high; not executed | Countdown.AsWrittenNeverLowers, Countdown.RolloverCounterexample | Countdown.Step, Countdown.RolloverWindowCloses |
