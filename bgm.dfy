/**
  The background-music controller (src/hooks/useBgmController.ts).

  Two tracks: the ambient "Ice" track (`bgmRef`) and the event "Hedgehog" track
  (`hedgehogRef`). Every `HTMLAudioElement` the controller creates is an entry of
  `audios`, and a ref holds the index of the element it points to, so a callback that
  captured an element keeps acting on that element after the ref has moved on.

  The work the controller leaves with the browser is state too: running fades
  (`requestAnimationFrame` loops), unsettled `play()` promises, the armed stop timer and
  the armed confetti timers. Each is keyed by a handle and each is an event the
  environment may deliver later (`FadeFrame`, `IcePlayResult`, `HedgehogPlayResult`,
  `StopTimerFired`, `ConfettiTimerFired`). Confetti bursts are counted in `bursts`.
*/
module Bgm {
  import opened Wrappers
  import opened Time

  const HedgehogPlayDurationMs: int := 900_000
  const DefaultFadeInMs: int := 7_000
  const DefaultFadeOutMs: int := 10_000
  const NewYearsDayFadeInMs: int := 5_000
  const IceVolume: real := 0.25
  const IceFadeInMs: int := 2_000
  const HedgehogVolume: real := 0.7
  const FinalTenSeconds: int := 10

  // ---------------------------------------------------------------------------
  // fadeAudio, one frame at a time.
  // ---------------------------------------------------------------------------

  /** `Math.max(0, Math.min(1, v))`. */
  function ClampUnit(v: real): (r: real)
    ensures 0.0 <= r <= 1.0
    ensures 0.0 <= v <= 1.0 ==> r == v
    ensures v < 0.0 ==> r == 0.0
    ensures v > 1.0 ==> r == 1.0
  {
    if v > 1.0 then 1.0 else if v < 0.0 then 0.0 else v
  }

  /** `Math.min(1, (nowTime - startTime) / durationMs)` for a frame `elapsedMs` after the start. */
  function FadeProgress(elapsedMs: nat, durationMs: int): (p: real)
    requires durationMs > 0
    ensures 0.0 <= p <= 1.0
    ensures p == 1.0 <==> elapsedMs >= durationMs
    ensures elapsedMs < durationMs ==> p * durationMs as real == elapsedMs as real
  {
    var e, d := elapsedMs as real, durationMs as real;
    var ratio := e / d;
    assert ratio * d == e;
    assert ratio < 1.0 ==> e < d by {
      if ratio < 1.0 {
        assert (1.0 - ratio) * d > 0.0;
      }
    }
    assert ratio >= 1.0 ==> e >= d by {
      if ratio >= 1.0 {
        assert (ratio - 1.0) * d >= 0.0;
      }
    }
    if ratio < 1.0 then ratio else 1.0
  }

  /** Progress grows with the time elapsed since the fade started. */
  lemma FadeProgressMonotone(e1: nat, e2: nat, durationMs: int)
    requires durationMs > 0 && e1 <= e2
    ensures FadeProgress(e1, durationMs) <= FadeProgress(e2, durationMs)
  {
    if e2 < durationMs {
      var r1, r2, d := e1 as real, e2 as real, durationMs as real;
      assert FadeProgress(e1, durationMs) == r1 / d && FadeProgress(e2, durationMs) == r2 / d;
      assert r1 / d <= r2 / d by {
        assert r2 / d - r1 / d == (r2 - r1) / d;
      }
    }
  }

  lemma MulNonNegative(x: real, y: real)
    requires 0.0 <= x && 0.0 <= y
    ensures 0.0 <= x * y
  {
  }

  /** Scaling an amount by a progress in [0, 1] lands between 0 and the amount. */
  lemma ScaleWithin(d: real, progress: real)
    requires 0.0 <= progress <= 1.0
    ensures 0.0 <= d ==> 0.0 <= d * progress <= d
    ensures d <= 0.0 ==> d <= d * progress <= 0.0
    ensures progress == 0.0 ==> d * progress == 0.0
    ensures progress == 1.0 ==> d * progress == d
  {
    if 0.0 <= d {
      MulNonNegative(d, progress);
      MulNonNegative(d, 1.0 - progress);
    } else {
      MulNonNegative(-d, progress);
      MulNonNegative(-d, 1.0 - progress);
    }
  }

  /** The volume a frame sets: `start + (target - start) * progress`. */
  function FadeVolume(start: real, target: real, progress: real): (v: real)
    requires 0.0 <= progress <= 1.0
    ensures start <= target ==> start <= v <= target
    ensures target <= start ==> target <= v <= start
    ensures progress == 0.0 ==> v == start
    ensures progress == 1.0 ==> v == target
    ensures v == (1.0 - progress) * start + progress * target
  {
    ScaleWithin(target - start, progress);
    start + (target - start) * progress
  }

  /** Later frames are never further from the target than earlier ones. */
  lemma FadeVolumeApproachesTarget(start: real, target: real, p1: real, p2: real)
    requires 0.0 <= p1 <= p2 <= 1.0
    ensures start <= target ==> FadeVolume(start, target, p1) <= FadeVolume(start, target, p2)
    ensures target <= start ==> FadeVolume(start, target, p2) <= FadeVolume(start, target, p1)
  {
    var d, e := target - start, p2 - p1;
    assert FadeVolume(start, target, p2) - FadeVolume(start, target, p1) == d * e;
    if 0.0 <= d {
      MulNonNegative(d, e);
    } else {
      MulNonNegative(-d, e);
      assert (-d) * e == -(d * e);
    }
  }

  // ---------------------------------------------------------------------------
  // Elements, options and pending browser work.
  // ---------------------------------------------------------------------------

  datatype Source = Ice | Hedgehog

  /** An audio element: `paused`, `currentTime == 0` (`atStart`), `loop` and `volume`. */
  datatype Audio = Audio(src: Source, loop: bool, paused: bool, atStart: bool, volume: real)

  /** `new Audio(src)` followed by `loop = true` and `volume = 0`. */
  function NewAudio(src: Source): Audio {
    Audio(src, true, true, true, 0.0)
  }

  datatype BgmError = IcePlayFailed | HedgehogPlayFailed

  /** The `onComplete` callbacks the controller passes to `fadeAudio`. */
  datatype Completion =
    | NoCompletion
    | AmbientFadedOut                            // the final-ten fade of the ambient track
    | EventFadedOut(audio: nat, resumeIce: bool) // the stop-timer fade of the event track

  datatype Fade = Fade(audio: nat, start: real, target: real, durationMs: int, onComplete: Completion)

  /** The options of `startHedgehog`, defaults filled in. */
  datatype HedgehogOptions = HedgehogOptions(
    durationMs: int, withConfetti: bool, forceConfetti: bool,
    fadeInMs: int, fadeOutMs: int, resumeIce: bool)

  const DefaultHedgehogOptions: HedgehogOptions :=
    HedgehogOptions(HedgehogPlayDurationMs, true, false, DefaultFadeInMs, DefaultFadeOutMs, true)

  /** The options the enable effect passes on New Year's Day. */
  function NewYearsDayOptions(newYearsDayLeftMs: Option<int>, yearJustRolled: bool): (o: HedgehogOptions)
    ensures o.durationMs == (if newYearsDayLeftMs.Some? then newYearsDayLeftMs.value else HedgehogPlayDurationMs)
    ensures o.withConfetti == yearJustRolled && o.forceConfetti == yearJustRolled
    ensures o.fadeInMs == NewYearsDayFadeInMs && o.fadeOutMs == DefaultFadeOutMs && o.resumeIce
  {
    var d := if newYearsDayLeftMs.Some? then newYearsDayLeftMs.value else HedgehogPlayDurationMs;
    HedgehogOptions(d, yearJustRolled, yearJustRolled, NewYearsDayFadeInMs, DefaultFadeOutMs, true)
  }

  /** Whether `startHedgehog` with options `o` fires confetti, given the guard. */
  predicate FiresConfetti(o: HedgehogOptions, triggered: bool) {
    o.withConfetti && (o.forceConfetti || !triggered)
  }

  /** An unsettled `audio.play()` and the handlers attached to it. */
  datatype PlayRequest = IcePlay(audio: nat) | HedgehogPlay(audio: nat, options: HedgehogOptions)

  /** The armed stop timer: after `delayMs`, fade `audio` out over `fadeOutMs`. */
  datatype StopTask = StopTask(audio: nat, delayMs: int, fadeOutMs: int, resumeIce: bool)

  predicate RefOk(r: Option<nat>, n: nat) {
    r.Some? ==> r.value < n
  }

  predicate CompletionOk(c: Completion, n: nat) {
    c.EventFadedOut? ==> c.audio < n
  }

  predicate FadeOk(f: Fade, n: nat) {
    && f.audio < n && 0.0 <= f.start <= 1.0 && 0.0 <= f.target <= 1.0 && f.durationMs > 0
    && CompletionOk(f.onComplete, n)
  }

  predicate VolumesOk(audios: seq<Audio>) {
    forall i :: 0 <= i < |audios| ==> 0.0 <= audios[i].volume <= 1.0
  }

  /** `ref.current?.pause()`: only the element the ref holds changes. */
  function Pause(audios: seq<Audio>, r: Option<nat>): (res: seq<Audio>)
    ensures |res| == |audios|
    ensures forall i :: 0 <= i < |audios| && r != Some(i) ==> res[i] == audios[i]
    ensures r.Some? && r.value < |audios| ==> res[r.value] == audios[r.value].(paused := true)
    ensures VolumesOk(audios) ==> VolumesOk(res)
  {
    if r.Some? && r.value < |audios| then audios[r.value := audios[r.value].(paused := true)] else audios
  }

  /** `pause()` then `currentTime = 0` on the element the ref holds, if any. */
  function PauseRewind(audios: seq<Audio>, r: Option<nat>): (res: seq<Audio>)
    ensures |res| == |audios|
    ensures forall i :: 0 <= i < |audios| && r != Some(i) ==> res[i] == audios[i]
    ensures r.Some? && r.value < |audios| ==> res[r.value] == audios[r.value].(paused := true, atStart := true)
    ensures VolumesOk(audios) ==> VolumesOk(res)
  {
    if r.Some? && r.value < |audios|
    then audios[r.value := audios[r.value].(paused := true, atStart := true)]
    else audios
  }

  /** A cleanup's pause just before a reset's pause-and-rewind of the same element is absorbed. */
  lemma PauseRewindAbsorbsPause(audios: seq<Audio>, r: Option<nat>)
    ensures PauseRewind(Pause(audios, r), r) == PauseRewind(audios, r)
  {
  }

  /** A successful `play()`: the element is no longer paused and has left position 0. */
  function Playing(a: Audio): Audio {
    a.(paused := false, atStart := false)
  }

  /** The element `startHedgehog` plays: the one the ref holds, or a new one appended. */
  function HedgehogIndex(audios: seq<Audio>, hedgehogRef: Option<nat>): nat {
    if hedgehogRef.Some? then hedgehogRef.value else |audios|
  }

  /**
    The elements after `startHedgehog` has prepared the event track: rewound when forced,
    the ambient track paused, the event element looping at volume 0.
  */
  function HedgehogTracks(audios: seq<Audio>, hedgehogRef: Option<nat>, bgmRef: Option<nat>, force: bool): (res: seq<Audio>)
    requires RefOk(hedgehogRef, |audios|)
    ensures |res| == |audios| + (if hedgehogRef.Some? then 0 else 1)
    ensures var a := HedgehogIndex(audios, hedgehogRef);
            && a < |res| && res[a].loop && res[a].volume == 0.0
            && (hedgehogRef.None? ==> res[a] == NewAudio(Hedgehog))
            && (hedgehogRef.Some? && force ==> res[a].paused && res[a].atStart)
    ensures hedgehogRef.Some? && bgmRef != hedgehogRef ==>
              var a := hedgehogRef.value;
              res[a] == (if force then audios[a].(paused := true, atStart := true) else audios[a]).(loop := true, volume := 0.0)
    ensures bgmRef.Some? && bgmRef.value < |audios| && bgmRef != hedgehogRef ==>
              res[bgmRef.value] == audios[bgmRef.value].(paused := true)
    ensures forall i :: 0 <= i < |audios| && Some(i) != bgmRef && Some(i) != hedgehogRef ==> res[i] == audios[i]
    ensures VolumesOk(audios) ==> VolumesOk(res)
  {
    var rewound := if force then PauseRewind(audios, hedgehogRef) else audios;
    var paused := Pause(rewound, bgmRef);
    if hedgehogRef.Some?
    then paused[hedgehogRef.value := paused[hedgehogRef.value].(loop := true, volume := 0.0)]
    else paused + [NewAudio(Hedgehog)]
  }

  /**
    `visualizerSource`: the event element when it is set and playing, otherwise the
    ambient element (or nothing).
  */
  function VisualizerSource(audios: seq<Audio>, hedgehogRef: Option<nat>, bgmRef: Option<nat>): (r: Option<nat>)
    ensures hedgehogRef.Some? && hedgehogRef.value < |audios| && !audios[hedgehogRef.value].paused ==> r == hedgehogRef
    ensures (hedgehogRef.None? || (hedgehogRef.value < |audios| && audios[hedgehogRef.value].paused)) ==> r == bgmRef
    ensures r.Some? ==> r == hedgehogRef || r == bgmRef
  {
    if hedgehogRef.Some? && hedgehogRef.value < |audios| && !audios[hedgehogRef.value].paused
    then hedgehogRef else bgmRef
  }

  /** `hedgehogVisualActive`: the event visuals show while the event track is active, and all New Year's Day. */
  function HedgehogVisualActive(hedgehogActive: bool, isNewYearsDay: bool): (r: bool)
    ensures isNewYearsDay ==> r
    ensures !isNewYearsDay ==> r == hedgehogActive
  {
    hedgehogActive || isNewYearsDay
  }

  // ---------------------------------------------------------------------------
  // The hook's refs and the work it leaves with the browser.
  // ---------------------------------------------------------------------------

  /**
    The hook's refs: `bgmRef` and `hedgehogRef` (as element indices), the four guard
    flags, and `confettiTimersRef`.
  */
  datatype Refs = Refs(
    bgm: Option<nat>, hedgehog: Option<nat>,
    fadeOutStarted: bool, hedgehogStarted: bool, confettiTriggered: bool, iceStarted: bool,
    confettiTimers: seq<nat>)

  /** The refs at mount, and after the disabled branch has reset them. */
  const ClearedRefs: Refs := Refs(None, None, false, false, false, false, [])

  /**
    Work left with the browser, each piece under the handle it was given: running fades
    (`requestAnimationFrame` loops), unsettled `play()` promises, the stop timer that
    `hedgehogStopTimerRef` holds while it is armed, and the armed confetti timers; and
    the number of confetti bursts fired so far.
  */
  datatype Browser = Browser(
    fades: map<nat, Fade>, plays: map<nat, PlayRequest>, stopTimer: Option<StopTask>,
    confettiPending: set<nat>, nextHandle: nat, bursts: nat)

  /** A new fade loop, under the next handle. */
  function AddFade(b: Browser, f: Fade): Browser {
    b.(fades := b.fades[b.nextHandle := f], nextHandle := b.nextHandle + 1)
  }

  /** A new `play()` promise, under the next handle. */
  function AddPlay(b: Browser, p: PlayRequest): Browser {
    b.(plays := b.plays[b.nextHandle := p], nextHandle := b.nextHandle + 1)
  }

  // ---------------------------------------------------------------------------
  // The controller's invariant, in parts.
  // ---------------------------------------------------------------------------

  /** Both refs point at elements, and a started event track has its element. */
  predicate RefsOk(r: Refs, n: nat) {
    RefOk(r.bgm, n) && RefOk(r.hedgehog, n) && (r.hedgehogStarted ==> r.hedgehog.Some?)
  }

  /** Pending work refers to existing elements. */
  predicate BrowserOk(b: Browser, n: nat) {
    && (forall h :: h in b.fades ==> FadeOk(b.fades[h], n))
    && (forall h :: h in b.plays ==> b.plays[h].audio < n)
    && (b.stopTimer.Some? ==> b.stopTimer.value.audio < n)
  }

  lemma BrowserOkGrows(b: Browser, n: nat, n': nat)
    requires BrowserOk(b, n) && n <= n'
    ensures BrowserOk(b, n')
  {
  }

  /**
    Armed confetti timers are remembered in `confettiTimersRef`; a cycle (the bursts
    since the guard was last raised) has at most two bursts, fired or pending.
  */
  predicate ConfettiOk(r: Refs, b: Browser, cycleBursts: nat) {
    && (forall h :: h in b.confettiPending ==> h in r.confettiTimers)
    && (!r.confettiTriggered ==> b.confettiPending == {} && cycleBursts == 0)
    && cycleBursts + |b.confettiPending| <= 2
  }

  // ---------------------------------------------------------------------------
  // What the shared steps do, from elements, refs and browser work `a0`, `r0`, `b0`
  // to `a`, `r`, `b`.
  // ---------------------------------------------------------------------------

  /** `startIce` ran: the old ambient element is stopped and rewound, and a new one asked to play. */
  predicate IceStarted(enabledSeen: bool, a0: seq<Audio>, r0: Refs, b0: Browser, a: seq<Audio>, r: Refs, b: Browser) {
    if !enabledSeen then a == a0 && r == r0 && b == b0
    else
      && a == PauseRewind(a0, r0.bgm) + [NewAudio(Ice)]
      && r == r0.(bgm := Some(|a0|), iceStarted := false)
      && b == AddPlay(b0, IcePlay(|a0|))
  }

  /**
    The confetti guard of `startHedgehog`: when it fires, one burst now and one
    timer, the timers of an earlier cycle cancelled first when forced.
  */
  predicate ConfettiStep(o: HedgehogOptions, r0: Refs, b0: Browser, r: Refs, b: Browser) {
    if FiresConfetti(o, r0.confettiTriggered) then
      var h := b0.nextHandle;
      && r == r0.(confettiTriggered := true,
                  confettiTimers := (if o.forceConfetti then [] else r0.confettiTimers) + [h])
      && b == b0.(confettiPending := {h}, nextHandle := h + 1, bursts := b0.bursts + 1)
    else r == r0 && b == b0
  }

  /**
    `startHedgehog(o)` ran: ignored while the event track is started unless forced;
    otherwise the stop timer is cancelled, the ambient track paused, the event element
    prepared and asked to play, and the confetti guard consulted.
  */
  predicate HedgehogStarted(o: HedgehogOptions, a0: seq<Audio>, r0: Refs, b0: Browser, a: seq<Audio>, r: Refs, b: Browser)
    requires RefOk(r0.hedgehog, |a0|)
  {
    if r0.hedgehogStarted && !o.forceConfetti then a == a0 && r == r0 && b == b0
    else
      var i := HedgehogIndex(a0, r0.hedgehog);
      && a == HedgehogTracks(a0, r0.hedgehog, r0.bgm, o.forceConfetti)
      && ConfettiStep(o,
           r0.(hedgehog := Some(i), hedgehogStarted := true, iceStarted := r0.iceStarted && r0.bgm.None?),
           AddPlay(b0.(stopTimer := None), HedgehogPlay(i, o)),
           r, b)
  }

  /** The enabled branch of the enable effect ran. */
  predicate EnabledBranchRan(isNewYearsDay: bool, newYearsDayLeftMs: Option<int>, yearJustRolled: bool,
                             a0: seq<Audio>, r0: Refs, b0: Browser, a: seq<Audio>, r: Refs, b: Browser)
    requires RefOk(r0.hedgehog, |a0|)
  {
    if isNewYearsDay then HedgehogStarted(NewYearsDayOptions(newYearsDayLeftMs, yearJustRolled), a0, r0, b0, a, r, b)
    else if !r0.iceStarted then IceStarted(true, a0, r0, b0, a, r, b)
    else a == a0 && r == r0 && b == b0
  }

  /**
    The disabled branch of the enable effect ran: both elements paused and rewound,
    refs and guards cleared, the stop and confetti timers cancelled. Running fades and
    unsettled plays are left alone.
  */
  predicate DisableReset(a0: seq<Audio>, r0: Refs, b0: Browser, a: seq<Audio>, r: Refs, b: Browser) {
    && a == PauseRewind(PauseRewind(a0, r0.bgm), r0.hedgehog)
    && r == ClearedRefs
    && b == b0.(stopTimer := None, confettiPending := {})
  }

  /** The completion of a fade ran. */
  predicate CompletionRan(c: Completion, a0: seq<Audio>, r0: Refs, b0: Browser, a: seq<Audio>, r: Refs, b: Browser) {
    match c
    case NoCompletion => a == a0 && r == r0 && b == b0
    case AmbientFadedOut => a == Pause(a0, r0.bgm) && r == r0.(iceStarted := false) && b == b0
    case EventFadedOut(x, resumeIce) =>
      var a1 := Pause(a0, Some(x));
      var r1 := r0.(hedgehogStarted := false, fadeOutStarted := false);
      if resumeIce then IceStarted(true, a1, r1.(iceStarted := false), b0, a, r, b)
      else a == a1 && r == r1 && b == b0
  }

  // ---------------------------------------------------------------------------
  // What the steps promise.
  // ---------------------------------------------------------------------------

  /**
    `startIce` while enabled: the previous ambient element is stopped and rewound, a new
    looping ambient element at volume 0 is appended and asked to play, and every other
    element, ref and piece of pending work is as it was.
  */
  lemma IceStartedEffect(a0: seq<Audio>, r0: Refs, b0: Browser, a: seq<Audio>, r: Refs, b: Browser)
    requires RefsOk(r0, |a0|) && IceStarted(true, a0, r0, b0, a, r, b)
    ensures |a| == |a0| + 1 && a[|a0|] == NewAudio(Ice) && r.bgm == Some(|a0|)
    ensures r0.bgm.Some? ==> a[r0.bgm.value].paused && a[r0.bgm.value].atStart
    ensures forall i :: 0 <= i < |a0| && Some(i) != r0.bgm ==> a[i] == a0[i]
    ensures !r.iceStarted && r.hedgehog == r0.hedgehog && r.hedgehogStarted == r0.hedgehogStarted
    ensures r.confettiTriggered == r0.confettiTriggered && r.fadeOutStarted == r0.fadeOutStarted
    ensures b.plays == b0.plays[b0.nextHandle := IcePlay(|a0|)]
    ensures b.fades == b0.fades && b.stopTimer == b0.stopTimer && b.bursts == b0.bursts
  {
  }

  /**
    `startHedgehog` when it is not ignored: the stop timer is cancelled, the ambient
    track paused (and no longer counted as started), the event element looping at
    volume 0 and asked to play, and at most one confetti burst fired, exactly when the
    guard lets it.
  */
  lemma HedgehogStartedEffect(o: HedgehogOptions, a0: seq<Audio>, r0: Refs, b0: Browser, a: seq<Audio>, r: Refs, b: Browser)
    requires RefsOk(r0, |a0|) && !(r0.hedgehogStarted && !o.forceConfetti)
    requires HedgehogStarted(o, a0, r0, b0, a, r, b)
    ensures r.hedgehog.Some? && r.hedgehog.value < |a| && r.hedgehogStarted
    ensures a[r.hedgehog.value].loop && a[r.hedgehog.value].volume == 0.0
    ensures r0.bgm.Some? && r0.bgm != r0.hedgehog ==> a[r0.bgm.value].paused && !r.iceStarted
    ensures b.plays == b0.plays[b0.nextHandle := HedgehogPlay(r.hedgehog.value, o)]
    ensures b.stopTimer == None && b.fades == b0.fades
    ensures b.bursts == b0.bursts + (if FiresConfetti(o, r0.confettiTriggered) then 1 else 0)
    ensures FiresConfetti(o, r0.confettiTriggered) ==> r.confettiTriggered && b.confettiPending == {b0.nextHandle + 1}
    ensures !FiresConfetti(o, r0.confettiTriggered) ==>
              r.confettiTriggered == r0.confettiTriggered && b.confettiPending == b0.confettiPending
  {
  }

  /**
    Without force, a raised confetti guard lets nothing through: no burst and no timer
    until the guard is lowered by a forced start or a disable.
  */
  lemma ConfettiOncePerCycle(o: HedgehogOptions, r0: Refs, b0: Browser, r: Refs, b: Browser)
    requires r0.confettiTriggered && !o.forceConfetti
    requires ConfettiStep(o, r0, b0, r, b)
    ensures r == r0 && b.bursts == b0.bursts && b.confettiPending == b0.confettiPending
  {
  }

  /**
    A forced start cancels the timers of the previous cycle and starts a new one with a
    single pending timer.
  */
  lemma ForcedConfettiRestartsCycle(o: HedgehogOptions, r0: Refs, b0: Browser, r: Refs, b: Browser)
    requires o.withConfetti && o.forceConfetti
    requires ConfettiStep(o, r0, b0, r, b)
    ensures r.confettiTriggered && r.confettiTimers == [b0.nextHandle]
    ensures b.confettiPending == {b0.nextHandle} && b.bursts == b0.bursts + 1
  {
  }

  /**
    The disabled branch resets everything it owns: both refs cleared, every guard
    lowered, both formerly referenced elements paused at position 0, the stop timer and
    the confetti timers cancelled. Running fades and unsettled plays are not cancelled.
  */
  lemma DisableResetsEverything(a0: seq<Audio>, r0: Refs, b0: Browser, a: seq<Audio>, r: Refs, b: Browser)
    requires RefsOk(r0, |a0|) && DisableReset(a0, r0, b0, a, r, b)
    ensures r.bgm == None && r.hedgehog == None && r.confettiTimers == []
    ensures !r.fadeOutStarted && !r.hedgehogStarted && !r.confettiTriggered && !r.iceStarted
    ensures r0.bgm.Some? ==> a[r0.bgm.value].paused && a[r0.bgm.value].atStart
    ensures r0.hedgehog.Some? ==> a[r0.hedgehog.value].paused && a[r0.hedgehog.value].atStart
    ensures |a| == |a0| && forall i :: 0 <= i < |a0| && Some(i) != r0.bgm && Some(i) != r0.hedgehog ==> a[i] == a0[i]
    ensures b.stopTimer == None && b.confettiPending == {}
    ensures b.fades == b0.fades && b.plays == b0.plays && b.bursts == b0.bursts
  {
  }

  /**
    The end of the stop-timer fade-out: the event element is paused, both event guards
    lowered, and the ambient track started again exactly when `resumeIce` is set.
  */
  lemma EventFadedOutEffect(x: nat, resumeIce: bool, a0: seq<Audio>, r0: Refs, b0: Browser, a: seq<Audio>, r: Refs, b: Browser)
    requires x < |a0| && RefsOk(r0, |a0|)
    requires CompletionRan(EventFadedOut(x, resumeIce), a0, r0, b0, a, r, b)
    ensures a[x].paused && !r.hedgehogStarted && !r.fadeOutStarted
    ensures resumeIce ==> |a| == |a0| + 1 && r.bgm == Some(|a0|) && b.plays == b0.plays[b0.nextHandle := IcePlay(|a0|)]
    ensures !resumeIce ==> |a| == |a0| && r.bgm == r0.bgm && b == b0
    ensures b.bursts == b0.bursts && b.stopTimer == b0.stopTimer
  {
  }

  /**
    On New Year's Day a re-run of the enable effect while `yearJustRolled` is set is a
    forced start: it is never ignored, rewinds the event element and fires a burst.
  */
  lemma NewYearsDayRerunForcesRestart(newYearsDayLeftMs: Option<int>,
                                      a0: seq<Audio>, r0: Refs, b0: Browser, a: seq<Audio>, r: Refs, b: Browser)
    requires RefsOk(r0, |a0|)
    requires EnabledBranchRan(true, newYearsDayLeftMs, true, a0, r0, b0, a, r, b)
    ensures r0.hedgehog.Some? ==> a[r0.hedgehog.value].paused && a[r0.hedgehog.value].atStart
    ensures b.bursts == b0.bursts + 1 && r.hedgehogStarted
  {
  }

  // ---------------------------------------------------------------------------
  // The controller.
  // ---------------------------------------------------------------------------

  class BgmController {
    // React state
    var bgmEnabled: bool
    var hedgehogActive: bool
    var error: Option<BgmError>        // the last value passed to onError
    var visualizerSource: Option<nat>  // the memoised visualizerSource

    var audios: seq<Audio>             // every element the hook created
    var refs: Refs
    var browser: Browser
    ghost var cycleBursts: nat         // bursts since confettiTriggeredRef was last raised
    ghost var cycleStart: nat          // the burst count when the current cycle began

    ghost predicate Valid()
      reads this
    {
      && VolumesOk(audios)
      && RefsOk(refs, |audios|)
      && BrowserOk(browser, |audios|)
      && ConfettiOk(refs, browser, cycleBursts)
      && browser.bursts == cycleStart + cycleBursts
    }

    /** The render after an event: `visualizerSource` is recomputed only when `hedgehogActive` changed. */
    twostate predicate Rendered()
      reads this
    {
      if hedgehogActive != old(hedgehogActive)
      then visualizerSource == VisualizerSource(audios, refs.hedgehog, refs.bgm)
      else visualizerSource == old(visualizerSource)
    }

    /** The mount: disabled, and the first run of the enable effect finds nothing to reset. */
    constructor ()
      ensures Valid()
      ensures !bgmEnabled && !hedgehogActive && error == None && visualizerSource == None
      ensures audios == [] && refs == ClearedRefs
      ensures browser == Browser(map[], map[], None, {}, 1, 0)
    {
      bgmEnabled, hedgehogActive, error, visualizerSource := false, false, None, None;
      audios, refs := [], ClearedRefs;
      browser := Browser(map[], map[], None, {}, 1, 0);
      cycleBursts, cycleStart := 0, 0;
    }

    method Render(wasActive: bool)
      modifies this`visualizerSource
      ensures hedgehogActive != wasActive ==> visualizerSource == VisualizerSource(audios, refs.hedgehog, refs.bgm)
      ensures hedgehogActive == wasActive ==> visualizerSource == old(visualizerSource)
    {
      if hedgehogActive != wasActive {
        visualizerSource := VisualizerSource(audios, refs.hedgehog, refs.bgm);
      }
    }

    // -------------------------------------------------------------------------
    // Helpers of the hook.
    // -------------------------------------------------------------------------

    /**
      `fadeAudio(audio, targetVolume, durationMs, onComplete)`. With a duration of at
      most zero the volume is set at once and `done` tells the caller to run
      `onComplete` (the last thing `fadeAudio` does); otherwise a frame loop starts from
      the element's current volume.
    */
    method FadeAudio(i: nat, targetVolume: real, durationMs: int, onComplete: Completion) returns (done: bool)
      requires Valid() && i < |audios| && CompletionOk(onComplete, |audios|)
      modifies this`audios, this`browser
      ensures Valid()
      ensures done == (durationMs <= 0)
      ensures done ==> audios == old(audios)[i := old(audios)[i].(volume := ClampUnit(targetVolume))]
                       && browser == old(browser)
      ensures !done ==> audios == old(audios)
                        && browser == AddFade(old(browser), Fade(i, old(audios)[i].volume, ClampUnit(targetVolume), durationMs, onComplete))
    {
      var target := ClampUnit(targetVolume);
      if durationMs <= 0 {
        audios := audios[i := audios[i].(volume := target)];
        done := true;
      } else {
        browser := AddFade(browser, Fade(i, audios[i].volume, target, durationMs, onComplete));
        done := false;
      }
    }

    /** `clearConfettiTimers`: cancel every remembered confetti timer and forget them. */
    method ClearConfettiTimers()
      requires Valid()
      modifies this`refs, this`browser
      ensures Valid()
      ensures refs == old(refs).(confettiTimers := [])
      ensures browser == old(browser).(confettiPending := {})
    {
      browser := browser.(confettiPending := browser.confettiPending - (set h | h in refs.confettiTimers));
      assert browser.confettiPending == {};
      refs := refs.(confettiTimers := []);
    }

    /**
      `startIce`. `enabledSeen` is the `bgmEnabled` the calling closure saw: the effects
      pass the current value; the completion of the stop-timer fade-out passes the value
      captured when its `startHedgehog` was created, which is always true.
    */
    method StartIce(enabledSeen: bool)
      requires Valid()
      modifies this`audios, this`refs, this`browser
      ensures Valid()
      ensures IceStarted(enabledSeen, old(audios), old(refs), old(browser), audios, refs, browser)
    {
      if !enabledSeen {
        return;
      }
      BrowserOkGrows(browser, |audios|, |audios| + 1);
      var n := |audios|;
      audios := PauseRewind(audios, refs.bgm) + [NewAudio(Ice)];
      refs := refs.(bgm := Some(n), iceStarted := false);
      browser := AddPlay(browser, IcePlay(n));
    }

    /** The confetti guard of `startHedgehog`. */
    method FireConfetti(o: HedgehogOptions)
      requires Valid()
      modifies this`refs, this`browser, this`cycleBursts, this`cycleStart
      ensures Valid()
      ensures ConfettiStep(o, old(refs), old(browser), refs, browser)
      ensures FiresConfetti(o, old(refs).confettiTriggered) ==> cycleBursts == 1
      ensures !FiresConfetti(o, old(refs).confettiTriggered) ==> cycleBursts == old(cycleBursts)
    {
      if o.withConfetti {
        if o.forceConfetti {
          ClearConfettiTimers();
          refs := refs.(confettiTriggered := false);
          cycleBursts, cycleStart := 0, browser.bursts;
        }
        if !refs.confettiTriggered {
          var h := browser.nextHandle;
          refs := refs.(confettiTriggered := true, confettiTimers := refs.confettiTimers + [h]);
          browser := browser.(confettiPending := browser.confettiPending + {h}, nextHandle := h + 1,
                              bursts := browser.bursts + 1);
          cycleBursts := cycleBursts + 1;
        }
      }
    }

    /**
      `startHedgehog(o)`. (`hedgehogStartedRef` is raised together with `hedgehogRef`
      here instead of first; none of the steps in between reads it.)
    */
    method StartHedgehog(o: HedgehogOptions)
      requires Valid()
      modifies this`audios, this`refs, this`browser, this`cycleBursts, this`cycleStart
      ensures Valid()
      ensures HedgehogStarted(o, old(audios), old(refs), old(browser), audios, refs, browser)
    {
      if refs.hedgehogStarted && !o.forceConfetti {
        return;
      }
      var i, n := HedgehogIndex(audios, refs.hedgehog), |audios|;
      audios := HedgehogTracks(audios, refs.hedgehog, refs.bgm, o.forceConfetti);
      BrowserOkGrows(browser, n, |audios|);
      refs := refs.(hedgehog := Some(i), hedgehogStarted := true, iceStarted := refs.iceStarted && refs.bgm.None?);
      browser := AddPlay(browser.(stopTimer := None), HedgehogPlay(i, o));
      FireConfetti(o);
    }

    /** The disabled branch of the enable effect. */
    method DisableBranch()
      requires Valid()
      modifies this`audios, this`refs, this`browser, this`hedgehogActive, this`cycleBursts, this`cycleStart
      ensures Valid()
      ensures DisableReset(old(audios), old(refs), old(browser), audios, refs, browser)
      ensures !hedgehogActive
    {
      audios := PauseRewind(PauseRewind(audios, refs.bgm), refs.hedgehog);
      browser := browser.(stopTimer := None);
      ClearConfettiTimers();
      hedgehogActive := false;
      refs := ClearedRefs;
      cycleBursts, cycleStart := 0, browser.bursts;
    }

    /** Runs the `onComplete` of a fade. */
    method RunCompletion(c: Completion)
      requires Valid() && CompletionOk(c, |audios|)
      modifies this`audios, this`refs, this`browser, this`hedgehogActive
      ensures Valid()
      ensures CompletionRan(c, old(audios), old(refs), old(browser), audios, refs, browser)
      ensures hedgehogActive == (old(hedgehogActive) && !c.EventFadedOut?)
    {
      match c
      case NoCompletion =>
      case AmbientFadedOut =>
        audios := Pause(audios, refs.bgm);
        refs := refs.(iceStarted := false);
      case EventFadedOut(i, resumeIce) =>
        audios := Pause(audios, Some(i));
        hedgehogActive := false;
        refs := refs.(hedgehogStarted := false, fadeOutStarted := false);
        if resumeIce {
          refs := refs.(iceStarted := false);
          StartIce(true);
        }
    }

    // -------------------------------------------------------------------------
    // Events.
    // -------------------------------------------------------------------------

    /**
      The toggle turns BGM on and the enable effect runs its enabled branch (the previous
      run took the disabled branch and left no cleanup).
    */
    method Enable(isNewYearsDay: bool, newYearsDayLeftMs: Option<int>, yearJustRolled: bool)
      requires Valid() && !bgmEnabled
      modifies this`bgmEnabled, this`audios, this`refs, this`browser, this`cycleBursts, this`cycleStart
      ensures Valid() && bgmEnabled
      ensures EnabledBranchRan(isNewYearsDay, newYearsDayLeftMs, yearJustRolled,
                               old(audios), old(refs), old(browser), audios, refs, browser)
    {
      bgmEnabled := true;
      if isNewYearsDay {
        StartHedgehog(NewYearsDayOptions(newYearsDayLeftMs, yearJustRolled));
      } else if !refs.iceStarted {
        StartIce(bgmEnabled);
      }
    }

    /**
      The toggle turns BGM off: the cleanup of the enabled run pauses the ambient track,
      then the disabled branch resets everything it owns.
    */
    method Disable()
      requires Valid() && bgmEnabled
      modifies this`bgmEnabled, this`audios, this`refs, this`browser, this`hedgehogActive,
               this`cycleBursts, this`cycleStart, this`visualizerSource
      ensures Valid() && !bgmEnabled && !hedgehogActive
      ensures DisableReset(old(audios), old(refs), old(browser), audios, refs, browser)
      ensures Rendered()
    {
      var wasActive := hedgehogActive;
      TurnOff();
      Render(wasActive);
    }

    /**
      `setBgmEnabled(false)` while enabled: the cleanup of the enabled run pauses the
      ambient track, then the effect runs its disabled branch.
    */
    method TurnOff()
      requires Valid() && bgmEnabled
      modifies this`bgmEnabled, this`audios, this`refs, this`browser, this`hedgehogActive, this`cycleBursts, this`cycleStart
      ensures Valid() && !bgmEnabled && !hedgehogActive
      ensures DisableReset(old(audios), old(refs), old(browser), audios, refs, browser)
    {
      bgmEnabled := false;
      PauseRewindAbsorbsPause(audios, refs.bgm);
      audios := Pause(audios, refs.bgm);
      DisableBranch();
    }

    /** The success handler of an ambient `play()`. */
    method IcePlaying(i: nat)
      requires Valid() && i < |audios|
      modifies this`error, this`audios, this`refs, this`browser
      ensures Valid() && error == None
      ensures audios == old(audios)[i := Playing(old(audios)[i])]
      ensures refs == old(refs).(iceStarted := true)
      ensures browser == AddFade(old(browser), Fade(i, old(audios)[i].volume, IceVolume, IceFadeInMs, NoCompletion))
    {
      error := None;
      audios := audios[i := Playing(audios[i])];
      var done := FadeAudio(i, IceVolume, IceFadeInMs, NoCompletion);
      refs := refs.(iceStarted := true);
    }

    /** The success handler of an event `play()`. */
    method HedgehogPlaying(i: nat, o: HedgehogOptions)
      requires Valid() && i < |audios|
      modifies this`error, this`audios, this`browser, this`hedgehogActive
      ensures Valid() && error == None && hedgehogActive
      ensures var armed := StopTask(i, o.durationMs, o.fadeOutMs, o.resumeIce);
              && (o.fadeInMs > 0 ==>
                    && audios == old(audios)[i := Playing(old(audios)[i])]
                    && browser == AddFade(old(browser), Fade(i, old(audios)[i].volume, HedgehogVolume, o.fadeInMs, NoCompletion))
                                    .(stopTimer := Some(armed)))
              && (o.fadeInMs <= 0 ==>
                    && audios == old(audios)[i := Playing(old(audios)[i]).(volume := HedgehogVolume)]
                    && browser == old(browser).(stopTimer := Some(armed)))
    {
      error := None;
      hedgehogActive := true;
      audios := audios[i := Playing(audios[i])];
      var done := FadeAudio(i, HedgehogVolume, o.fadeInMs, NoCompletion);
      browser := browser.(stopTimer := Some(StopTask(i, o.durationMs, o.fadeOutMs, o.resumeIce)));
    }

    /**
      The enable effect runs again because another of its inputs changed (the New
      Year's Day flag, the time left in it, or `yearJustRolled`): while enabled, the
      previous run's cleanup pauses the ambient track and the enabled branch runs again.
    */
    method EnableEffectRerun(isNewYearsDay: bool, newYearsDayLeftMs: Option<int>, yearJustRolled: bool)
      requires Valid()
      modifies this`audios, this`refs, this`browser, this`hedgehogActive, this`cycleBursts, this`cycleStart,
               this`visualizerSource
      ensures Valid()
      ensures bgmEnabled ==>
                && hedgehogActive == old(hedgehogActive)
                && RefOk(old(refs).hedgehog, |Pause(old(audios), old(refs).bgm)|)
                && EnabledBranchRan(isNewYearsDay, newYearsDayLeftMs, yearJustRolled,
                                    Pause(old(audios), old(refs).bgm), old(refs), old(browser), audios, refs, browser)
      ensures !bgmEnabled ==>
                !hedgehogActive && DisableReset(old(audios), old(refs), old(browser), audios, refs, browser)
      ensures Rendered()
    {
      var wasActive := hedgehogActive;
      if bgmEnabled {
        audios := Pause(audios, refs.bgm);
        if isNewYearsDay {
          StartHedgehog(NewYearsDayOptions(newYearsDayLeftMs, yearJustRolled));
        } else if !refs.iceStarted {
          StartIce(bgmEnabled);
        }
      } else {
        DisableBranch();
      }
      Render(wasActive);
    }

    /**
      The final-ten effect on a new `timeLeftMs`. Outside New Year's Day and while
      enabled: the first time the rounded-up seconds left are at most ten, with time
      still left, the ambient track fades to 0 over 10 s and then pauses; once no time is
      left the event track starts with the default options.
    */
    method TickTimeLeft(timeLeftMs: int, isNewYearsDay: bool)
      requires Valid()
      modifies this`audios, this`refs, this`browser, this`cycleBursts, this`cycleStart
      ensures Valid()
      ensures !bgmEnabled || isNewYearsDay || timeLeftMs > 10_000 ==>
                audios == old(audios) && refs == old(refs) && browser == old(browser)
      ensures bgmEnabled && !isNewYearsDay && 0 < timeLeftMs <= 10_000 ==>
                && audios == old(audios)
                && refs == old(refs).(fadeOutStarted := true)
                && browser == (if !old(refs).fadeOutStarted && old(refs).bgm.Some?
                               then AddFade(old(browser), Fade(old(refs).bgm.value, old(audios)[old(refs).bgm.value].volume,
                                                               0.0, DefaultFadeOutMs, AmbientFadedOut))
                               else old(browser))
      ensures bgmEnabled && !isNewYearsDay && timeLeftMs <= 0 ==>
                HedgehogStarted(DefaultHedgehogOptions, old(audios), old(refs), old(browser), audios, refs, browser)
    {
      if !bgmEnabled || isNewYearsDay {
        return;
      }
      var secondsRemaining := SecondsRemaining(timeLeftMs);
      if secondsRemaining <= FinalTenSeconds && timeLeftMs > 0 && !refs.fadeOutStarted {
        refs := refs.(fadeOutStarted := true);
        if refs.bgm.Some? {
          var done := FadeAudio(refs.bgm.value, 0.0, DefaultFadeOutMs, AmbientFadedOut);
        }
      }
      if timeLeftMs <= 0 {
        StartHedgehog(DefaultHedgehogOptions);
      }
    }

    /**
      The `play()` of an ambient element settles. Success: clear the error, fade in to
      0.25 over 2 s, mark the ambient track started. Failure: report it and turn BGM off,
      which, if it was on, resets as `Disable` does.
    */
    method IcePlayResult(h: nat, ok: bool)
      requires Valid() && h in browser.plays && browser.plays[h].IcePlay?
      modifies this`bgmEnabled, this`error, this`audios, this`refs, this`browser, this`hedgehogActive,
               this`cycleBursts, this`cycleStart, this`visualizerSource
      ensures Valid()
      ensures ok ==>
                var i := old(browser).plays[h].audio;
                && error == None && bgmEnabled == old(bgmEnabled) && hedgehogActive == old(hedgehogActive)
                && audios == old(audios)[i := Playing(old(audios)[i])]
                && refs == old(refs).(iceStarted := true)
                && browser == AddFade(old(browser).(plays := old(browser).plays - {h}),
                                      Fade(i, old(audios)[i].volume, IceVolume, IceFadeInMs, NoCompletion))
      ensures !ok ==> error == Some(IcePlayFailed) && !bgmEnabled
      ensures !ok && old(bgmEnabled) ==>
                !hedgehogActive
                && DisableReset(old(audios), old(refs), old(browser).(plays := old(browser).plays - {h}), audios, refs, browser)
      ensures !ok && !old(bgmEnabled) ==>
                && hedgehogActive == old(hedgehogActive) && audios == old(audios) && refs == old(refs)
                && browser == old(browser).(plays := old(browser).plays - {h})
      ensures Rendered()
    {
      var wasActive := hedgehogActive;
      var i := browser.plays[h].audio;
      browser := browser.(plays := browser.plays - {h});
      if ok {
        IcePlaying(i);
      } else {
        error := Some(IcePlayFailed);
        if bgmEnabled {
          TurnOff();
        }
      }
      Render(wasActive);
    }

    /**
      The `play()` of an event element settles. Success: clear the error, mark the event
      active, fade in to 0.7 over `fadeInMs`, and arm the stop timer again. Failure:
      report it and lower `hedgehogActive` and `hedgehogStartedRef`.
    */
    method HedgehogPlayResult(h: nat, ok: bool)
      requires Valid() && h in browser.plays && browser.plays[h].HedgehogPlay?
      modifies this`error, this`audios, this`refs, this`browser, this`hedgehogActive, this`visualizerSource
      ensures Valid()
      ensures ok ==>
                var i, o := old(browser).plays[h].audio, old(browser).plays[h].options;
                var settled := old(browser).(plays := old(browser).plays - {h});
                && error == None && hedgehogActive && refs == old(refs)
                && (o.fadeInMs > 0 ==>
                      && audios == old(audios)[i := Playing(old(audios)[i])]
                      && browser == AddFade(settled, Fade(i, old(audios)[i].volume, HedgehogVolume, o.fadeInMs, NoCompletion))
                                      .(stopTimer := Some(StopTask(i, o.durationMs, o.fadeOutMs, o.resumeIce))))
                && (o.fadeInMs <= 0 ==>
                      && audios == old(audios)[i := Playing(old(audios)[i]).(volume := HedgehogVolume)]
                      && browser == settled.(stopTimer := Some(StopTask(i, o.durationMs, o.fadeOutMs, o.resumeIce))))
      ensures !ok ==>
                && error == Some(HedgehogPlayFailed) && !hedgehogActive
                && audios == old(audios) && refs == old(refs).(hedgehogStarted := false)
                && browser == old(browser).(plays := old(browser).plays - {h})
      ensures Rendered()
    {
      var wasActive := hedgehogActive;
      var i, o := browser.plays[h].audio, browser.plays[h].options;
      browser := browser.(plays := browser.plays - {h});
      if ok {
        HedgehogPlaying(i, o);
      } else {
        error := Some(HedgehogPlayFailed);
        hedgehogActive := false;
        refs := refs.(hedgehogStarted := false);
      }
      Render(wasActive);
    }

    /**
      The stop timer fires: the event element fades to 0 over `fadeOutMs`; the completion
      (at once when `fadeOutMs <= 0`) pauses it, lowers the event flags and, with
      `resumeIce`, starts the ambient track again.
    */
    method StopTimerFired()
      requires Valid() && browser.stopTimer.Some?
      modifies this`audios, this`refs, this`browser, this`hedgehogActive, this`visualizerSource
      ensures Valid() && browser.stopTimer == None
      ensures var t := old(browser).stopTimer.value;
              var c := EventFadedOut(t.audio, t.resumeIce);
              && (t.fadeOutMs > 0 ==>
                    && audios == old(audios) && refs == old(refs) && hedgehogActive == old(hedgehogActive)
                    && browser == AddFade(old(browser).(stopTimer := None),
                                          Fade(t.audio, old(audios)[t.audio].volume, 0.0, t.fadeOutMs, c)))
              && (t.fadeOutMs <= 0 ==>
                    && !hedgehogActive
                    && CompletionRan(c, old(audios)[t.audio := old(audios)[t.audio].(volume := 0.0)], old(refs),
                                     old(browser).(stopTimer := None), audios, refs, browser))
      ensures Rendered()
    {
      var wasActive := hedgehogActive;
      var t := browser.stopTimer.value;
      browser := browser.(stopTimer := None);
      var c := EventFadedOut(t.audio, t.resumeIce);
      var done := FadeAudio(t.audio, 0.0, t.fadeOutMs, c);
      if done {
        RunCompletion(c);
      }
      Render(wasActive);
    }

    /**
      A frame of the fade `h`, `elapsedMs` after it started: the volume is interpolated;
      when the progress reaches 1 the fade ends and its `onComplete` runs, and only then.
    */
    method FadeFrame(h: nat, elapsedMs: nat)
      requires Valid() && h in browser.fades
      modifies this`audios, this`refs, this`browser, this`hedgehogActive, this`visualizerSource
      ensures Valid()
      ensures var f := old(browser).fades[h];
              var p := FadeProgress(elapsedMs, f.durationMs);
              var framed := old(audios)[f.audio := old(audios)[f.audio].(volume := FadeVolume(f.start, f.target, p))];
              && (p < 1.0 ==>
                    && audios == framed && refs == old(refs) && browser == old(browser)
                    && hedgehogActive == old(hedgehogActive))
              && (p == 1.0 ==>
                    && framed[f.audio].volume == f.target
                    && hedgehogActive == (old(hedgehogActive) && !f.onComplete.EventFadedOut?)
                    && CompletionRan(f.onComplete, framed, old(refs), old(browser).(fades := old(browser).fades - {h}),
                                     audios, refs, browser))
      ensures Rendered()
    {
      var wasActive := hedgehogActive;
      var f := browser.fades[h];
      var p := FadeProgress(elapsedMs, f.durationMs);
      audios := audios[f.audio := audios[f.audio].(volume := FadeVolume(f.start, f.target, p))];
      if p == 1.0 {
        browser := browser.(fades := browser.fades - {h});
        RunCompletion(f.onComplete);
      }
      Render(wasActive);
    }

    /** The confetti timer fires the second burst of its cycle. */
    method ConfettiTimerFired(h: nat)
      requires Valid() && h in browser.confettiPending
      modifies this`browser, this`cycleBursts, this`cycleStart
      ensures Valid()
      ensures browser == old(browser).(confettiPending := old(browser).confettiPending - {h},
                                       bursts := old(browser).bursts + 1)
      ensures cycleBursts == old(cycleBursts) + 1
    {
      browser := browser.(confettiPending := browser.confettiPending - {h}, bursts := browser.bursts + 1);
      cycleBursts := cycleBursts + 1;
    }

    /**
      The component unmounts: the enable effect's cleanup pauses the ambient track and
      the teardown effect pauses both tracks and cancels the stop and confetti timers.
    */
    method Unmount()
      requires Valid()
      modifies this`audios, this`refs, this`browser
      ensures Valid()
      ensures audios == Pause(Pause(old(audios), old(refs).bgm), old(refs).hedgehog)
      ensures refs == old(refs).(confettiTimers := [])
      ensures browser == old(browser).(stopTimer := None, confettiPending := {})
    {
      audios := Pause(Pause(audios, refs.bgm), refs.hedgehog);
      browser := browser.(stopTimer := None);
      ClearConfettiTimers();
    }
  }
}
