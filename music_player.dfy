/**
 * The background music controls of src/components/MusicPlayer.tsx: a fade-in
 * ramp on a 200 ms interval, a delayed `forcePlay` that lifts the volume to
 * half, the mute toggle, the first-interaction listener, the `canplay` guard
 * and the tap-to-play button. Volumes are in hundredths (the element's 0..1
 * as 0..100). Whether a `play()` call is accepted is a parameter; a rejection
 * shows the tap-to-play button once the handler's own updates are done.
 */
module MusicPlayer {
  import opened Timers

  const FullVolume := 100
  const RampStepSize := 5
  const RampCap := 50
  const RampInterval := 200
  /** The delay of forcePlay after the toggle and the tap-to-play button. */
  const ToggleForceDelay := 200
  /** The delay of forcePlay after the first interaction. */
  const InteractionForceDelay := 400

  /** The callbacks armed with `setInterval` and `setTimeout`. */
  datatype Event = FadeTick | ForcePlay

  /** What the component does to the audio element beyond its fields. */
  datatype Callback = Play

  /** A ramp tick, `Math.min(volume + 0.05, 0.5)`. */
  function RampStep(v: int): (r: int)
    ensures r <= v + RampStepSize && r <= RampCap
    ensures r == v + RampStepSize || r == RampCap
    ensures v <= RampCap ==> v <= r
    ensures v < RampCap ==> v < r
    ensures 0 <= v ==> 0 <= r
  {
    if v + RampStepSize < RampCap then v + RampStepSize else RampCap
  }

  /** forcePlay's `Math.max(audio.volume, 0.5)`. */
  function ForcedVolume(v: int): (r: int)
    ensures v <= r && RampCap <= r
    ensures r == v || r == RampCap
  {
    if v < RampCap then RampCap else v
  }

  /** The ramp's counter after n ticks from 0. */
  function RampAfter(n: nat): int
  {
    if n == 0 then 0 else RampStep(RampAfter(n - 1))
  }

  /** The ramp's counter never decreases and stays within 0..50. */
  lemma {:induction false} RampMonotone(m: nat, n: nat)
    requires m <= n
    ensures 0 <= RampAfter(m) <= RampAfter(n) <= RampCap
    decreases n
  {
    if m < n {
      RampMonotone(m, n - 1);
    } else if n > 0 {
      RampMonotone(n - 1, n - 1);
    }
  }

  /**
   * The timer table after a fade starts: the old ramp cleared, a new 200 ms
   * ramp armed, then one forcePlay after `delay`.
   */
  ghost function FadeTable(q: Queue<Event>, ramp: nat, delay: nat): Queue<Event>
    requires q.Valid()
  {
    q.Cancel(ramp).Arm(RampInterval, RampInterval, FadeTick).Arm(delay, 0, ForcePlay)
  }

  class Player {
    /** `audioRef.current` is set (the element is mounted). */
    var audioAttached: bool
    var audioMuted: bool
    var audioVolume: int
    var isMuted: bool
    var hasInteracted: bool
    var showTapToPlay: bool
    /** `fadeRef.current`, 0 for null. */
    var fadeRef: nat
    /** The live ramp's own `volume` counter. */
    var rampLevel: int
    /** The `[hasInteracted, isMuted]` values the listener effect last ran with. */
    var effectInteracted: bool
    var effectMuted: bool
    var emitted: seq<Callback>
    var timers: Queue<Event>

    ghost predicate Valid()
      reads this
    {
      timers.Valid() &&
      timers.Tracks(FadeTick, fadeRef) &&
      0 <= audioVolume <= FullVolume &&
      0 <= rampLevel <= RampCap &&
      (fadeRef in timers.pending ==> rampLevel < RampCap && audioAttached)
    }

    /** The first render at time `start`, with the audio element attached and at full volume. */
    constructor (start: int)
      ensures Valid() && audioAttached && !audioMuted && audioVolume == FullVolume
      ensures !isMuted && !hasInteracted && showTapToPlay
      ensures fadeRef == 0 && !effectInteracted && !effectMuted
      ensures emitted == [] && timers == Start(start)
    {
      audioAttached, audioMuted, audioVolume := true, false, FullVolume;
      isMuted, hasInteracted, showTapToPlay := false, false, true;
      fadeRef, rampLevel := 0, 0;
      effectInteracted, effectMuted := false, false;
      emitted := [];
      timers := Start(start);
    }

    /**
     * forcePlay without its rejection handler: with an element, un-mute, lift
     * the volume to at least half and call play(). Returns whether play() was
     * rejected.
     */
    method ForcePlayAudio(accept: bool) returns (rejected: bool)
      requires Valid()
      modifies this`audioMuted, this`audioVolume, this`emitted
      ensures Valid()
      ensures rejected == (audioAttached && !accept)
      ensures audioAttached ==>
        !audioMuted && audioVolume == ForcedVolume(old(audioVolume)) && emitted == old(emitted) + [Play]
      ensures !audioAttached ==>
        audioMuted == old(audioMuted) && audioVolume == old(audioVolume) && emitted == old(emitted)
    {
      if !audioAttached {
        return false;
      }
      audioMuted := false;
      audioVolume := ForcedVolume(audioVolume);
      emitted := emitted + [Play];
      rejected := !accept;
    }

    /**
     * startFadeIn without its rejection handler: with an element, clear the
     * running ramp, un-mute, set the volume to 0, call play() and arm a new
     * ramp from 0. Returns whether play() was rejected.
     */
    method StartFadeIn(accept: bool) returns (rejected: bool)
      requires Valid()
      modifies this`audioMuted, this`audioVolume, this`emitted, this`fadeRef, this`rampLevel, this`timers
      ensures Valid()
      ensures timers.now == old(timers.now)
      ensures rejected == (audioAttached && !accept)
      ensures audioAttached ==>
        !audioMuted && audioVolume == 0 && emitted == old(emitted) + [Play] &&
        rampLevel == 0 && fadeRef == old(timers.next) && timers.next == fadeRef + 1 &&
        timers == old(timers).Cancel(old(fadeRef)).Arm(RampInterval, RampInterval, FadeTick) &&
        timers.pending == (old(timers.pending) - {old(fadeRef)})[fadeRef := Timer(timers.now + RampInterval, RampInterval, FadeTick)]
      ensures !audioAttached ==>
        audioMuted == old(audioMuted) && audioVolume == old(audioVolume) && emitted == old(emitted) &&
        rampLevel == old(rampLevel) && fadeRef == old(fadeRef) && timers == old(timers)
    {
      if !audioAttached {
        return false;
      }
      CancelKeepsTracks(timers, fadeRef, FadeTick, fadeRef);
      var q := timers.Cancel(fadeRef);
      audioMuted := false;
      audioVolume := 0;
      emitted := emitted + [Play];
      rejected := !accept;
      rampLevel := 0;
      ArmTracks(q, RampInterval, RampInterval, FadeTick, fadeRef);
      fadeRef := q.next;
      timers := q.Arm(RampInterval, RampInterval, FadeTick);
    }

    /** Arming a delayed forcePlay leaves the ramp ref tracking its interval. */
    method ArmForcePlay(delay: nat)
      requires Valid()
      modifies this`timers
      ensures Valid() && timers == old(timers).Arm(delay, 0, ForcePlay)
    {
      ArmKeepsTracks(timers, delay, 0, ForcePlay, FadeTick, fadeRef);
      timers := timers.Arm(delay, 0, ForcePlay);
    }

    /** Clear the ramp's interval and null its ref. */
    method ClearRamp()
      requires Valid()
      modifies this`fadeRef, this`timers
      ensures Valid() && fadeRef == 0 && timers == old(timers).Cancel(old(fadeRef))
      ensures timers.NonePending(FadeTick)
    {
      CancelTracked(timers, FadeTick, fadeRef);
      timers := timers.Cancel(fadeRef);
      fadeRef := 0;
    }

    /**
     * The shared start of toggleMute's un-mute, the first interaction and the
     * tap-to-play button: start a fade, schedule forcePlay after `delay` and
     * hide tap-to-play, which a rejected play shows again afterwards.
     */
    method Resume(accept: bool, delay: nat)
      requires Valid() && audioAttached
      modifies this`showTapToPlay, this`audioMuted, this`audioVolume, this`emitted, this`fadeRef
      modifies this`rampLevel, this`timers
      ensures Valid()
      ensures showTapToPlay == !accept
      ensures !audioMuted && audioVolume == 0 && rampLevel == 0 && emitted == old(emitted) + [Play]
      ensures timers.now == old(timers.now) && fadeRef == old(timers.next)
      ensures timers == FadeTable(old(timers), old(fadeRef), delay)
      ensures timers.pending == (old(timers.pending) - {old(fadeRef)})
        [fadeRef := Timer(timers.now + RampInterval, RampInterval, FadeTick)]
        [fadeRef + 1 := Timer(timers.now + delay, 0, ForcePlay)]
    {
      var rejected := StartFadeIn(accept);
      ArmForcePlay(delay);
      showTapToPlay := false;
      if rejected {
        showTapToPlay := true;
      }
    }

    /**
     * toggleMute: with an element, flip the mute state. Un-muting starts a
     * fade, schedules forcePlay in 200 ms and hides tap-to-play; muting clears
     * the ramp and leaves the volume. Either way the user has interacted.
     */
    method ToggleMute(accept: bool)
      requires Valid()
      requires effectInteracted == hasInteracted && effectMuted == isMuted
      modifies this`isMuted, this`hasInteracted, this`showTapToPlay, this`audioMuted, this`audioVolume
      modifies this`emitted, this`fadeRef, this`rampLevel, this`timers
      ensures Valid()
      ensures !audioAttached ==>
        isMuted == old(isMuted) && hasInteracted == old(hasInteracted) && showTapToPlay == old(showTapToPlay) &&
        audioMuted == old(audioMuted) && audioVolume == old(audioVolume) && timers == old(timers) &&
        emitted == old(emitted) && fadeRef == old(fadeRef) && rampLevel == old(rampLevel)
      ensures audioAttached && !old(isMuted) ==>
        isMuted && audioMuted && hasInteracted && showTapToPlay == old(showTapToPlay) &&
        audioVolume == old(audioVolume) && emitted == old(emitted) && rampLevel == old(rampLevel) &&
        fadeRef == 0 && timers == old(timers).Cancel(old(fadeRef)) && timers.NonePending(FadeTick)
      ensures audioAttached && old(isMuted) ==>
        !isMuted && !audioMuted && hasInteracted && showTapToPlay == !accept &&
        audioVolume == 0 && rampLevel == 0 && emitted == old(emitted) + [Play] &&
        fadeRef == old(timers.next) && fadeRef in timers.pending &&
        timers.pending[fadeRef] == Timer(timers.now + RampInterval, RampInterval, FadeTick) &&
        fadeRef + 1 in timers.pending && timers.pending[fadeRef + 1] == Timer(timers.now + ToggleForceDelay, 0, ForcePlay) &&
        timers == FadeTable(old(timers), old(fadeRef), ToggleForceDelay)
    {
      if audioAttached {
        var nextMuted := !isMuted;
        isMuted := nextMuted;
        audioMuted := nextMuted;
        if !nextMuted {
          Resume(accept, ToggleForceDelay);
        } else {
          ClearRamp();
        }
        if !hasInteracted {
          hasInteracted := true;
        }
      }
    }

    /**
     * The document's first-interaction listener: only before any interaction
     * and with an element, mark the interaction, un-mute, start a fade,
     * schedule forcePlay in 400 ms and hide tap-to-play.
     */
    method HandleInteraction(accept: bool)
      requires Valid()
      requires effectInteracted == hasInteracted && effectMuted == isMuted
      modifies this`isMuted, this`hasInteracted, this`showTapToPlay, this`audioMuted, this`audioVolume
      modifies this`emitted, this`fadeRef, this`rampLevel, this`timers
      ensures Valid()
      ensures old(hasInteracted) || !audioAttached ==>
        isMuted == old(isMuted) && hasInteracted == old(hasInteracted) && showTapToPlay == old(showTapToPlay) &&
        audioMuted == old(audioMuted) && audioVolume == old(audioVolume) && emitted == old(emitted) &&
        timers == old(timers) && fadeRef == old(fadeRef) && rampLevel == old(rampLevel)
      ensures !old(hasInteracted) && audioAttached ==>
        !isMuted && hasInteracted && showTapToPlay == !accept &&
        !audioMuted && audioVolume == 0 && rampLevel == 0 && emitted == old(emitted) + [Play] &&
        fadeRef == old(timers.next) && fadeRef in timers.pending &&
        timers.pending[fadeRef] == Timer(timers.now + RampInterval, RampInterval, FadeTick) &&
        fadeRef + 1 in timers.pending && timers.pending[fadeRef + 1] == Timer(timers.now + InteractionForceDelay, 0, ForcePlay) &&
        timers == FadeTable(old(timers), old(fadeRef), InteractionForceDelay)
    {
      if !hasInteracted && audioAttached {
        hasInteracted := true;
        if isMuted {
          isMuted := false;
        }
        Resume(accept, InteractionForceDelay);
      }
    }

    /**
     * The tap-to-play button (shown only while showTapToPlay): mark the
     * interaction, un-mute, start a fade (a no-op without an element),
     * schedule forcePlay in 200 ms and hide the button.
     */
    method TapToPlay(accept: bool)
      requires Valid() && showTapToPlay
      requires effectInteracted == hasInteracted && effectMuted == isMuted
      modifies this`isMuted, this`hasInteracted, this`showTapToPlay, this`audioMuted, this`audioVolume
      modifies this`emitted, this`fadeRef, this`rampLevel, this`timers
      ensures Valid()
      ensures hasInteracted && !isMuted
      ensures audioAttached ==>
        showTapToPlay == !accept && !audioMuted && audioVolume == 0 && rampLevel == 0 &&
        emitted == old(emitted) + [Play] && fadeRef == old(timers.next) && fadeRef in timers.pending &&
        timers.pending[fadeRef] == Timer(timers.now + RampInterval, RampInterval, FadeTick) &&
        fadeRef + 1 in timers.pending && timers.pending[fadeRef + 1] == Timer(timers.now + ToggleForceDelay, 0, ForcePlay) &&
        timers == FadeTable(old(timers), old(fadeRef), ToggleForceDelay)
      ensures !audioAttached ==>
        !showTapToPlay && audioMuted == old(audioMuted) && audioVolume == old(audioVolume) &&
        emitted == old(emitted) && timers == old(timers).Arm(ToggleForceDelay, 0, ForcePlay) &&
        fadeRef == old(fadeRef) && rampLevel == old(rampLevel)
    {
      hasInteracted := true;
      isMuted := false;
      if audioAttached {
        Resume(accept, ToggleForceDelay);
      } else {
        ArmForcePlay(ToggleForceDelay);
        showTapToPlay := false;
      }
    }

    /** The element's `canplay` event: forcePlay only after an interaction and while not muted. */
    method CanPlay(accept: bool)
      requires Valid()
      requires effectInteracted == hasInteracted && effectMuted == isMuted
      modifies this`showTapToPlay, this`audioMuted, this`audioVolume, this`emitted
      ensures Valid()
      ensures var plays := old(hasInteracted) && !old(isMuted) && audioAttached;
        && (plays ==> !audioMuted && audioVolume == ForcedVolume(old(audioVolume)) && emitted == old(emitted) + [Play]
                      && showTapToPlay == (old(showTapToPlay) || !accept))
        && (!plays ==> audioMuted == old(audioMuted) && audioVolume == old(audioVolume) &&
                       emitted == old(emitted) && showTapToPlay == old(showTapToPlay))
    {
      if hasInteracted && !isMuted {
        var rejected := ForcePlayAudio(accept);
        if rejected {
          showTapToPlay := true;
        }
      }
    }

    /**
     * The host delivers pending timer h. A ramp tick advances the ramp's own
     * counter and writes it as the volume, clearing the ramp at the cap; a
     * delayed forcePlay lifts the volume and shows tap-to-play if play() is
     * rejected.
     */
    method Fire(h: nat, accept: bool)
      requires Valid() && timers.IsNext(h)
      requires effectInteracted == hasInteracted && effectMuted == isMuted
      modifies this`showTapToPlay, this`audioMuted, this`audioVolume, this`emitted, this`fadeRef
      modifies this`rampLevel, this`timers
      ensures Valid()
      ensures old(timers.pending[h]).event == FadeTick ==>
        h == old(fadeRef) && rampLevel == RampStep(old(rampLevel)) && old(rampLevel) < rampLevel &&
        audioVolume == rampLevel && audioMuted == old(audioMuted) && emitted == old(emitted) &&
        showTapToPlay == old(showTapToPlay) &&
        (rampLevel == RampCap ==> fadeRef == 0 && timers == old(timers).Fire(h).Cancel(h)) &&
        (rampLevel < RampCap ==> fadeRef == h && timers == old(timers).Fire(h))
      ensures old(timers.pending[h]).event == ForcePlay ==>
        timers == old(timers).Fire(h) && fadeRef == old(fadeRef) && rampLevel == old(rampLevel) &&
        (audioAttached ==> !audioMuted && audioVolume == ForcedVolume(old(audioVolume)) &&
                           emitted == old(emitted) + [Play] && showTapToPlay == (old(showTapToPlay) || !accept)) &&
        (!audioAttached ==> audioVolume == old(audioVolume) && emitted == old(emitted) &&
                            showTapToPlay == old(showTapToPlay))
    {
      var e := timers.pending[h].event;
      FireKeepsTracks(timers, h, FadeTick, fadeRef);
      timers := timers.Fire(h);
      match e
      case FadeTick =>
        rampLevel := RampStep(rampLevel);
        audioVolume := rampLevel;
        if rampLevel >= RampCap && fadeRef != 0 {
          CancelTracked(timers, FadeTick, fadeRef);
          timers := timers.Cancel(fadeRef);
          fadeRef := 0;
        }
      case ForcePlay =>
        var rejected := ForcePlayAudio(accept);
        if rejected {
          showTapToPlay := true;
        }
    }

    /**
     * After a render in which hasInteracted or isMuted changed, the listener
     * effect's cleanup clears the ramp's interval, leaving its ref set, and
     * the effect runs again with the new values.
     */
    method Commit()
      requires Valid()
      modifies this`effectInteracted, this`effectMuted, this`timers
      ensures Valid()
      ensures effectInteracted == hasInteracted && effectMuted == isMuted
      ensures timers == if old(effectInteracted) != hasInteracted || old(effectMuted) != isMuted
                        then old(timers).Cancel(fadeRef) else old(timers)
      ensures old(effectInteracted) != hasInteracted || old(effectMuted) != isMuted ==> timers.NonePending(FadeTick)
    {
      if effectInteracted != hasInteracted || effectMuted != isMuted {
        CancelTracked(timers, FadeTick, fadeRef);
        CancelKeepsTracks(timers, fadeRef, FadeTick, fadeRef);
        timers := timers.Cancel(fadeRef);
        effectInteracted, effectMuted := hasInteracted, isMuted;
      }
    }

    /** Unmount: the effect's cleanup clears the ramp, and the element leaves `audioRef`. */
    method Unmount()
      requires Valid()
      modifies this`audioAttached, this`timers
      ensures Valid() && !audioAttached
      ensures timers == old(timers).Cancel(fadeRef) && timers.NonePending(FadeTick)
    {
      CancelTracked(timers, FadeTick, fadeRef);
      CancelKeepsTracks(timers, fadeRef, FadeTick, fadeRef);
      timers := timers.Cancel(fadeRef);
      audioAttached := false;
    }
  }
}
