/**
 * The global gesture detectors of src/App.tsx: a 5-tap easter-egg counter and a
 * 10-tap "love taps" counter that share one 1000 ms reset timer, the 400 ms
 * debounced easter-egg reveal, the trailing key buffer that watches for the
 * secret word, and the clamped interaction score that the pages bump.
 */
module App {
  import opened Timers
  import Slices

  const EasterEggTaps := 5
  const HeartTaps := 10
  const TapWindow := 1000
  const RevealDelay := 400
  const BadgeDuration := 2500
  const Secret := "hetal"
  const MaxScore := 999

  /** The callbacks the component arms with `setTimeout`. */
  datatype Event = ResetTaps | RevealEasterEgg | HideHeartBadge

  /** What the component does outside its own state. */
  datatype Callback = Alert

  /** `Math.min(prev + 1, 999)`, the update the onInteraction callbacks apply to the score. */
  function BumpScore(prev: int): (r: int)
    ensures r <= MaxScore
    ensures prev <= MaxScore ==> prev <= r
    ensures prev < MaxScore ==> r == prev + 1
    ensures prev >= MaxScore ==> r == MaxScore
  {
    if prev + 1 < MaxScore then prev + 1 else MaxScore
  }

  /** The score after n interactions, starting from its initial value 0. */
  function ScoreAfter(n: nat): int
  {
    if n == 0 then 0 else BumpScore(ScoreAfter(n - 1))
  }

  /** The score counts interactions until it saturates at 999, and stays there. */
  lemma {:induction false} ScoreAfterCounts(n: nat)
    ensures ScoreAfter(n) == if n < MaxScore then n else MaxScore
  {
    if n > 0 {
      ScoreAfterCounts(n - 1);
    }
  }

  /** Upper-case ASCII letters folded to lower case; every other character kept. */
  function LowerChar(c: char): (r: char)
    ensures !('A' <= r <= 'Z')
    ensures 'A' <= c <= 'Z' ==> 'a' <= r <= 'z' && r as int == c as int + 32
    ensures !('A' <= c <= 'Z') ==> r == c
  {
    if 'A' <= c <= 'Z' then (c as int + 32) as char else c
  }

  /** `key.toLowerCase()`, restricted to ASCII. */
  function ToLower(s: string): (r: string)
    ensures |r| == |s|
    ensures forall i :: 0 <= i < |s| ==> r[i] == LowerChar(s[i])
    ensures forall i :: 0 <= i < |r| ==> !('A' <= r[i] <= 'Z')
  {
    seq(|s|, i requires 0 <= i < |s| => LowerChar(s[i]))
  }

  /** t occurs in s starting at index i. */
  ghost predicate OccursAt(s: string, t: string, i: int)
  {
    0 <= i && i + |t| <= |s| && s[i..i + |t|] == t
  }

  /** `s.includes(t)`. */
  function Contains(s: string, t: string): bool
    decreases |s|
  {
    if |s| < |t| then false
    else if s[..|t|] == t then true
    else Contains(s[1..], t)
  }

  /** Contains finds t exactly when t occurs somewhere in s. */
  lemma {:induction false} ContainsOccurs(s: string, t: string)
    ensures Contains(s, t) <==> exists i :: OccursAt(s, t, i)
    decreases |s|
  {
    if |s| < |t| {
      assert forall i :: !OccursAt(s, t, i);
    } else if s[..|t|] == t {
      assert OccursAt(s, t, 0);
    } else {
      ContainsOccurs(s[1..], t);
      forall i | OccursAt(s[1..], t, i) ensures OccursAt(s, t, i + 1) {
        assert s[1..][i..i + |t|] == s[i + 1..i + 1 + |t|];
      }
      forall i | OccursAt(s, t, i) ensures i >= 1 && OccursAt(s[1..], t, i - 1) {
        assert s[1..][i - 1..i - 1 + |t|] == s[i..i + |t|];
      }
    }
  }

  /** A buffer no longer than the word contains it only when it is the word. */
  lemma ShortContainsIsEqual(s: string, t: string)
    requires |s| <= |t|
    ensures Contains(s, t) <==> s == t
  {
    ContainsOccurs(s, t);
    if s == t {
      assert OccursAt(s, t, 0);
    }
  }

  /**
   * The timer table after one click: the pending reset is cleared; the fifth
   * tap clears the pending reveal and arms a new one; the tenth arms the
   * badge's hiding; and the new reset is armed last.
   */
  ghost function TapTable(q: Queue<Event>, tapTimer: nat, revealTimer: nat, tapCount: int, heartCount: int): Queue<Event>
    requires q.Valid()
  {
    CountTable(q.Cancel(tapTimer), revealTimer, tapCount, heartCount).Arm(TapWindow, 0, ResetTaps)
  }

  /** The part of TapTable that the two tap counters add. */
  ghost function CountTable(q: Queue<Event>, revealTimer: nat, tapCount: int, heartCount: int): Queue<Event>
    requires q.Valid()
  {
    var egged := if tapCount + 1 == EasterEggTaps then
                   (if revealTimer != 0 then q.Cancel(revealTimer) else q).Arm(RevealDelay, 0, RevealEasterEgg)
                 else q;
    if heartCount + 1 >= HeartTaps then egged.Arm(BadgeDuration, 0, HideHeartBadge) else egged
  }

  class GestureDetectors {
    var showEasterEgg: bool
    var showHeartCounter: bool
    /** Whether document.body carries the `animate-pulse` class. */
    var pulsing: bool
    var interactionScore: int
    var tapCount: int
    var heartCount: int
    var typed: string
    var tapTimer: nat
    var revealTimer: nat
    /** The listeners are attached (between mount and the effect's cleanup). */
    var mounted: bool
    var emitted: seq<Callback>
    var timers: Queue<Event>

    ghost predicate Valid()
      reads this
    {
      timers.Valid() &&
      0 <= tapCount < EasterEggTaps &&
      0 <= heartCount < HeartTaps &&
      |typed| <= |Secret| &&
      0 <= interactionScore <= MaxScore &&
      timers.Tracks(ResetTaps, tapTimer) &&
      timers.Tracks(RevealEasterEgg, revealTimer) &&
      (!mounted ==> tapTimer !in timers.pending && revealTimer !in timers.pending)
    }

    /** Mounting at time `start`: all counters zero, no timer pending. */
    constructor (start: int)
      ensures Valid() && mounted
      ensures !showEasterEgg && !showHeartCounter && !pulsing
      ensures interactionScore == 0 && tapCount == 0 && heartCount == 0 && typed == ""
      ensures tapTimer == 0 && revealTimer == 0 && emitted == []
      ensures timers == Start(start)
    {
      showEasterEgg, showHeartCounter, pulsing := false, false, false;
      interactionScore, tapCount, heartCount, typed := 0, 0, 0, "";
      tapTimer, revealTimer := 0, 0;
      mounted := true;
      emitted := [];
      timers := Start(start);
    }

    /** The timer refs track their timers in the table. */
    ghost predicate RefsTrack()
      reads this
    {
      timers.Valid() &&
      timers.Tracks(ResetTaps, tapTimer) &&
      timers.Tracks(RevealEasterEgg, revealTimer)
    }

    /** triggerEasterEgg: pulse the page, and re-arm the one pending reveal 400 ms from now. */
    method TriggerEasterEgg()
      requires RefsTrack() && tapTimer !in timers.pending
      modifies this`pulsing, this`revealTimer, this`timers
      ensures RefsTrack() && tapTimer !in timers.pending && pulsing
      ensures timers.now == old(timers.now) && old(timers.next) <= revealTimer < timers.next
      ensures revealTimer in timers.pending
      ensures timers.pending[revealTimer] == Timer(timers.now + RevealDelay, 0, RevealEasterEgg)
      ensures old(revealTimer) != revealTimer ==> old(revealTimer) !in timers.pending
      ensures KeepsKind(old(timers), timers, HideHeartBadge)
      ensures timers == (if old(revealTimer) != 0 then old(timers).Cancel(old(revealTimer)) else old(timers))
                          .Arm(RevealDelay, 0, RevealEasterEgg)
    {
      pulsing := true;
      if revealTimer != 0 {
        CancelKeepsTracks(timers, revealTimer, ResetTaps, tapTimer);
        CancelKeepsTracks(timers, revealTimer, RevealEasterEgg, revealTimer);
        timers := timers.Cancel(revealTimer);
      }
      ArmTracks(timers, RevealDelay, 0, RevealEasterEgg, revealTimer);
      ArmKeepsTracks(timers, RevealDelay, 0, RevealEasterEgg, ResetTaps, tapTimer);
      revealTimer := timers.next;
      timers := timers.Arm(RevealDelay, 0, RevealEasterEgg);
    }

    /** The 10-tap count of a click: on the tenth, show the badge and arm its hiding 2500 ms later. */
    method CountHeartTap()
      requires RefsTrack() && tapTimer !in timers.pending && 0 <= heartCount < HeartTaps
      modifies this`heartCount, this`showHeartCounter, this`timers
      ensures RefsTrack() && tapTimer !in timers.pending && 0 <= heartCount < HeartTaps
      ensures timers.now == old(timers.now) && old(timers.next) <= timers.next
      ensures var badge := old(heartCount) + 1 >= HeartTaps;
        && heartCount == (if badge then 0 else old(heartCount) + 1)
        && showHeartCounter == (badge || old(showHeartCounter))
        && (badge ==> old(timers.next) in timers.pending &&
                      timers.pending[old(timers.next)] == Timer(timers.now + BadgeDuration, 0, HideHeartBadge))
        && timers == (if badge then old(timers).Arm(BadgeDuration, 0, HideHeartBadge) else old(timers))
      ensures revealTimer in timers.pending <==> revealTimer in old(timers.pending)
      ensures KeepsKind(old(timers), timers, RevealEasterEgg)
      ensures KeepsKind(old(timers), timers, HideHeartBadge)
    {
      heartCount := heartCount + 1;
      if heartCount >= HeartTaps {
        showHeartCounter := true;
        ArmKeepsTracks(timers, BadgeDuration, 0, HideHeartBadge, RevealEasterEgg, revealTimer);
        ArmKeepsTracks(timers, BadgeDuration, 0, HideHeartBadge, ResetTaps, tapTimer);
        timers := timers.Arm(BadgeDuration, 0, HideHeartBadge);
        heartCount := 0;
      }
    }

    /** The start of a click: clear the pending reset of the tap window, if any. */
    method ClearTapWindow()
      requires RefsTrack()
      modifies this`timers
      ensures RefsTrack() && tapTimer !in timers.pending
      ensures timers.now == old(timers.now) && timers.next == old(timers.next)
      ensures timers.pending == old(timers.pending) - {tapTimer}
      ensures timers == old(timers).Cancel(tapTimer)
    {
      CancelKeepsTracks(timers, tapTimer, ResetTaps, tapTimer);
      CancelKeepsTracks(timers, tapTimer, RevealEasterEgg, revealTimer);
      timers := timers.Cancel(tapTimer);
    }

    /** The 5-tap count of a click: on the fifth, trigger the easter egg and start over. */
    method CountEggTap()
      requires RefsTrack() && tapTimer !in timers.pending && 0 <= tapCount < EasterEggTaps
      modifies this`tapCount, this`pulsing, this`revealTimer, this`timers
      ensures RefsTrack() && tapTimer !in timers.pending && 0 <= tapCount < EasterEggTaps
      ensures timers.now == old(timers.now) && old(timers.next) <= timers.next
      ensures var egg := old(tapCount) + 1 == EasterEggTaps;
        && tapCount == (if egg then 0 else old(tapCount) + 1)
        && (egg ==> pulsing && revealTimer in timers.pending &&
                    timers.pending[revealTimer] == Timer(timers.now + RevealDelay, 0, RevealEasterEgg))
        && (!egg ==> pulsing == old(pulsing) && revealTimer == old(revealTimer) && timers == old(timers))
        && (egg ==> timers == (if old(revealTimer) != 0 then old(timers).Cancel(old(revealTimer)) else old(timers))
                                .Arm(RevealDelay, 0, RevealEasterEgg))
      ensures KeepsKind(old(timers), timers, HideHeartBadge)
    {
      tapCount := tapCount + 1;
      if tapCount == EasterEggTaps {
        TriggerEasterEgg();
        tapCount := 0;
      }
    }

    /** Both counts of a click, the 5-tap count first. */
    method CountTaps()
      requires RefsTrack() && tapTimer !in timers.pending
      requires 0 <= tapCount < EasterEggTaps && 0 <= heartCount < HeartTaps
      modifies this`tapCount, this`heartCount, this`pulsing, this`revealTimer, this`showHeartCounter, this`timers
      ensures RefsTrack() && tapTimer !in timers.pending
      ensures 0 <= tapCount < EasterEggTaps && 0 <= heartCount < HeartTaps
      ensures timers.now == old(timers.now) && old(timers.next) <= timers.next
      ensures timers == CountTable(old(timers), old(revealTimer), old(tapCount), old(heartCount))
      ensures var egg := old(tapCount) + 1 == EasterEggTaps;
        && tapCount == (if egg then 0 else old(tapCount) + 1)
        && (egg ==> pulsing && revealTimer in timers.pending &&
                    timers.pending[revealTimer] == Timer(timers.now + RevealDelay, 0, RevealEasterEgg))
        && (!egg ==> pulsing == old(pulsing) && revealTimer == old(revealTimer) &&
                     (revealTimer in timers.pending <==> revealTimer in old(timers.pending)))
      ensures var badge := old(heartCount) + 1 >= HeartTaps;
        && heartCount == (if badge then 0 else old(heartCount) + 1)
        && showHeartCounter == (badge || old(showHeartCounter))
        && (badge ==> exists k :: k in timers.pending && k !in old(timers.pending) &&
                                  timers.pending[k] == Timer(timers.now + BadgeDuration, 0, HideHeartBadge))
      ensures KeepsKind(old(timers), timers, HideHeartBadge)
    {
      CountEggTap();
      ghost var egged := timers;
      CountHeartTap();
      KeepsKindTransitive(old(timers), egged, timers, HideHeartBadge);
      if old(heartCount) + 1 >= HeartTaps {
        assert egged.next in timers.pending && egged.next !in old(timers.pending);
      }
    }

    /** The end of a click: arm the one reset of the tap window, 1000 ms from now. */
    method ArmTapWindow()
      requires RefsTrack() && tapTimer !in timers.pending
      modifies this`tapTimer, this`timers
      ensures RefsTrack()
      ensures timers.now == old(timers.now) && tapTimer == old(timers.next)
      ensures tapTimer in timers.pending
      ensures timers.pending[tapTimer] == Timer(timers.now + TapWindow, 0, ResetTaps)
      ensures timers == old(timers).Arm(TapWindow, 0, ResetTaps)
      ensures revealTimer in timers.pending <==> revealTimer in old(timers.pending)
      ensures KeepsKind(old(timers), timers, RevealEasterEgg)
      ensures KeepsKind(old(timers), timers, HideHeartBadge)
    {
      ArmTracks(timers, TapWindow, 0, ResetTaps, tapTimer);
      ArmKeepsTracks(timers, TapWindow, 0, ResetTaps, RevealEasterEgg, revealTimer);
      tapTimer := timers.next;
      timers := timers.Arm(TapWindow, 0, ResetTaps);
    }

    /**
     * A click anywhere on the document: clear the pending reset, count the tap
     * in both counters, and arm the one reset timer 1000 ms from now.
     */
    method HandleTap()
      requires Valid() && mounted
      modifies this`tapCount, this`heartCount, this`tapTimer, this`revealTimer
      modifies this`pulsing, this`showHeartCounter, this`timers
      ensures Valid()
      ensures timers.now == old(timers.now)
      ensures var egg := old(tapCount) + 1 == EasterEggTaps;
        && tapCount == (if egg then 0 else old(tapCount) + 1)
        && (egg ==> pulsing && revealTimer in timers.pending &&
                    timers.pending[revealTimer] == Timer(timers.now + RevealDelay, 0, RevealEasterEgg))
        && (!egg ==> pulsing == old(pulsing) && revealTimer == old(revealTimer) &&
                     (revealTimer in timers.pending <==> revealTimer in old(timers.pending)))
      ensures var badge := old(heartCount) + 1 >= HeartTaps;
        && heartCount == (if badge then 0 else old(heartCount) + 1)
        && showHeartCounter == (badge || old(showHeartCounter))
        && (badge ==> exists k :: k in timers.pending && k !in old(timers.pending) &&
                                  timers.pending[k] == Timer(timers.now + BadgeDuration, 0, HideHeartBadge))
      ensures tapTimer !in old(timers.pending) && tapTimer in timers.pending
      ensures timers.pending[tapTimer] == Timer(timers.now + TapWindow, 0, ResetTaps)
      ensures KeepsKind(old(timers), timers, HideHeartBadge)
      ensures timers == TapTable(old(timers), old(tapTimer), old(revealTimer), old(tapCount), old(heartCount))
    {
      ClearTapWindow();
      ghost var cleared := timers;
      CountTaps();
      ghost var counted := timers;
      ArmTapWindow();
      KeepsKindTransitive(cleared, counted, timers, HideHeartBadge);
    }

    /** A key press: keep the last five characters typed, and react to the secret word. */
    method HandleKey(key: string)
      requires Valid() && mounted
      modifies this`typed, this`emitted
      ensures Valid()
      ensures var next := Slices.TakeLast(old(typed) + ToLower(key), |Secret|);
        if Contains(next, Secret) then typed == "" && emitted == old(emitted) + [Alert]
        else typed == next && emitted == old(emitted)
    {
      var next := Slices.TakeLast(typed + ToLower(key), |Secret|);
      typed := next;
      if Contains(next, Secret) {
        emitted := emitted + [Alert];
        typed := "";
      }
    }

    /** The onInteraction callback that the question and heart pages call. */
    method OnInteraction()
      requires Valid()
      modifies this`interactionScore
      ensures Valid()
      ensures interactionScore == BumpScore(old(interactionScore))
    {
      interactionScore := BumpScore(interactionScore);
    }

    /** The easter egg's close button. */
    method CloseEasterEgg()
      requires Valid()
      modifies this`showEasterEgg
      ensures Valid() && !showEasterEgg
    {
      showEasterEgg := false;
    }

    /** The host delivers pending timer h. State updates after unmount are discarded. */
    method Fire(h: nat)
      requires Valid() && timers.IsNext(h)
      modifies this`tapCount, this`heartCount, this`showEasterEgg, this`pulsing
      modifies this`showHeartCounter, this`timers
      ensures Valid()
      ensures timers == old(timers).Fire(h)
      ensures match old(timers.pending[h].event)
        case ResetTaps =>
          tapCount == 0 && heartCount == 0 &&
          showEasterEgg == old(showEasterEgg) && pulsing == old(pulsing) &&
          showHeartCounter == old(showHeartCounter)
        case RevealEasterEgg =>
          showEasterEgg && !pulsing &&
          tapCount == old(tapCount) && heartCount == old(heartCount) &&
          showHeartCounter == old(showHeartCounter)
        case HideHeartBadge =>
          showHeartCounter == (old(showHeartCounter) && !mounted) &&
          tapCount == old(tapCount) && heartCount == old(heartCount) &&
          showEasterEgg == old(showEasterEgg) && pulsing == old(pulsing)
    {
      var e := timers.pending[h].event;
      FireKeepsTracks(timers, h, ResetTaps, tapTimer);
      FireKeepsTracks(timers, h, RevealEasterEgg, revealTimer);
      timers := timers.Fire(h);
      match e
      case ResetTaps =>
        tapCount := 0;
        heartCount := 0;
      case RevealEasterEgg =>
        showEasterEgg := true;
        pulsing := false;
      case HideHeartBadge =>
        if mounted {
          showHeartCounter := false;
        }
    }

    /** The effect's cleanup: detach the listeners and clear the reset and reveal timers. */
    method Teardown()
      requires Valid() && mounted
      modifies this`pulsing, this`mounted, this`timers
      ensures Valid() && !mounted && !pulsing
      ensures timers == old(timers).Cancel(tapTimer).Cancel(revealTimer)
      ensures forall k :: k in timers.pending ==> timers.pending[k].event == HideHeartBadge
      ensures forall k :: k in old(timers.pending) && old(timers.pending[k]).event == HideHeartBadge ==>
                k in timers.pending
    {
      mounted := false;
      pulsing := false;
      if tapTimer != 0 {
        timers := timers.Cancel(tapTimer);
      }
      if revealTimer != 0 {
        timers := timers.Cancel(revealTimer);
      }
    }
  }
}
