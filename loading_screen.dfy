/**
 * The loading screen of src/components/LoadingScreen.tsx: a 50 ms progress
 * ticker that climbs to 99 and then schedules the result banner and the
 * completion callback, and a 1000 ms interval that rotates the five messages.
 */
module LoadingScreen {
  import opened Timers

  const Duration := 5000
  const TickInterval := 50
  /** `100 / (duration / interval)`, exactly 1. */
  const Increment := 100 / (Duration / TickInterval)
  const Cap := 99
  const MessageCount := 5
  const MessageInterval := 1000
  const ResultDelay := 500
  const CompleteDelay := 2500

  /** The callbacks the component arms with `setInterval` and `setTimeout`. */
  datatype Event = ProgressTick | MessageTick | ShowResult | Complete

  /** What the component does outside its own state. */
  datatype Callback = OnComplete

  /** The ticker's climbing step, `Math.min(prev + increment, 99)`. */
  function NextProgress(prev: int): (r: int)
    ensures r <= Cap
    ensures prev <= Cap ==> prev <= r
    ensures prev < Cap ==> r == prev + 1
    ensures prev >= Cap ==> r == Cap
  {
    if prev + Increment < Cap then prev + Increment else Cap
  }

  /** A tick at 99 or above stops the ticker. */
  predicate Stops(prev: int)
  {
    prev >= Cap
  }

  /** The value a tick's state update returns: 99 when it stops, the next step otherwise. */
  function TickValue(prev: int): int
  {
    if Stops(prev) then Cap else NextProgress(prev)
  }

  /** The progress after n ticks from the initial 0. */
  function ProgressAfter(n: nat): int
  {
    if n == 0 then 0 else TickValue(ProgressAfter(n - 1))
  }

  /** Progress counts ticks up to 99 and stays there: it never exceeds 99 and never decreases. */
  lemma {:induction false} ProgressAfterCounts(n: nat)
    ensures ProgressAfter(n) == if n < Cap then n else Cap
  {
    if n > 0 {
      ProgressAfterCounts(n - 1);
    }
  }

  /** Progress is monotone in the number of ticks. */
  lemma ProgressMonotone(m: nat, n: nat)
    requires m <= n
    ensures ProgressAfter(m) <= ProgressAfter(n) <= Cap
  {
    ProgressAfterCounts(m);
    ProgressAfterCounts(n);
  }

  /** Tick n + 1 sees ProgressAfter(n): ticks 1..99 climb, and tick 100 is the first that stops. */
  lemma FirstStopIsHundredth(n: nat)
    ensures Stops(ProgressAfter(n)) <==> n >= Cap
  {
    ProgressAfterCounts(n);
  }

  /** The message rotation `(prev + 1) % loadingMessages.length`. */
  function NextMessage(i: int): (r: int)
    ensures 0 <= r < MessageCount
    ensures 0 <= i < MessageCount - 1 ==> r == i + 1
    ensures i == MessageCount - 1 ==> r == 0
  {
    (i + 1) % MessageCount
  }

  /** The message index after n rotations from 0. */
  function MessageAfter(n: nat): int
  {
    if n == 0 then 0 else NextMessage(MessageAfter(n - 1))
  }

  /** The messages cycle in order: after n rotations the index is n mod 5. */
  lemma {:induction false} MessageAfterCycles(n: nat)
    ensures MessageAfter(n) == n % MessageCount
  {
    if n > 0 {
      MessageAfterCycles(n - 1);
    }
  }

  class Loader {
    var progress: int
    var messageIndex: int
    var showResult: bool
    /** The component is mounted (its effect has not been cleaned up). */
    var mounted: bool
    var ticker: nat
    var messageTimer: nat
    /** How many ticks have stopped the ticker and scheduled the completion. */
    ghost var stops: nat
    var emitted: seq<Callback>
    var timers: Queue<Event>

    ghost predicate Valid()
      reads this
    {
      timers.Valid() &&
      0 <= progress <= Cap &&
      0 <= messageIndex < MessageCount &&
      timers.Tracks(ProgressTick, ticker) &&
      timers.Tracks(MessageTick, messageTimer) &&
      stops <= 1 &&
      (stops == 1 ==> ticker !in timers.pending && progress == Cap) &&
      (!mounted ==> ticker !in timers.pending && messageTimer !in timers.pending)
    }

    /** Mounting at time `start`: the effect arms the 50 ms ticker and the 1000 ms message interval. */
    constructor (start: int)
      ensures Valid() && mounted
      ensures progress == 0 && messageIndex == 0 && !showResult && stops == 0 && emitted == []
      ensures ticker in timers.pending && timers.pending[ticker] == Timer(start + TickInterval, TickInterval, ProgressTick)
      ensures messageTimer in timers.pending
      ensures timers.pending[messageTimer] == Timer(start + MessageInterval, MessageInterval, MessageTick)
      ensures timers.now == start && timers.pending.Keys == {ticker, messageTimer}
    {
      progress, messageIndex, showResult := 0, 0, false;
      mounted := true;
      stops := 0;
      emitted := [];
      var q: Queue<Event> := Start(start);
      ticker := q.next;
      q := q.Arm(TickInterval, TickInterval, ProgressTick);
      messageTimer := q.next;
      q := q.Arm(MessageInterval, MessageInterval, MessageTick);
      timers := q;
    }

    /** Both refs track their intervals in the table. */
    ghost predicate RefsTrack()
      reads this
    {
      timers.Valid() && timers.Tracks(ProgressTick, ticker) && timers.Tracks(MessageTick, messageTimer)
    }

    /**
     * The stopping tick: clear the ticker, schedule the result banner in
     * 500 ms and the completion in 2500 ms.
     */
    method Stop()
      requires RefsTrack()
      modifies this`timers
      ensures RefsTrack() && ticker !in timers.pending
      ensures timers.now == old(timers.now)
      ensures timers.pending == old(timers.pending) - {ticker}
        + map[old(timers.next) := Timer(timers.now + ResultDelay, 0, ShowResult),
              old(timers.next) + 1 := Timer(timers.now + CompleteDelay, 0, Complete)]
    {
      CancelKeepsTracks(timers, ticker, ProgressTick, ticker);
      CancelKeepsTracks(timers, ticker, MessageTick, messageTimer);
      var c := timers.Cancel(ticker);
      ArmKeepsTracks(c, ResultDelay, 0, ShowResult, ProgressTick, ticker);
      ArmKeepsTracks(c, ResultDelay, 0, ShowResult, MessageTick, messageTimer);
      var r := c.Arm(ResultDelay, 0, ShowResult);
      ArmKeepsTracks(r, CompleteDelay, 0, Complete, ProgressTick, ticker);
      ArmKeepsTracks(r, CompleteDelay, 0, Complete, MessageTick, messageTimer);
      timers := r.Arm(CompleteDelay, 0, Complete);
    }

    /**
     * A ticker tick: below 99 progress climbs by one; at 99 the ticker clears
     * itself, schedules the result banner in 500 ms and the completion in 2500 ms,
     * and progress stays 99.
     */
    method Tick(h: nat)
      requires Valid() && timers.IsNext(h) && timers.pending[h].event == ProgressTick
      modifies this`progress, this`stops, this`timers
      ensures Valid()
      ensures h == ticker
      ensures progress == TickValue(old(progress))
      ensures old(progress) <= progress
      ensures var q := old(timers).Fire(h);
        timers.now == q.now &&
        if Stops(old(progress)) then
          stops == 1 && timers.pending == q.pending - {h}
            + map[q.next := Timer(q.now + ResultDelay, 0, ShowResult),
                  q.next + 1 := Timer(q.now + CompleteDelay, 0, Complete)]
        else
          stops == 0 && timers == q
    {
      FireKeepsTracks(timers, h, ProgressTick, ticker);
      FireKeepsTracks(timers, h, MessageTick, messageTimer);
      timers := timers.Fire(h);
      if progress >= Cap {
        Stop();
        stops := 1;
        progress := Cap;
      } else {
        progress := NextProgress(progress);
      }
    }

    /** The message interval fires: the next of the five messages. */
    method RotateMessage(h: nat)
      requires Valid() && timers.IsNext(h) && timers.pending[h].event == MessageTick
      modifies this`messageIndex, this`timers
      ensures Valid()
      ensures messageIndex == NextMessage(old(messageIndex))
      ensures timers == old(timers).Fire(h)
    {
      FireKeepsTracks(timers, h, ProgressTick, ticker);
      FireKeepsTracks(timers, h, MessageTick, messageTimer);
      timers := timers.Fire(h);
      messageIndex := NextMessage(messageIndex);
    }

    /**
     * One of the completion timeouts fires. The banner's state update is
     * discarded after unmount; the completion callback is called regardless.
     */
    method Finish(h: nat)
      requires Valid() && timers.IsNext(h)
      requires timers.pending[h].event == ShowResult || timers.pending[h].event == Complete
      modifies this`showResult, this`emitted, this`timers
      ensures Valid()
      ensures timers == old(timers).Fire(h)
      ensures old(timers.pending[h]).event == ShowResult ==>
        showResult == (old(showResult) || mounted) && emitted == old(emitted)
      ensures old(timers.pending[h]).event == Complete ==>
        showResult == old(showResult) && emitted == old(emitted) + [OnComplete]
    {
      var e := timers.pending[h].event;
      FireKeepsTracks(timers, h, ProgressTick, ticker);
      FireKeepsTracks(timers, h, MessageTick, messageTimer);
      timers := timers.Fire(h);
      if e == ShowResult {
        if mounted {
          showResult := true;
        }
      } else {
        emitted := emitted + [OnComplete];
      }
    }

    /** The effect's cleanup: clear both intervals; the completion timeouts stay armed. */
    method Teardown()
      requires Valid() && mounted
      modifies this`mounted, this`timers
      ensures Valid() && !mounted
      ensures timers == old(timers).Cancel(ticker).Cancel(messageTimer)
      ensures timers.NonePending(ProgressTick) && timers.NonePending(MessageTick)
      ensures KeepsKind(old(timers), timers, ShowResult) && KeepsKind(old(timers), timers, Complete)
    {
      CancelTracked(timers, ProgressTick, ticker);
      CancelKeepsTracks(timers, ticker, MessageTick, messageTimer);
      var q := timers.Cancel(ticker);
      CancelTracked(q, MessageTick, messageTimer);
      CancelKeepsTracks(q, messageTimer, ProgressTick, ticker);
      timers := q.Cancel(messageTimer);
      mounted := false;
    }
  }
}
