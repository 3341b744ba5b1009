/**
 * The host's timer facility (`setTimeout`, `setInterval`, `clearTimeout`,
 * `clearInterval`) as a value: the current time, the next handle the host will
 * give out, and the pending timers by handle. Every component of the model owns
 * one such table and fires its timers one at a time, earliest first, which is
 * how a single-threaded event loop delivers them.
 */
module Timers {

  /**
   * A pending callback that fires at `due`. A timeout has `period` 0 and is
   * removed when it fires; an interval has `period` > 0 and is re-armed
   * `period` later each time it fires, until cleared.
   */
  datatype Timer<E> = Timer(due: int, period: nat, event: E)

  /**
   * Handles start at 1 (hosts never hand out 0), so that the source's
   * `if (timerRef.current)` test reads as `handle != 0` here.
   */
  datatype Queue<E> = Queue(now: int, next: nat, pending: map<nat, Timer<E>>)
  {
    /** Handles are positive and were given out; nothing pending is overdue. */
    ghost predicate Valid() {
      1 <= next &&
      forall h :: h in pending ==> 1 <= h < next && now <= pending[h].due
    }

    /** Timer h is pending and nothing pending is due before it. */
    ghost predicate IsNext(h: nat) {
      h in pending && forall k :: k in pending ==> pending[h].due <= pending[k].due
    }

    /**
     * A timer ref holding h tracks the timers of kind e: h was given out, and
     * the only pending timer of kind e, if any, is h.
     */
    ghost predicate Tracks(e: E, h: nat) {
      h < next &&
      (h in pending ==> pending[h].event == e) &&
      forall k :: k in pending && pending[k].event == e ==> k == h
    }

    /** No timer of kind e is pending. */
    ghost predicate NonePending(e: E) {
      forall k :: k in pending ==> pending[k].event != e
    }

    /** `setTimeout(cb, delay)` (period 0) or `setInterval(cb, period)`: the handle `next` is given out. */
    function Arm(delay: nat, period: nat, e: E): (q: Queue<E>)
      requires Valid()
      ensures q.Valid() && q.now == now && q.next == next + 1
      ensures next !in pending
      ensures q.pending == pending[next := Timer(now + delay, period, e)]
    {
      Queue(now, next + 1, pending[next := Timer(now + delay, period, e)])
    }

    /** `clearTimeout(h)` / `clearInterval(h)`: a handle that already fired or was cleared is ignored. */
    function Cancel(h: nat): (q: Queue<E>)
      requires Valid()
      ensures q.Valid() && q.now == now && q.next == next
      ensures q.pending == pending - {h}
      ensures h !in pending ==> q == this
    {
      Queue(now, next, pending - {h})
    }

    /** Clearing a set of handles. */
    function CancelAll(hs: set<nat>): (q: Queue<E>)
      requires Valid()
      ensures q.Valid() && q.now == now && q.next == next
      ensures forall k :: k in q.pending <==> k in pending && k !in hs
      ensures forall k :: k in q.pending ==> q.pending[k] == pending[k]
    {
      Queue(now, next, map k | k in pending && k !in hs :: pending[k])
    }

    /**
     * The host delivers timer h: the clock moves to its due time, and the timer
     * is removed (a timeout) or re-armed one period later (an interval).
     */
    function Fire(h: nat): (q: Queue<E>)
      requires Valid() && IsNext(h)
      ensures q.Valid() && q.next == next && q.now == pending[h].due
      ensures q.pending == if pending[h].period == 0 then pending - {h}
                           else pending[h := pending[h].(due := pending[h].due + pending[h].period)]
    {
      var t := pending[h];
      if t.period == 0 then Queue(t.due, next, pending - {h})
      else Queue(t.due, next, pending[h := t.(due := t.due + t.period)])
    }

    /** Time passes up to t without reaching any pending timer. */
    function AdvanceTo(t: int): (q: Queue<E>)
      requires Valid() && now <= t
      requires forall k :: k in pending ==> t <= pending[k].due
      ensures q.Valid() && q.now == t && q.next == next && q.pending == pending
    {
      this.(now := t)
    }
  }

  /** A fresh timer table whose clock reads `start`. */
  function Start<E>(start: int): (q: Queue<E>)
    ensures q.Valid() && q.now == start && q.pending == map[]
  {
    Queue(start, 1, map[])
  }

  /**
   * Re-arming after the tracked timer has fired or been cleared makes the new
   * handle the one that tracks its kind.
   */
  lemma ArmTracks<E>(q: Queue<E>, delay: nat, period: nat, e: E, h: nat)
    requires q.Valid() && q.Tracks(e, h) && h !in q.pending
    ensures q.Arm(delay, period, e).Tracks(e, q.next)
  {
  }

  /** Arming a timer of another kind leaves a tracking ref valid. */
  lemma ArmKeepsTracks<E>(q: Queue<E>, delay: nat, period: nat, e': E, e: E, h: nat)
    requires q.Valid() && q.Tracks(e, h) && e' != e
    ensures q.Arm(delay, period, e').Tracks(e, h)
  {
  }

  /** Clearing any handle leaves a tracking ref valid. */
  lemma CancelKeepsTracks<E>(q: Queue<E>, k: nat, e: E, h: nat)
    requires q.Valid() && q.Tracks(e, h)
    ensures q.Cancel(k).Tracks(e, h)
  {
  }

  /** Clearing the tracked handle leaves no timer of that kind pending. */
  lemma CancelTracked<E>(q: Queue<E>, e: E, h: nat)
    requires q.Valid() && q.Tracks(e, h)
    ensures q.Cancel(h).NonePending(e)
  {
  }

  /** Delivering a timer leaves a tracking ref valid. */
  lemma FireKeepsTracks<E>(q: Queue<E>, k: nat, e: E, h: nat)
    requires q.Valid() && q.IsNext(k) && q.Tracks(e, h)
    ensures q.Fire(k).Tracks(e, h)
  {
  }

  /** Every pending timer of kind e in q is still pending, unchanged, in r. */
  ghost predicate KeepsKind<E>(q: Queue<E>, r: Queue<E>, e: E)
  {
    forall k :: k in q.pending && q.pending[k].event == e ==> k in r.pending && r.pending[k] == q.pending[k]
  }

  lemma KeepsKindTransitive<E>(q: Queue<E>, r: Queue<E>, s: Queue<E>, e: E)
    requires KeepsKind(q, r, e) && KeepsKind(r, s, e)
    ensures KeepsKind(q, s, e)
  {
  }

  /** Whenever a timer is pending, the host has one it can deliver next. */
  lemma {:induction false} NextExists<E>(q: Queue<E>)
    requires q.pending != map[]
    ensures exists h :: q.IsNext(h)
    decreases |q.pending|
  {
    var k :| k in q.pending;
    if q.pending.Keys == {k} {
      assert q.IsNext(k);
    } else {
      var rest := q.(pending := q.pending - {k});
      assert |rest.pending| < |q.pending| by {
        assert rest.pending.Keys == q.pending.Keys - {k};
      }
      var other :| other in q.pending.Keys && other != k;
      assert other in rest.pending;
      NextExists(rest);
      var h :| rest.IsNext(h);
      assert forall j :: j in q.pending ==> j == k || j in rest.pending;
      if q.pending[k].due < q.pending[h].due {
        assert q.IsNext(k);
      } else {
        assert q.IsNext(h);
      }
    }
  }
}
