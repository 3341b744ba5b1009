/**
 * The page-wide effects of src/components/GlobalEffects.tsx: the six floating
 * names, and the cursor sparkles, a throttled mouse-move handler that
 * appends a seeded heart to a bounded list and removes it again a second later.
 */
module GlobalEffects {
  import opened Timers
  import opened Prng
  import Slices

  /** The `sparkleIntensity` prop; it defaults to Subtle. */
  datatype Intensity = VerySubtle | Subtle | Noticeable

  const NameCount := 6
  /** `prev.slice(-50)`: how many earlier hearts survive an append. */
  const KeptHearts := 50
  const HeartLifetime := 1000

  /** getSparkleInterval: the least gap in ms between two accepted moves. */
  function SparkleInterval(i: Intensity): (r: nat)
    ensures r > 0
    ensures i == VerySubtle ==> r == 120
    ensures i == Noticeable ==> r == 24
    ensures i == Subtle ==> r == 40
  {
    match i
    case VerySubtle => 120
    case Noticeable => 24
    case _ => 40
  }

  /** getSparkleSize: the draw a heart's size comes from, its range chosen by intensity. */
  function SparkleSize(i: Intensity, seed: int): (r: Draw)
    ensures r.seed == seed
    ensures i == VerySubtle ==> r.lo == 6.0 && r.hi == 12.0
    ensures i == Noticeable ==> r.lo == 12.0 && r.hi == 26.0
    ensures i == Subtle ==> r.lo == 10.0 && r.hi == 20.0
  {
    match i
    case VerySubtle => Between(seed, 6.0, 12.0)
    case Noticeable => Between(seed, 12.0, 26.0)
    case _ => Between(seed, 10.0, 20.0)
  }

  /** One floating copy of the name: its id and the draws of its layout. */
  datatype FloatingName = FloatingName(id: int, x: Draw, y: Draw, delay: Draw, scale: Draw, opacity: Draw)

  function MakeName(id: int): FloatingName
  {
    var seed := id + 1;
    FloatingName(id, Between(seed, 5.0, 95.0), Between(seed + 100, 5.0, 95.0), Between(seed + 200, 0.0, 6.0),
                 Between(seed + 300, 0.9, 1.2), Between(seed + 400, 0.08, 0.18))
  }

  /** createFloatingNames: six items; item id draws from seed id + 1 and offsets 100, 200, 300, 400. */
  function FloatingNames(): (r: seq<FloatingName>)
    ensures |r| == NameCount
    ensures forall id :: 0 <= id < |r| ==>
      r[id].id == id && r[id].x.seed == id + 1 && r[id].y.seed == id + 101 &&
      r[id].delay.seed == id + 201 && r[id].scale.seed == id + 301 && r[id].opacity.seed == id + 401
  {
    seq(NameCount, id requires 0 <= id < NameCount => MakeName(id))
  }

  /** One cursor sparkle. */
  datatype CursorHeart = CursorHeart(id: int, x: int, y: int, size: Draw, rotate: Draw, opacity: Draw)

  /** Heart ids strictly increase along the list. */
  ghost predicate Increasing(hs: seq<CursorHeart>)
  {
    forall i, j :: 0 <= i < j < |hs| ==> hs[i].id < hs[j].id
  }

  /** `[...prev.slice(-50), h]`. */
  function Appended(hs: seq<CursorHeart>, h: CursorHeart): (r: seq<CursorHeart>)
    ensures r == hs[if |hs| < KeptHearts then 0 else |hs| - KeptHearts..] + [h]
    ensures |r| <= KeptHearts + 1 && r[|r| - 1] == h
  {
    Slices.TakeLast(hs, KeptHearts) + [h]
  }

  /** All ids in hs are below n. */
  ghost predicate IdsBelow(hs: seq<CursorHeart>, n: int)
  {
    forall i :: 0 <= i < |hs| ==> 0 <= hs[i].id < n
  }

  /**
   * Appending a heart whose id is the next one keeps the ids increasing and
   * below the new counter.
   */
  lemma AppendedIncreasing(hs: seq<CursorHeart>, h: CursorHeart)
    requires Increasing(hs) && IdsBelow(hs, h.id) && 0 <= h.id
    ensures Increasing(Appended(hs, h)) && IdsBelow(Appended(hs, h), h.id + 1)
  {
  }

  /** `prev.filter((heart) => heart.id !== id)`. */
  function Removed(hs: seq<CursorHeart>, id: int): (r: seq<CursorHeart>)
    ensures |r| <= |hs|
  {
    if hs == [] then []
    else if hs[0].id == id then Removed(hs[1..], id)
    else [hs[0]] + Removed(hs[1..], id)
  }

  /** The hearts left are exactly those of the list whose id differs. */
  lemma {:induction false} RemovedMembers(hs: seq<CursorHeart>, id: int)
    ensures forall x :: x in Removed(hs, id) <==> x in hs && x.id != id
  {
    if hs != [] {
      RemovedMembers(hs[1..], id);
      assert forall x :: x in hs <==> x == hs[0] || x in hs[1..];
    }
  }

  /** Removal keeps the others in order: it works piecewise on a split list. */
  lemma {:induction false} RemovedSplits(a: seq<CursorHeart>, b: seq<CursorHeart>, id: int)
    ensures Removed(a + b, id) == Removed(a, id) + Removed(b, id)
  {
    if a == [] {
      assert a + b == b;
    } else {
      assert (a + b)[1..] == a[1..] + b;
      RemovedSplits(a[1..], b, id);
    }
  }

  /** Removing an id no heart has changes nothing. */
  lemma {:induction false} RemovedAbsent(hs: seq<CursorHeart>, id: int)
    requires forall i :: 0 <= i < |hs| ==> hs[i].id != id
    ensures Removed(hs, id) == hs
  {
    if hs != [] {
      RemovedAbsent(hs[1..], id);
    }
  }

  /** With unique ids, removal drops exactly the one heart that has the id. */
  lemma RemovedOne(a: seq<CursorHeart>, h: CursorHeart, b: seq<CursorHeart>)
    requires forall i :: 0 <= i < |a| ==> a[i].id != h.id
    requires forall i :: 0 <= i < |b| ==> b[i].id != h.id
    ensures Removed(a + [h] + b, h.id) == a + b
  {
    var one: seq<CursorHeart> := [h];
    var empty: seq<CursorHeart> := [];
    assert one[1..] == empty;
    assert Removed(one, h.id) == Removed(empty, h.id) == empty;
    RemovedSplits(a, one, h.id);
    RemovedAbsent(a, h.id);
    assert Removed(a + one, h.id) == a;
    RemovedSplits(a + one, b, h.id);
    RemovedAbsent(b, h.id);
  }

  /** Removal keeps the ids increasing. */
  lemma {:induction false} RemovedIncreasing(hs: seq<CursorHeart>, id: int)
    requires Increasing(hs)
    ensures Increasing(Removed(hs, id))
  {
    if hs != [] {
      RemovedIncreasing(hs[1..], id);
      if hs[0].id != id {
        var rest := Removed(hs[1..], id);
        RemovedMembers(hs[1..], id);
        forall j | 0 <= j < |rest| ensures hs[0].id < rest[j].id {
          assert rest[j] in hs[1..];
        }
      }
    }
  }

  /** Consecutive accepted moves are at least the smallest interval apart. */
  ghost predicate Spaced(ts: seq<int>)
  {
    forall i :: 0 < i < |ts| ==> ts[i - 1] + SparkleInterval(Noticeable) <= ts[i]
  }

  /** A time at least the smallest interval after the last one extends a spaced history. */
  lemma SpacedPush(ts: seq<int>, t: int)
    requires Spaced(ts)
    requires ts != [] ==> ts[|ts| - 1] + SparkleInterval(Noticeable) <= t
    ensures Spaced(ts + [t])
  {
    var r := ts + [t];
    forall i | 0 < i < |r| ensures r[i - 1] + SparkleInterval(Noticeable) <= r[i] {
      if i < |ts| {
        assert r[i - 1] == ts[i - 1] && r[i] == ts[i];
      }
    }
  }

  /** The removal timeout a move arms for its heart. */
  datatype Event = RemoveHeart(id: int)

  /**
   * The sparkles' invariant: the id counter counts the accepted moves and the
   * seed runs one ahead; the list is bounded, its ids increase and were all
   * given out; the last accepted time is the throttle's reference.
   */
  ghost predicate SparklesOk(q: Queue<Event>, hs: seq<CursorHeart>, id: int, seed: int, last: int, accepted: seq<int>)
  {
    q.Valid() &&
    id == |accepted| && seed == id + 1 &&
    |hs| <= KeptHearts + 1 &&
    Increasing(hs) &&
    IdsBelow(hs, id) &&
    last == (if accepted == [] then 0 else accepted[|accepted| - 1]) &&
    Spaced(accepted) &&
    (accepted != [] ==> last <= q.now)
  }

  /** An accepted move keeps the invariant. */
  lemma AcceptKeeps(q: Queue<Event>, hs: seq<CursorHeart>, id: int, seed: int, last: int, accepted: seq<int>, h: CursorHeart, interval: nat)
    requires SparklesOk(q, hs, id, seed, last, accepted) && h.id == id
    requires q.now - last >= interval >= SparkleInterval(Noticeable)
    ensures SparklesOk(q.Arm(HeartLifetime, 0, RemoveHeart(id)), Appended(hs, h), id + 1, seed + 1, q.now, accepted + [q.now])
  {
    SpacedPush(accepted, q.now);
    AppendedIncreasing(hs, h);
  }

  class Sparkles {
    var intensity: Intensity
    var cursorHearts: seq<CursorHeart>
    var heartId: int
    var heartSeed: int
    var lastHeart: int
    /** The listener is attached (the component is mounted). */
    var mounted: bool
    /** The times of the accepted moves, oldest first. */
    ghost var accepted: seq<int>
    /** The host's timer table; its clock is `Date.now()`. */
    var timers: Queue<Event>

    ghost predicate Valid()
      reads this
    {
      SparklesOk(timers, cursorHearts, heartId, heartSeed, lastHeart, accepted)
    }

    /** Mounting at time `start` with the given intensity: the refs start at id 0, seed 1 and time 0. */
    constructor (start: int, intensity: Intensity)
      ensures Valid() && mounted && this.intensity == intensity
      ensures cursorHearts == [] && heartId == 0 && heartSeed == 1 && lastHeart == 0
      ensures accepted == [] && timers == Start(start)
    {
      this.intensity := intensity;
      cursorHearts := [];
      heartId, heartSeed, lastHeart := 0, 1, 0;
      mounted := true;
      accepted := [];
      timers := Start(start);
    }

    /** Whether a move now passes the throttle. */
    predicate Accepts()
      reads this
    {
      timers.now - lastHeart >= SparkleInterval(intensity)
    }

    /** The heart an accepted move at (x, y) adds, drawn from the current seed. */
    function NewHeart(x: int, y: int): CursorHeart
      reads this
    {
      CursorHeart(heartId, x, y, SparkleSize(intensity, heartSeed),
                  Between(heartSeed + 50, -30.0, 30.0), Between(heartSeed + 100, 0.5, 0.9))
    }

    /**
     * handleMove at the current time: a move sooner than the interval after
     * the last accepted one is ignored; otherwise the seed and id counters
     * advance by one, the new heart is appended after the last fifty, and its
     * removal is armed a second later.
     */
    method HandleMove(x: int, y: int)
      requires Valid() && mounted
      modifies this`cursorHearts, this`heartId, this`heartSeed, this`lastHeart, this`accepted, this`timers
      ensures Valid()
      ensures !old(Accepts()) ==>
        cursorHearts == old(cursorHearts) && heartId == old(heartId) && heartSeed == old(heartSeed) &&
        lastHeart == old(lastHeart) && timers == old(timers)
      ensures old(Accepts()) ==>
        heartId == old(heartId) + 1 && heartSeed == old(heartSeed) + 1 &&
        lastHeart == timers.now && timers.now - old(lastHeart) >= SparkleInterval(intensity) &&
        cursorHearts == Appended(old(cursorHearts), old(NewHeart(x, y))) &&
        timers == old(timers).Arm(HeartLifetime, 0, RemoveHeart(old(heartId)))
    {
      if timers.now - lastHeart < SparkleInterval(intensity) {
        return;
      }
      var h := NewHeart(x, y);
      AcceptKeeps(timers, cursorHearts, heartId, heartSeed, lastHeart, accepted, h, SparkleInterval(intensity));
      var q := timers.Arm(HeartLifetime, 0, RemoveHeart(heartId));
      var hs := Appended(cursorHearts, h);
      var now := timers.now;
      lastHeart, accepted := now, accepted + [now];
      heartSeed, heartId := heartSeed + 1, heartId + 1;
      cursorHearts, timers := hs, q;
    }

    /**
     * The prop changes: the effect re-attaches the listener with the new
     * interval; the refs, the list and the pending removals carry over.
     */
    method SetIntensity(i: Intensity)
      requires Valid() && mounted
      modifies this`intensity
      ensures Valid() && intensity == i
    {
      intensity := i;
    }

    /** A removal timeout fires: the heart with that id leaves the list, the others keep their order. */
    method Fire(h: nat)
      requires Valid() && timers.IsNext(h)
      modifies this`cursorHearts, this`timers
      ensures Valid()
      ensures timers == old(timers).Fire(h)
      ensures cursorHearts == if mounted then Removed(old(cursorHearts), old(timers.pending[h]).event.id)
                              else old(cursorHearts)
    {
      var id := timers.pending[h].event.id;
      timers := timers.Fire(h);
      if mounted {
        RemovedIncreasing(cursorHearts, id);
        RemovedMembers(cursorHearts, id);
        var r := Removed(cursorHearts, id);
        assert forall i :: 0 <= i < |r| ==> r[i] in cursorHearts;
        cursorHearts := r;
      }
    }

    /** Time passes to t without a timer falling due. */
    method Wait(t: int)
      requires Valid() && timers.now <= t
      requires forall k :: k in timers.pending ==> t <= timers.pending[k].due
      modifies this`timers
      ensures Valid() && timers == old(timers).AdvanceTo(t)
    {
      timers := timers.AdvanceTo(t);
    }

    /** Unmount: the listener goes; pending removals still fire but their updates are discarded. */
    method Teardown()
      requires Valid() && mounted
      modifies this`mounted
      ensures Valid() && !mounted
    {
      mounted := false;
    }
  }
}
