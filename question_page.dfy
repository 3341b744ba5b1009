/**
 * The question page of src/pages/QuestionPage.tsx: the "No" button cycles
 * through four messages, jumps to a seeded offset and clears its message two
 * seconds later; the "Yes" button throws a seeded burst of fifty confetti
 * pieces and calls onYes two seconds later.
 */
module QuestionPage {
  import opened Timers
  import opened Prng

  const NoMessages: seq<string> :=
    ["Are you sure?", "But we look cute together...", "This is illegal.", "Try again sweetheart."]
  const PieceCount := 50
  /** Burst k draws its seeds from k * 1000 onwards. */
  const BurstStride := 1000
  const YOffset := 100
  const RotateOffset := 200
  /** The No button's second seed is the click count plus 50. */
  const OffsetSeedGap := 50
  const ClearDelay := 2000
  const YesDelay := 2000

  /** The message shown by the n-th No click, `noMessages[(n - 1) % 4]`. */
  function NoMessage(n: int): (r: string)
    requires n >= 1
    ensures r in NoMessages && r != ""
  {
    NoMessages[(n - 1) % |NoMessages|]
  }

  /**
   * The messages cycle in order: click n shows message (n - 1) mod 4, the
   * first four clicks show the four messages in turn, and click n + 4 repeats
   * click n.
   */
  lemma NoMessageCycles(n: int)
    requires n >= 1
    ensures 1 <= n <= |NoMessages| ==> NoMessage(n) == NoMessages[n - 1]
    ensures NoMessage(n + |NoMessages|) == NoMessage(n)
    ensures NoMessage(n + 1) == NoMessages[((n - 1) % |NoMessages| + 1) % |NoMessages|]
  {
  }

  /** One confetti piece: its id and the draws its position and rotation come from. */
  datatype Piece = Piece(id: int, x: Draw, y: Draw, rotate: Draw)

  /** Where the No button sits: the origin until the first click, then a seeded offset. */
  datatype Offset = Origin | Drawn(x: Draw, y: Draw)

  /** The No button's offset after click n: seeds n and n + 50, each in [-50, 50]. */
  function NoOffset(n: int): (r: Offset)
    ensures r.Drawn? && r.x.seed == n && r.y.seed == n + OffsetSeedGap
    ensures r.x.lo == r.y.lo == -50.0 && r.x.hi == r.y.hi == 50.0
  {
    Drawn(Between(n, -50.0, 50.0), Between(n + OffsetSeedGap, -50.0, 50.0))
  }

  /** Piece `id` of burst k. */
  function MakePiece(k: int, id: int): Piece
  {
    var seed := k * BurstStride + id;
    Piece(id, Between(seed, 0.0, 100.0), Between(seed + YOffset, 0.0, 100.0), Between(seed + RotateOffset, 0.0, 360.0))
  }

  /** The fifty pieces of the k-th Yes click. */
  function Burst(k: int): (ps: seq<Piece>)
    ensures |ps| == PieceCount
    ensures forall id :: 0 <= id < |ps| ==> ps[id] == MakePiece(k, id) && ps[id].id == id
  {
    seq(PieceCount, id requires 0 <= id < PieceCount => MakePiece(k, id))
  }

  function XDraws(ps: seq<Piece>): seq<Draw> { seq(|ps|, i requires 0 <= i < |ps| => ps[i].x) }
  function YDraws(ps: seq<Piece>): seq<Draw> { seq(|ps|, i requires 0 <= i < |ps| => ps[i].y) }
  function RotateDraws(ps: seq<Piece>): seq<Draw> { seq(|ps|, i requires 0 <= i < |ps| => ps[i].rotate) }

  /** Every seed burst k uses. */
  function BurstSeeds(k: int): set<int>
  {
    var ps := Burst(k);
    Seeds(XDraws(ps)) + Seeds(YDraws(ps)) + Seeds(RotateDraws(ps))
  }

  /** The x, y and rotate seeds of burst k lie in three bands of fifty. */
  lemma BurstBands(k: int)
    ensures forall s :: s in Seeds(XDraws(Burst(k))) ==> k * BurstStride <= s < k * BurstStride + PieceCount
    ensures forall s :: s in Seeds(YDraws(Burst(k))) ==>
      k * BurstStride + YOffset <= s < k * BurstStride + YOffset + PieceCount
    ensures forall s :: s in Seeds(RotateDraws(Burst(k))) ==>
      k * BurstStride + RotateOffset <= s < k * BurstStride + RotateOffset + PieceCount
  {
    var ps := Burst(k);
    forall s | s in Seeds(XDraws(ps)) ensures k * BurstStride <= s < k * BurstStride + PieceCount {
      var i :| 0 <= i < |ps| && XDraws(ps)[i].seed == s;
      assert ps[i] == MakePiece(k, i);
    }
    forall s | s in Seeds(YDraws(ps))
      ensures k * BurstStride + YOffset <= s < k * BurstStride + YOffset + PieceCount
    {
      var i :| 0 <= i < |ps| && YDraws(ps)[i].seed == s;
      assert ps[i] == MakePiece(k, i);
    }
    forall s | s in Seeds(RotateDraws(ps))
      ensures k * BurstStride + RotateOffset <= s < k * BurstStride + RotateOffset + PieceCount
    {
      var i :| 0 <= i < |ps| && RotateDraws(ps)[i].seed == s;
      assert ps[i] == MakePiece(k, i);
    }
  }

  /** Within one burst no seed is used for two different axes. */
  lemma BandsDisjoint(k: int)
    ensures Seeds(XDraws(Burst(k))) !! Seeds(YDraws(Burst(k)))
    ensures Seeds(XDraws(Burst(k))) !! Seeds(RotateDraws(Burst(k)))
    ensures Seeds(YDraws(Burst(k))) !! Seeds(RotateDraws(Burst(k)))
  {
    BurstBands(k);
  }

  /** Different bursts draw from different seeds. */
  lemma BurstsDisjoint(k: int, k': int)
    requires k != k'
    ensures BurstSeeds(k) !! BurstSeeds(k')
  {
    BurstBands(k);
    BurstBands(k');
    forall s | s in BurstSeeds(k) ensures k * BurstStride <= s < k * BurstStride + BurstStride {
    }
    forall s | s in BurstSeeds(k') ensures k' * BurstStride <= s < k' * BurstStride + BurstStride {
    }
  }

  /** The timeouts the handlers arm. */
  datatype Event = ClearMessage | CallOnYes

  /** The callbacks the page calls. */
  datatype Callback = Interaction | OnYes

  class Page {
    /** Whether the optional onInteraction prop was passed. */
    const notifies: bool
    var noClicks: int
    var noMessage: string
    var noOffset: Offset
    var showConfetti: bool
    var confetti: seq<Piece>
    var confettiSeed: int
    /** The page is mounted; state updates after unmount are discarded. */
    var mounted: bool
    var emitted: seq<Callback>
    var timers: Queue<Event>

    ghost predicate Valid()
      reads this
    {
      timers.Valid() &&
      noClicks >= 0 && confettiSeed >= 0 &&
      (noClicks == 0 ==> noMessage == "" && noOffset == Origin) &&
      (noClicks > 0 ==> (noMessage == "" || noMessage == NoMessage(noClicks)) && noOffset == NoOffset(noClicks)) &&
      showConfetti == (confettiSeed > 0) &&
      confetti == (if confettiSeed == 0 then [] else Burst(confettiSeed))
    }

    /** The first render at time `start`. */
    constructor (start: int, notifies: bool)
      ensures Valid() && mounted && this.notifies == notifies
      ensures noClicks == 0 && noMessage == "" && noOffset == Origin
      ensures !showConfetti && confetti == [] && confettiSeed == 0
      ensures emitted == [] && timers == Start(start)
    {
      this.notifies := notifies;
      noClicks, noMessage, noOffset := 0, "", Origin;
      showConfetti, confetti, confettiSeed := false, [], 0;
      mounted := true;
      emitted := [];
      timers := Start(start);
    }

    /** The interaction callback, when the prop is there. */
    function Notified(log: seq<Callback>): seq<Callback>
      reads this
    {
      if notifies then log + [Interaction] else log
    }

    /**
     * handleNoClick: one more No, the next message of the cycle, a fresh
     * seeded offset, and a clear of the message two seconds later; earlier
     * clears stay armed.
     */
    method NoClick()
      requires Valid() && mounted
      modifies this`noClicks, this`noMessage, this`noOffset, this`emitted, this`timers
      ensures Valid()
      ensures noClicks == old(noClicks) + 1
      ensures noMessage == NoMessage(noClicks) && noOffset == NoOffset(noClicks)
      ensures emitted == Notified(old(emitted))
      ensures timers == old(timers).Arm(ClearDelay, 0, ClearMessage)
      ensures KeepsKind(old(timers), timers, ClearMessage)
    {
      emitted := Notified(emitted);
      var next := noClicks + 1;
      noClicks := next;
      noMessage := NoMessage(next);
      noOffset := NoOffset(next);
      timers := timers.Arm(ClearDelay, 0, ClearMessage);
    }

    /**
     * handleYesClick: the next confetti seed, its burst of fifty pieces, the
     * confetti shown, and onYes two seconds later.
     */
    method YesClick()
      requires Valid() && mounted
      modifies this`confettiSeed, this`confetti, this`showConfetti, this`emitted, this`timers
      ensures Valid()
      ensures confettiSeed == old(confettiSeed) + 1
      ensures confetti == Burst(confettiSeed) && showConfetti
      ensures emitted == Notified(old(emitted))
      ensures timers == old(timers).Arm(YesDelay, 0, CallOnYes)
    {
      emitted := Notified(emitted);
      var next := confettiSeed + 1;
      confettiSeed := next;
      confetti := Burst(next);
      showConfetti := true;
      timers := timers.Arm(YesDelay, 0, CallOnYes);
    }

    /** The host delivers pending timeout h. */
    method Fire(h: nat)
      requires Valid() && timers.IsNext(h)
      modifies this`noMessage, this`emitted, this`timers
      ensures Valid()
      ensures timers == old(timers).Fire(h)
      ensures old(timers.pending[h]).event == ClearMessage ==>
        noMessage == (if mounted then "" else old(noMessage)) && emitted == old(emitted)
      ensures old(timers.pending[h]).event == CallOnYes ==>
        noMessage == old(noMessage) && emitted == old(emitted) + [OnYes]
    {
      var e := timers.pending[h].event;
      timers := timers.Fire(h);
      match e
      case ClearMessage =>
        if mounted {
          noMessage := "";
        }
      case CallOnYes =>
        emitted := emitted + [OnYes];
    }

    /** The page leaves the screen; nothing clears its timeouts. */
    method Unmount()
      requires Valid()
      modifies this`mounted
      ensures Valid() && !mounted
    {
      mounted := false;
    }
  }
}
