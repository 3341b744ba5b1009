/**
 * The closing page of src/pages/FinalPage.tsx: four destiny lines revealed
 * 1500 ms apart, a typewriter that starts 500 ms after the last slot and
 * types the report one character every 30 ms, and a 9000 ms fallback that
 * shows the whole report at once if nothing was typed. React's effects are
 * modelled by re-running, after each state change, the effects whose
 * dependencies changed: first the old run's cleanup, then the effect.
 */
module FinalPage {
  import opened Timers
  import Slices

  const LineCount := 4
  const LineGap := 1500
  /** `destinyLines.length * 1500 + 500`. */
  const TypingDelay := LineCount * LineGap + 500
  const StepDelay := 30
  const FallbackDelay := 9000

  /**
   * `Math.min(99 + interactionScore * 0.1, 99.9)` counted in tenths of a
   * percent, which is what `toFixed(1)` shows.
   */
  function PercentTenths(score: int): (r: int)
    ensures r <= 999
    ensures score >= 0 ==> 990 <= r
    ensures r == 999 <==> score >= 9
    ensures score < 9 ==> r == 990 + score
  {
    if 990 + score < 999 then 990 + score else 999
  }

  /** Every character is a decimal digit. */
  predicate AllDigits(s: string)
  {
    forall i :: 0 <= i < |s| ==> '0' <= s[i] <= '9'
  }

  /** The decimal digits of n, most significant first. */
  function NatText(n: nat): (r: string)
    ensures |r| >= 1 && AllDigits(r)
    decreases n
  {
    var d := [(('0' as int) + n % 10) as char];
    if n < 10 then d else NatText(n / 10) + d
  }

  /** The number a string of decimal digits denotes. */
  function DigitsValue(s: string): nat
    requires AllDigits(s)
  {
    if s == [] then 0 else DigitsValue(s[..|s| - 1]) * 10 + (s[|s| - 1] as int - '0' as int)
  }

  /** Reading the digits back gives the number, and there is no leading zero. */
  lemma {:induction false} NatTextRoundTrip(n: nat)
    ensures DigitsValue(NatText(n)) == n
    ensures |NatText(n)| > 1 ==> NatText(n)[0] != '0'
    decreases n
  {
    var t := NatText(n);
    if n >= 10 {
      NatTextRoundTrip(n / 10);
      assert t[..|t| - 1] == NatText(n / 10);
    }
  }

  /**
   * A digit string with no leading zero is the text of the number it
   * denotes, so NatText is the only such text for each number.
   */
  lemma {:induction false} CanonicalDigits(s: string)
    requires |s| >= 1 && AllDigits(s) && (|s| > 1 ==> s[0] != '0')
    ensures NatText(DigitsValue(s)) == s
    decreases |s|
  {
    var c := s[|s| - 1];
    var d := c as int - '0' as int;
    if |s| == 1 {
      assert s == [c];
    } else {
      var p := s[..|s| - 1];
      assert AllDigits(p) by {
        forall i | 0 <= i < |p| ensures '0' <= p[i] <= '9' {
          assert p[i] == s[i];
        }
      }
      CanonicalDigits(p);
      var m := DigitsValue(p);
      assert m != 0 by {
        assert p[0] == s[0];
      }
      DivModDigit(m, d);
      assert DigitsValue(s) == m * 10 + d;
      assert NatText(m * 10 + d) == NatText(m) + [c];
      assert s == p + [c];
    }
  }

  /** Splitting a number into its last decimal digit undoes appending that digit. */
  lemma DivModDigit(m: nat, d: int)
    requires 0 <= d < 10
    ensures (m * 10 + d) / 10 == m && (m * 10 + d) % 10 == d
  {
  }

  /**
   * r is a fixed-point text with one decimal for t tenths: a '-' exactly for
   * negatives, then a non-empty run of digits with no leading zero, a point
   * and one digit, which read back as |t|.
   */
  ghost predicate ReadsAsTenths(r: string, t: int)
  {
    var from := if t < 0 then 1 else 0;
    |r| >= 3 + from && r[|r| - 2] == '.' && '0' <= r[|r| - 1] <= '9' &&
    (t < 0 <==> r[0] == '-') && AllDigits(r[from..|r| - 2]) &&
    (|r| - 2 - from > 1 ==> r[from] != '0') &&
    DigitsValue(r[from..|r| - 2]) * 10 + (r[|r| - 1] as int - '0' as int) == (if t < 0 then -t else t)
  }

  /** A sign, the whole part's digits, a point and the last digit make a text that reads as t. */
  lemma TenthsParts(sign: string, whole: string, d: char, t: int)
    requires sign == (if t < 0 then "-" else "") && |whole| >= 1 && AllDigits(whole) && '0' <= d <= '9'
    requires |whole| > 1 ==> whole[0] != '0'
    requires DigitsValue(whole) * 10 + (d as int - '0' as int) == (if t < 0 then -t else t)
    ensures ReadsAsTenths(sign + whole + "." + [d], t)
  {
    var r := sign + whole + "." + [d];
    assert r[|sign|..|r| - 2] == whole;
  }

  /** `toFixed(1)` of a value given in tenths. */
  function TenthsText(t: int): (r: string)
    ensures ReadsAsTenths(r, t)
  {
    var m: nat := if t < 0 then -t else t;
    var whole := NatText(m / 10);
    var d := (('0' as int) + m % 10) as char;
    NatTextRoundTrip(m / 10);
    TenthsParts(if t < 0 then "-" else "", whole, d, t);
    (if t < 0 then "-" else "") + whole + "." + [d]
  }

  /** The text toFixed(1) prints is the only one that reads as t tenths. */
  lemma TenthsTextUnique(r: string, t: int)
    requires ReadsAsTenths(r, t)
    ensures r == TenthsText(t)
  {
    var from := if t < 0 then 1 else 0;
    var m: nat := if t < 0 then -t else t;
    var whole := r[from..|r| - 2];
    assert DigitsValue(whole) == m / 10 && r[|r| - 1] as int - '0' as int == m % 10;
    CanonicalDigits(whole);
    assert r == r[..from] + whole + "." + [r[|r| - 1]];
    assert r[..from] == if t < 0 then "-" else "";
  }

  const ReportHead := "Destiny Prediction Report:\nBased on emotional compatibility, shared laughter,\nand uncontrollable smiling \U{2014}\nProbability of Forever: "
  const Placeholder := "Preparing your destiny report..."
  const ReportTail := "%\nMargin of error: 0.1% (only if snacks are not shared)."

  /** The destiny report for an interaction score. */
  function Report(score: int): (r: string)
    ensures |r| > 0
  {
    ReportHead + TenthsText(PercentTenths(score)) + ReportTail
  }

  /**
   * A score of 0 to 8 shows "99.0" to "99.8", and any score from 9 on shows
   * the cap "99.9".
   */
  lemma ReportPercent(score: int)
    requires score >= 0
    ensures Report(score) == ReportHead + "99." + [(('0' as int) + (if score < 9 then score else 9)) as char] + ReportTail
  {
    var t := PercentTenths(score);
    assert NatText(t / 10) == "99" by {
      assert t / 10 == 99;
      assert NatText(9) == "9";
    }
  }

  /** The timeouts the page arms; a typing step carries the length its closure saw. */
  datatype Event = ShowLine(index: int) | StartTyping | TypeStep(len: nat) | Fallback

  /** Line i is drawn opaque exactly when more than i lines are visible. */
  function LineOpacity(visibleLines: int, i: int): (r: int)
    ensures r == 0 || r == 1
    ensures r == 1 <==> visibleLines > i
  {
    if visibleLines > i then 1 else 0
  }

  /** The lines' timeouts: each line's ref tracks its one timeout, due i * 1500 after mount. */
  ghost predicate LinesTracked(q: Queue<Event>, lines: seq<nat>, start: int)
  {
    |lines| == LineCount &&
    (forall i :: 0 <= i < LineCount ==> q.Tracks(ShowLine(i), lines[i])) &&
    (forall k :: k in q.pending && q.pending[k].event.ShowLine? ==>
       0 <= q.pending[k].event.index < LineCount && q.pending[k].period == 0) &&
    (forall i :: 0 <= i < LineCount && lines[i] in q.pending ==> q.pending[lines[i]].due == start + i * LineGap)
  }

  /** Exactly the lines from `visible` on are still waiting. */
  ghost predicate LinesPending(q: Queue<Event>, lines: seq<nat>, visible: int)
    requires |lines| == LineCount
  {
    forall i :: 0 <= i < LineCount ==> (lines[i] in q.pending <==> visible <= i)
  }

  /** Arming a timer that is not a line keeps the lines tracked. */
  lemma LinesArm(q: Queue<Event>, lines: seq<nat>, start: int, delay: nat, period: nat, e: Event)
    requires q.Valid() && LinesTracked(q, lines, start) && !e.ShowLine?
    ensures LinesTracked(q.Arm(delay, period, e), lines, start)
    ensures forall i :: 0 <= i < LineCount ==> (lines[i] in q.Arm(delay, period, e).pending <==> lines[i] in q.pending)
  {
    forall i | 0 <= i < LineCount ensures q.Arm(delay, period, e).Tracks(ShowLine(i), lines[i]) {
      ArmKeepsTracks(q, delay, period, e, ShowLine(i), lines[i]);
    }
  }

  /** Clearing any handle keeps the lines tracked. */
  lemma LinesCancel(q: Queue<Event>, lines: seq<nat>, start: int, h: nat)
    requires q.Valid() && LinesTracked(q, lines, start)
    ensures LinesTracked(q.Cancel(h), lines, start)
  {
    forall i | 0 <= i < LineCount ensures q.Cancel(h).Tracks(ShowLine(i), lines[i]) {
      CancelKeepsTracks(q, h, ShowLine(i), lines[i]);
    }
  }

  /** Delivering any timer keeps the lines tracked. */
  lemma LinesFire(q: Queue<Event>, lines: seq<nat>, start: int, h: nat)
    requires q.Valid() && q.IsNext(h) && LinesTracked(q, lines, start)
    ensures LinesTracked(q.Fire(h), lines, start)
  {
    forall i | 0 <= i < LineCount ensures q.Fire(h).Tracks(ShowLine(i), lines[i]) {
      FireKeepsTracks(q, h, ShowLine(i), lines[i]);
    }
  }

  /**
   * Lines are delivered in order: when the next timer is line i's and the
   * lines from `visible` on are waiting, then i is `visible` itself.
   */
  lemma LinesInOrder(q: Queue<Event>, lines: seq<nat>, start: int, visible: int, h: nat)
    requires q.Valid() && q.IsNext(h) && LinesTracked(q, lines, start)
    requires 0 <= visible <= LineCount && LinesPending(q, lines, visible)
    requires q.pending[h].event.ShowLine?
    ensures h == lines[q.pending[h].event.index] && q.pending[h].event.index == visible
    ensures LinesPending(q.Fire(h), lines, visible + 1)
  {
    var i := q.pending[h].event.index;
    assert q.Tracks(ShowLine(i), lines[i]);
    if visible < LineCount {
      assert lines[visible] in q.pending;
      assert q.pending[lines[visible]].due == start + visible * LineGap;
    }
  }

  /** Delivering a timer that is not a line leaves the waiting lines as they were. */
  lemma LinesOthers(q: Queue<Event>, lines: seq<nat>, start: int, visible: int, h: nat)
    requires q.Valid() && q.IsNext(h) && LinesTracked(q, lines, start) && !q.pending[h].event.ShowLine?
    requires LinesPending(q, lines, visible)
    ensures LinesPending(q.Fire(h), lines, visible)
  {
    forall i | 0 <= i < LineCount ensures lines[i] != h {
      assert q.Tracks(ShowLine(i), lines[i]);
    }
  }

  /** Nothing due after the last line slot is delivered while a line waits. */
  lemma NoLineBefore(q: Queue<Event>, lines: seq<nat>, start: int, h: nat)
    requires q.Valid() && q.IsNext(h) && LinesTracked(q, lines, start)
    requires q.pending[h].due > start + (LineCount - 1) * LineGap
    ensures forall i :: 0 <= i < LineCount ==> lines[i] !in q.pending
  {
    assert forall i :: 0 <= i < LineCount && lines[i] in q.pending ==>
      q.pending[lines[i]].due <= start + (LineCount - 1) * LineGap;
  }

  /** The typing step ref tracks the one pending step, whatever length it carries. */
  ghost predicate StepTracked(q: Queue<Event>, h: nat)
  {
    h < q.next && (h in q.pending ==> q.pending[h].event.TypeStep?) &&
    forall k :: k in q.pending && q.pending[k].event.TypeStep? ==> k == h
  }

  lemma StepArm(q: Queue<Event>, h: nat, delay: nat, e: Event)
    requires q.Valid() && StepTracked(q, h) && !e.TypeStep?
    ensures StepTracked(q.Arm(delay, 0, e), h)
  {
  }

  lemma StepCancel(q: Queue<Event>, h: nat, k: nat)
    requires q.Valid() && StepTracked(q, h)
    ensures StepTracked(q.Cancel(k), h)
  {
  }

  lemma StepFire(q: Queue<Event>, h: nat, k: nat)
    requires q.Valid() && q.IsNext(k) && StepTracked(q, h)
    ensures StepTracked(q.Fire(k), h)
  {
  }

  /** Every ref tracks its timeouts in q. */
  ghost predicate RefsHold(q: Queue<Event>, lines: seq<nat>, start: int, typing: nat, step: nat, fallback: nat)
  {
    q.Valid() &&
    LinesTracked(q, lines, start) &&
    q.Tracks(StartTyping, typing) &&
    StepTracked(q, step) &&
    q.Tracks(Fallback, fallback)
  }

  lemma RefsFire(q: Queue<Event>, lines: seq<nat>, start: int, typing: nat, step: nat, fallback: nat, h: nat)
    requires RefsHold(q, lines, start, typing, step, fallback) && q.IsNext(h)
    ensures RefsHold(q.Fire(h), lines, start, typing, step, fallback)
  {
    LinesFire(q, lines, start, h);
    FireKeepsTracks(q, h, StartTyping, typing);
    StepFire(q, step, h);
    FireKeepsTracks(q, h, Fallback, fallback);
  }

  lemma RefsCancel(q: Queue<Event>, lines: seq<nat>, start: int, typing: nat, step: nat, fallback: nat, h: nat)
    requires RefsHold(q, lines, start, typing, step, fallback)
    ensures RefsHold(q.Cancel(h), lines, start, typing, step, fallback)
  {
    LinesCancel(q, lines, start, h);
    CancelKeepsTracks(q, h, StartTyping, typing);
    StepCancel(q, step, h);
    CancelKeepsTracks(q, h, Fallback, fallback);
  }

  /** Arming the next step once the last one is gone makes the new handle the step ref. */
  lemma RefsArmStep(q: Queue<Event>, lines: seq<nat>, start: int, typing: nat, step: nat, fallback: nat, len: nat)
    requires RefsHold(q, lines, start, typing, step, fallback) && step !in q.pending
    ensures RefsHold(q.Arm(StepDelay, 0, TypeStep(len)), lines, start, typing, q.next, fallback)
    ensures forall i :: 0 <= i < LineCount ==>
      (lines[i] in q.Arm(StepDelay, 0, TypeStep(len)).pending <==> lines[i] in q.pending)
  {
    LinesArm(q, lines, start, StepDelay, 0, TypeStep(len));
    ArmKeepsTracks(q, StepDelay, 0, TypeStep(len), StartTyping, typing);
    ArmKeepsTracks(q, StepDelay, 0, TypeStep(len), Fallback, fallback);
  }

  /** Arming the fallback once the last one is gone makes the new handle the fallback ref. */
  lemma RefsArmFallback(q: Queue<Event>, lines: seq<nat>, start: int, typing: nat, step: nat, fallback: nat)
    requires RefsHold(q, lines, start, typing, step, fallback) && fallback !in q.pending
    ensures RefsHold(q.Arm(FallbackDelay, 0, Fallback), lines, start, typing, step, q.next)
    ensures forall i :: 0 <= i < LineCount ==>
      (lines[i] in q.Arm(FallbackDelay, 0, Fallback).pending <==> lines[i] in q.pending)
  {
    LinesArm(q, lines, start, FallbackDelay, 0, Fallback);
    ArmKeepsTracks(q, FallbackDelay, 0, Fallback, StartTyping, typing);
    ArmTracks(q, FallbackDelay, 0, Fallback, fallback);
    StepArm(q, step, FallbackDelay, Fallback);
  }

  /** The line effect's loop: line i's timeout is armed i * 1500 ms from now. */
  method ArmLines(q0: Queue<Event>) returns (q: Queue<Event>, lines: seq<nat>)
    requires q0.Valid() && q0.pending == map[]
    ensures q.Valid() && q.now == q0.now && LinesTracked(q, lines, q0.now) && LinesPending(q, lines, 0)
    ensures forall i :: 0 <= i < LineCount ==>
      lines[i] in q.pending && q.pending[lines[i]] == Timer(q0.now + i * LineGap, 0, ShowLine(i))
    ensures forall k :: k in q.pending ==> q.pending[k].event.ShowLine?
  {
    q, lines := q0, [];
    for i := 0 to LineCount
      invariant q.Valid() && q.now == q0.now && |lines| == i
      invariant forall j :: 0 <= j < i ==>
        lines[j] < q.next && lines[j] in q.pending && q.pending[lines[j]] == Timer(q0.now + j * LineGap, 0, ShowLine(j))
      invariant forall k :: k in q.pending ==> exists j :: 0 <= j < i && k == lines[j]
    {
      lines := lines + [q.next];
      q := q.Arm(i * LineGap, 0, ShowLine(i));
    }
  }

  /**
   * The mount effects' timeouts: the lines at i * 1500 ms, the typing start at
   * 6500 ms and the fallback at 9000 ms; no typing step yet.
   */
  method Mount(start: int) returns (q: Queue<Event>, lines: seq<nat>, typing: nat, fallback: nat)
    ensures RefsHold(q, lines, start, typing, 0, fallback) && LinesPending(q, lines, 0) && q.now == start
    ensures forall i :: 0 <= i < LineCount ==>
      lines[i] in q.pending && q.pending[lines[i]] == Timer(start + i * LineGap, 0, ShowLine(i))
    ensures typing in q.pending && q.pending[typing] == Timer(start + TypingDelay, 0, StartTyping)
    ensures fallback in q.pending && q.pending[fallback] == Timer(start + FallbackDelay, 0, Fallback)
  {
    var q0, ls := ArmLines(Start(start));
    typing := q0.next;
    LinesArm(q0, ls, start, TypingDelay, 0, StartTyping);
    var q1 := q0.Arm(TypingDelay, 0, StartTyping);
    fallback := q1.next;
    LinesArm(q1, ls, start, FallbackDelay, 0, Fallback);
    q := q1.Arm(FallbackDelay, 0, Fallback);
    lines := ls;
  }

  /** The handles in a sequence of refs. */
  function Handles(hs: seq<nat>): (r: set<nat>)
    ensures forall h :: h in r <==> exists i :: 0 <= i < |hs| && hs[i] == h
  {
    set i | 0 <= i < |hs| :: hs[i]
  }

  /** The line effect's cleanup, `lineTimers.forEach(clearTimeout)`. */
  method CancelLines(q0: Queue<Event>, lines: seq<nat>, ghost start: int, ghost typing: nat, ghost step: nat, ghost fallback: nat)
    returns (q: Queue<Event>)
    requires RefsHold(q0, lines, start, typing, step, fallback)
    ensures RefsHold(q, lines, start, typing, step, fallback)
    ensures q.now == q0.now && q.next == q0.next && q.pending == q0.pending - Handles(lines)
  {
    q := q0;
    for i := 0 to |lines|
      invariant RefsHold(q, lines, start, typing, step, fallback)
      invariant q.now == q0.now && q.next == q0.next && q.pending == q0.pending - Handles(lines[..i])
    {
      RefsCancel(q, lines, start, typing, step, fallback, lines[i]);
      HandlesSnoc(lines, i);
      q := q.Cancel(lines[i]);
    }
    assert lines[..|lines|] == lines;
  }

  /** One more ref of the prefix adds its handle. */
  lemma HandlesSnoc(hs: seq<nat>, i: int)
    requires 0 <= i < |hs|
    ensures Handles(hs[..i + 1]) == Handles(hs[..i]) + {hs[i]}
  {
    assert hs[..i + 1] == hs[..i] + [hs[i]];
  }

  /** The pending line timeouts are exactly the pending timers the line refs hold. */
  lemma LinesAreShowLines(q: Queue<Event>, lines: seq<nat>, start: int)
    requires LinesTracked(q, lines, start)
    ensures forall k :: k in q.pending && q.pending[k].event.ShowLine? ==> k in Handles(lines)
    ensures forall k :: k in q.pending && k in Handles(lines) ==> q.pending[k].event.ShowLine?
  {
    forall k | k in q.pending && q.pending[k].event.ShowLine? ensures k in Handles(lines) {
      var i := q.pending[k].event.index;
      assert q.Tracks(ShowLine(i), lines[i]);
    }
    forall k | k in q.pending && k in Handles(lines) ensures q.pending[k].event.ShowLine? {
      var i :| 0 <= i < |lines| && lines[i] == k;
      assert q.Tracks(ShowLine(i), lines[i]);
    }
  }

  class Page {
    /** The `interactionScore` prop, fixed for the page's lifetime. */
    const score: int
    /** The report typed out, `destinyReport`. */
    const report: string
    /** The time of mount, from which the line and typing timeouts count. */
    const mountedAt: int
    var visibleLines: int
    var typedText: string
    var isTyping: bool
    /** The page is mounted; after unmount state updates are discarded. */
    var mounted: bool
    var lineTimers: seq<nat>
    /** The typing-start timeout's handle, which nothing keeps or clears. */
    ghost var typingStart: nat
    /** The pending typing step of the typing effect's last run, 0 for none. */
    var stepTimer: nat
    /** The pending fallback of the fallback effect's last run, 0 for none. */
    var fallbackTimer: nat
    var timers: Queue<Event>

    /** The timer refs track their timeouts. */
    ghost predicate Refs()
      reads this`timers, this`lineTimers, this`typingStart, this`stepTimer, this`fallbackTimer
    {
      RefsHold(timers, lineTimers, mountedAt, typingStart, stepTimer, fallbackTimer)
    }

    /** The lines from `visibleLines` on are waiting, and none once unmounted. */
    ghost predicate LinesOk()
      reads this`timers, this`lineTimers, this`visibleLines, this`mounted
    {
      |lineTimers| == LineCount && 0 <= visibleLines <= LineCount &&
      LinesPending(timers, lineTimers, if mounted then visibleLines else LineCount)
    }

    /**
     * Typing has not begun while its start is pending, and while mounted a
     * step for the current length is pending exactly when typing and text remains.
     */
    ghost predicate TypingOk()
      reads this`timers, this`typingStart, this`stepTimer, this`mounted, this`isTyping, this`typedText
    {
      TypingStartOk() && StepOk()
    }

    ghost predicate TypingStartOk()
      reads this`timers, this`typingStart, this`isTyping, this`typedText
    {
      typingStart in timers.pending ==>
        timers.pending[typingStart] == Timer(mountedAt + TypingDelay, 0, StartTyping) && !isTyping && typedText == ""
    }

    ghost predicate StepOk()
      reads this`timers, this`stepTimer, this`mounted, this`isTyping, this`typedText
    {
      (stepTimer in timers.pending ==>
         mounted && isTyping && |typedText| < |report| &&
         timers.pending[stepTimer].event == TypeStep(|typedText|) && timers.pending[stepTimer].period == 0) &&
      (mounted && isTyping && |typedText| < |report| ==> stepTimer in timers.pending)
    }

    /** The fallback is pending only while mounted with nothing typed. */
    ghost predicate FallbackOk()
      reads this`timers, this`fallbackTimer, this`mounted, this`typedText
    {
      fallbackTimer in timers.pending ==>
        mounted && typedText == "" && timers.pending[fallbackTimer] == Timer(mountedAt + FallbackDelay, 0, Fallback)
    }

    ghost predicate Valid()
      reads this
    {
      Refs() && |report| > 0 && typedText <= report && LinesOk() && TypingOk() && FallbackOk()
    }

    /**
     * Mounting at time `start`: the line effect arms line i at i * 1500 ms and
     * the typing start at 6500 ms; the typing effect arms nothing; the
     * fallback effect arms the fallback at 9000 ms.
     */
    constructor (score: int, start: int)
      ensures Valid() && mounted && this.score == score && report == Report(score) && mountedAt == start
      ensures visibleLines == 0 && typedText == "" && !isTyping && stepTimer == 0
      ensures timers.now == start
      ensures forall i :: 0 <= i < LineCount ==>
        lineTimers[i] in timers.pending && timers.pending[lineTimers[i]] == Timer(start + i * LineGap, 0, ShowLine(i))
      ensures typingStart in timers.pending && timers.pending[typingStart] == Timer(start + TypingDelay, 0, StartTyping)
      ensures fallbackTimer in timers.pending
      ensures timers.pending[fallbackTimer] == Timer(start + FallbackDelay, 0, Fallback)
    {
      var q2, lines, ts, fb := Mount(start);
      this.score := score;
      report := Report(score);
      mountedAt := start;
      visibleLines, typedText, isTyping := 0, "", false;
      mounted := true;
      lineTimers, typingStart, stepTimer, fallbackTimer := lines, ts, 0, fb;
      timers := q2;
    }

    /** Cleanup of the typing effect's last run, then its new run: the next step in 30 ms while text remains. */
    method RunTypingEffect()
      requires Refs() && mounted && typedText <= report
      modifies this`stepTimer, this`timers
      ensures Refs()
      ensures var c := old(timers).Cancel(old(stepTimer));
        if isTyping && |typedText| < |report| then
          timers == c.Arm(StepDelay, 0, TypeStep(|typedText|)) && stepTimer == c.next
        else
          timers == c && stepTimer == 0
      ensures forall k :: k in old(timers.pending) && !old(timers.pending[k]).event.TypeStep? ==>
        k in timers.pending && timers.pending[k] == old(timers.pending[k])
      ensures forall k :: k in timers.pending && !timers.pending[k].event.TypeStep? ==> k in old(timers.pending)
      ensures forall i :: 0 <= i < |lineTimers| ==> (lineTimers[i] in timers.pending <==> lineTimers[i] in old(timers.pending))
      ensures old(TypingStartOk()) ==> TypingStartOk()
      ensures old(LinesOk()) ==> LinesOk()
      ensures StepOk()
    {
      RefsCancel(timers, lineTimers, mountedAt, typingStart, stepTimer, fallbackTimer, stepTimer);
      var c := timers.Cancel(stepTimer);
      if isTyping && |typedText| < |report| {
        RefsArmStep(c, lineTimers, mountedAt, typingStart, stepTimer, fallbackTimer, |typedText|);
        stepTimer := c.next;
        timers := c.Arm(StepDelay, 0, TypeStep(|typedText|));
      } else {
        stepTimer := 0;
        timers := c;
      }
    }

    /**
     * Cleanup of the fallback effect's last run when the text's length leaves
     * 0; the new run then returns before arming anything.
     */
    method ClearFallback()
      requires Refs()
      modifies this`fallbackTimer, this`timers
      ensures Refs()
      ensures timers == old(timers).Cancel(old(fallbackTimer)) && fallbackTimer == 0
      ensures timers.NonePending(Fallback)
      ensures forall i :: 0 <= i < |lineTimers| ==> (lineTimers[i] in timers.pending <==> lineTimers[i] in old(timers.pending))
      ensures FallbackOk()
      ensures old(LinesOk()) ==> LinesOk()
      ensures old(TypingStartOk()) ==> TypingStartOk()
      ensures old(StepOk()) ==> StepOk()
    {
      RefsCancel(timers, lineTimers, mountedAt, typingStart, stepTimer, fallbackTimer, fallbackTimer);
      CancelTracked(timers, Fallback, fallbackTimer);
      timers := timers.Cancel(fallbackTimer);
      fallbackTimer := 0;
    }

    /** Line i's timeout fires: the lines appear in order, one more at a time. */
    method RevealLine(h: nat)
      requires Valid() && timers.IsNext(h) && timers.pending[h].event.ShowLine?
      modifies this`visibleLines, this`timers
      ensures Valid()
      ensures timers == old(timers).Fire(h)
      ensures mounted && old(timers.pending[h]).event.index == old(visibleLines)
      ensures visibleLines == old(visibleLines) + 1
    {
      var i := timers.pending[h].event.index;
      LinesInOrder(timers, lineTimers, mountedAt, if mounted then visibleLines else LineCount, h);
      RefsFire(timers, lineTimers, mountedAt, typingStart, stepTimer, fallbackTimer, h);
      var q := timers.Fire(h);
      assert forall k :: k in timers.pending && k != h ==> k in q.pending && q.pending[k] == timers.pending[k];
      timers := q;
      visibleLines := i + 1;
    }

    /**
     * The typing start fires after every line has appeared: typing begins and
     * the first character is due 30 ms later. After unmount nothing happens.
     */
    method BeginTyping(h: nat)
      requires Valid() && timers.IsNext(h) && timers.pending[h].event == StartTyping
      modifies this`isTyping, this`stepTimer, this`timers
      ensures Valid()
      ensures h == typingStart && isTyping == mounted && typedText == ""
      ensures mounted ==> visibleLines == LineCount
      ensures mounted ==>
        stepTimer in timers.pending && timers.pending[stepTimer] == Timer(timers.now + StepDelay, 0, TypeStep(0))
      ensures mounted ==> timers == old(timers).Fire(h).Arm(StepDelay, 0, TypeStep(0)) && stepTimer == old(timers.next)
      ensures !mounted ==> timers == old(timers).Fire(h)
    {
      NoLineBefore(timers, lineTimers, mountedAt, h);
      assert lineTimers[LineCount - 1] !in timers.pending;
      RefsFire(timers, lineTimers, mountedAt, typingStart, stepTimer, fallbackTimer, h);
      timers := timers.Fire(h);
      if mounted {
        assert stepTimer !in timers.pending;
        isTyping := true;
        RunTypingEffect();
      }
    }

    /**
     * A typing step fires: one more character of the report is shown, the
     * next step is armed while text remains, and the fallback is cleared.
     */
    method TypeNext(h: nat)
      requires Valid() && timers.IsNext(h) && timers.pending[h].event.TypeStep?
      modifies this`typedText, this`stepTimer, this`fallbackTimer, this`timers
      ensures Valid()
      ensures h == old(stepTimer) && mounted && isTyping
      ensures |old(typedText)| < |report| && typedText == report[..|old(typedText)| + 1]
      ensures stepTimer in timers.pending <==> |typedText| < |report|
      ensures CursorShown() <==> |typedText| < |report|
      ensures timers.NonePending(Fallback)
      ensures timers == (if |typedText| < |report| then old(timers).Fire(h).Arm(StepDelay, 0, TypeStep(|typedText|))
                         else old(timers).Fire(h)).Cancel(old(fallbackTimer))
      ensures stepTimer in timers.pending ==>
        timers.pending[stepTimer] == Timer(timers.now + StepDelay, 0, TypeStep(|typedText|))
    {
      var len := timers.pending[h].event.len;
      assert mounted && h == stepTimer && typingStart !in timers.pending;
      assert LinesPending(timers, lineTimers, visibleLines);
      RefsFire(timers, lineTimers, mountedAt, typingStart, stepTimer, fallbackTimer, h);
      LinesOthers(timers, lineTimers, mountedAt, visibleLines, h);
      timers := timers.Fire(h);
      typedText := Slices.TakeFirst(report, len + 1);
      RunTypingEffect();
      ClearFallback();
    }


    /** The fallback fires with nothing typed: the whole report appears at once. */
    method ShowFallback(h: nat)
      requires Valid() && timers.IsNext(h) && timers.pending[h].event == Fallback
      modifies this`isTyping, this`typedText, this`stepTimer, this`fallbackTimer, this`timers
      ensures Valid()
      ensures h == old(fallbackTimer) && mounted && old(typedText) == ""
      ensures isTyping && typedText == report && !CursorShown()
      ensures forall k :: k in timers.pending ==> !timers.pending[k].event.TypeStep? && timers.pending[k].event != Fallback
    {
      RefsFire(timers, lineTimers, mountedAt, typingStart, stepTimer, fallbackTimer, h);
      timers := timers.Fire(h);
      isTyping, typedText := true, report;
      RunTypingEffect();
      ClearFallback();
    }

    /**
     * Unmount: the three effects' cleanups clear the line timeouts, the
     * pending step and the fallback; the typing start stays armed.
     */
    method Teardown()
      requires Valid() && mounted
      modifies this`mounted, this`timers
      ensures Valid() && !mounted
      ensures timers.now == old(timers.now)
      ensures forall k :: k in timers.pending <==> k in old(timers.pending) && old(timers.pending[k]).event == StartTyping
      ensures forall k :: k in timers.pending ==> timers.pending[k] == old(timers.pending[k])
    {
      LinesAreShowLines(timers, lineTimers, mountedAt);
      var q := CancelLines(timers, lineTimers, mountedAt, typingStart, stepTimer, fallbackTimer);
      RefsCancel(q, lineTimers, mountedAt, typingStart, stepTimer, fallbackTimer, stepTimer);
      q := q.Cancel(stepTimer);
      RefsCancel(q, lineTimers, mountedAt, typingStart, stepTimer, fallbackTimer, fallbackTimer);
      q := q.Cancel(fallbackTimer);
      assert forall i :: 0 <= i < LineCount ==> lineTimers[i] in Handles(lineTimers);
      timers := q;
      mounted := false;
    }

    /** The report box: the typed text, or the placeholder while nothing is typed. */
    function Shown(): (r: string)
      reads this
      requires Valid()
      ensures typedText == "" ==> r == Placeholder
      ensures typedText != "" ==> r == typedText && r <= report
    {
      if |typedText| > 0 then typedText else Placeholder
    }

    /** The blinking cursor shows while typing has begun and text remains. */
    predicate CursorShown(): (r: bool)
      reads this
      ensures r ==> isTyping
      ensures typedText == report ==> !r
    {
      isTyping && |typedText| < |report|
    }
  }
}
