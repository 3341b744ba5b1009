/**
 * The "I knew it" page of src/pages/IKnewItPage.tsx: a heart the visitor
 * presses and holds until its progress reaches 100, four overlays (letter,
 * gallery, selected memory, gift) that Escape closes one at a time, and the
 * gallery of memories built from the bundled image files.
 */
module IKnewIt {
  import opened Wrappers
  import opened Timers

  // ---------------------------------------------------------------------
  // Captions and the memory list
  // ---------------------------------------------------------------------

  /** `filePath.split("/").pop()`: the text after the last '/', or all of it. */
  function LastSegment(path: string): (r: string)
    ensures '/' !in r
    ensures |r| <= |path| && r == path[|path| - |r|..]
    ensures |r| < |path| ==> path[|path| - |r| - 1] == '/'
  {
    if path == [] then []
    else if path[|path| - 1] == '/' then []
    else
      var rest := path[..|path| - 1];
      var r := LastSegment(rest) + [path[|path| - 1]];
      assert path == rest + [path[|path| - 1]];
      r
  }

  const NicknameMap: map<string, string> := map[
    "gall1.jpg" := "Sunshine \U{1F49B}",
    "gall2.jpg" := "Sweetpea \U{1F338}",
    "gall3.jpg" := "Angel Eyes \U{2728}",
    "gall4.jpg" := "Honeybee \U{1F36F}",
    "gall5.jpg" := "Moonbeam \U{1F319}",
    "gall6.jpg" := "Rosebud \U{1F339}",
    "gall7.jpg" := "Starlight \U{1F31F}",
    "gall8.jpg" := "Cupcake \U{1F9C1}",
    "gall9.jpg" := "Butterfly \U{1F98B}",
    "gall10.jpg" := "Heartthrob \U{1F496}"
  ]

  /**
   * `toCaption`: the file's nickname when it has one, otherwise its file
   * name. (`pop()` of a split never comes back empty, so the source's
   * "memory" default is never used.)
   */
  function ToCaption(path: string): (r: string)
    ensures r == Nickname(LastSegment(path))
  {
    Nickname(LastSegment(path))
  }

  /** `nicknameMap[fileName] ?? fileName`. */
  function Nickname(name: string): (r: string)
    ensures name in NicknameMap ==> r == NicknameMap[name]
    ensures name !in NicknameMap ==> r == name
  {
    if name in NicknameMap then NicknameMap[name] else name
  }

  /** The caption depends only on the file name, not on the folder it sits in. */
  lemma CaptionIgnoresFolder(folder: string, name: string)
    requires '/' !in name
    ensures ToCaption(folder + "/" + name) == ToCaption(name)
  {
    SuffixLastSegment(folder + "/", name);
    SuffixLastSegment("", name);
    assert folder + "/" + name == (folder + "/") + name;
    assert "" + name == name;
  }

  /** A name with no '/' at the start of a path or after a '/' is the last segment. */
  lemma {:induction false} SuffixLastSegment(prefix: string, name: string)
    requires '/' !in name && (prefix == [] || prefix[|prefix| - 1] == '/')
    ensures LastSegment(prefix + name) == name
    decreases |name|
  {
    var p := prefix + name;
    if name == [] {
      assert p == prefix;
    } else {
      var init, last := name[..|name| - 1], name[|name| - 1];
      assert name == init + [last];
      assert '/' !in init && last != '/';
      SuffixLastSegment(prefix, init);
      assert p == (prefix + init) + [last];
      assert LastSegment(p) == LastSegment(prefix + init) + [last];
    }
  }

  /** Code-point lexicographic order on strings, standing in for `localeCompare`. */
  predicate Le(a: string, b: string)
    decreases |a|
  {
    a == [] || (b != [] && (a[0] < b[0] || (a[0] == b[0] && Le(a[1..], b[1..]))))
  }

  lemma {:induction false} LeTotal(a: string, b: string)
    ensures Le(a, b) || Le(b, a)
    decreases |a|
  {
    if a != [] && b != [] && a[0] == b[0] {
      LeTotal(a[1..], b[1..]);
    }
  }

  lemma {:induction false} LeTransitive(a: string, b: string, c: string)
    requires Le(a, b) && Le(b, c)
    ensures Le(a, c)
    decreases |a|
  {
    if a != [] && b != [] && c != [] && a[0] == b[0] && b[0] == c[0] {
      LeTransitive(a[1..], b[1..], c[1..]);
    }
  }

  /** One `[path, url]` pair of the bundled gallery glob. */
  datatype Entry = Entry(path: string, url: string)

  predicate SortedByPath(es: seq<Entry>)
  {
    forall i, j :: 0 <= i < j < |es| ==> Le(es[i].path, es[j].path)
  }

  /** Inserting an entry into a path-sorted sequence. */
  function Insert(e: Entry, es: seq<Entry>): (r: seq<Entry>)
    requires SortedByPath(es)
    ensures SortedByPath(r) && multiset(r) == multiset(es) + multiset{e}
  {
    if es == [] then [e]
    else if Le(e.path, es[0].path) then
      assert forall j :: 0 <= j < |es| ==> Le(e.path, es[j].path) by {
        forall j | 0 <= j < |es| ensures Le(e.path, es[j].path) {
          if j > 0 { LeTransitive(e.path, es[0].path, es[j].path); }
        }
      }
      [e] + es
    else
      LeTotal(e.path, es[0].path);
      var tail := Insert(e, es[1..]);
      assert es == [es[0]] + es[1..];
      assert forall j :: 0 <= j < |tail| ==> Le(es[0].path, tail[j].path) by {
        forall j | 0 <= j < |tail| ensures Le(es[0].path, tail[j].path) {
          assert tail[j] in multiset(tail);
          if tail[j] != e {
            assert tail[j] in multiset(es[1..]);
            var k :| 0 <= k < |es[1..]| && es[1..][k] == tail[j];
            assert es[k + 1] == tail[j];
          }
        }
      }
      [es[0]] + tail
  }

  /** `.sort(([a], [b]) => a.localeCompare(b))`, as an insertion sort on the path. */
  function SortByPath(es: seq<Entry>): (r: seq<Entry>)
    ensures SortedByPath(r) && multiset(r) == multiset(es)
  {
    if es == [] then []
    else
      assert es == [es[0]] + es[1..];
      Insert(es[0], SortByPath(es[1..]))
  }

  /** One gallery card's data. */
  datatype Memory = Memory(id: int, url: string, caption: string)

  /** `memories`: the sorted entries numbered from 1, each captioned from its path. */
  function Memories(entries: seq<Entry>): (r: seq<Memory>)
    ensures |r| == |entries|
    ensures forall i :: 0 <= i < |r| ==> r[i].id == i + 1
    ensures forall i :: 0 <= i < |r| ==>
      r[i].url == SortByPath(entries)[i].url && r[i].caption == ToCaption(SortByPath(entries)[i].path)
  {
    var sorted := SortByPath(entries);
    assert |sorted| == |multiset(sorted)| == |multiset(entries)| == |entries|;
    seq(|sorted|, i requires 0 <= i < |sorted| => Memory(i + 1, sorted[i].url, ToCaption(sorted[i].path)))
  }

  /**
   * Ids follow path order: memory i comes from the entry with the i-th
   * smallest path, and every glob entry gives exactly one memory.
   */
  lemma MemoriesInPathOrder(entries: seq<Entry>)
    ensures var sorted := SortByPath(entries);
      |sorted| == |entries| && multiset(sorted) == multiset(entries) &&
      (forall i, j :: 0 <= i < j < |sorted| ==> Le(sorted[i].path, sorted[j].path) && Memories(entries)[i].id < Memories(entries)[j].id)
  {
    var sorted := SortByPath(entries);
    assert |sorted| == |multiset(sorted)| == |multiset(entries)| == |entries|;
  }

  /** `memories.concat(memories)`: the gallery's looping track. */
  function Track(ms: seq<Memory>): (r: seq<Memory>)
    ensures |r| == 2 * |ms|
  {
    ms + ms
  }

  /** Card i of the track shows memory i mod n. */
  lemma TrackRepeats(ms: seq<Memory>, i: int)
    requires 0 <= i < |Track(ms)|
    ensures Track(ms)[i] == ms[i % |ms|]
  {
    if i >= |ms| {
      assert Track(ms)[i] == ms[i - |ms|];
    }
  }

  // ---------------------------------------------------------------------
  // The press-and-hold heart
  // ---------------------------------------------------------------------

  const HoldInterval := 50
  const HoldStep := 2
  const Full := 100
  const CompleteDelay := 1000

  /** A hold tick's update: below 100 the heart fills by 2; at 100 or more it reads 100. */
  function HoldValue(prev: int): (r: int)
    ensures prev < Full ==> r == prev + HoldStep
    ensures prev >= Full ==> r == Full
  {
    if prev >= Full then Full else prev + HoldStep
  }

  /** The progress after n hold ticks from the initial 0. */
  function HoldAfter(n: nat): int
  {
    if n == 0 then 0 else HoldValue(HoldAfter(n - 1))
  }

  /**
   * Progress counts ticks two at a time up to 100 and stays there: it is
   * even, within 0..100 and never decreases, and tick 51 is the first that
   * sees 100 and so schedules the completion.
   */
  lemma {:induction false} HoldAfterCounts(n: nat)
    ensures HoldAfter(n) == if n < Full / HoldStep then HoldStep * n else Full
    ensures HoldAfter(n) % 2 == 0 && 0 <= HoldAfter(n) <= Full
    ensures HoldAfter(n) >= Full <==> n >= Full / HoldStep
  {
    if n > 0 {
      HoldAfterCounts(n - 1);
    }
  }

  lemma HoldMonotone(m: nat, n: nat)
    requires m <= n
    ensures HoldAfter(m) <= HoldAfter(n)
  {
    HoldAfterCounts(m);
    HoldAfterCounts(n);
  }

  /** The timers the page arms: the 50 ms hold interval and the completion timeout. */
  datatype Event = HoldTick | CompleteHeart

  /** The callbacks the page calls. */
  datatype Callback = Interaction | HeartCompleted

  /** The four overlays, in the order Escape closes them. */
  datatype Overlay = SelectedPhoto | Gallery | Letter | Gift

  function Rank(o: Overlay): nat
  {
    match o
    case SelectedPhoto => 0
    case Gallery => 1
    case Letter => 2
    case Gift => 3
  }

  lemma FourOverlays(open: set<Overlay>)
    ensures open <= {SelectedPhoto, Gallery, Letter, Gift}
  {
    forall o | o in open ensures o in {SelectedPhoto, Gallery, Letter, Gift} {
      match o
      case SelectedPhoto =>
      case Gallery =>
      case Letter =>
      case Gift =>
    }
  }

  /** The open overlay Escape closes: the open one of lowest rank, if any is open. */
  function Topmost(open: set<Overlay>): (r: Option<Overlay>)
    ensures r.None? <==> open == {}
    ensures r.Some? ==> r.value in open && forall o :: o in open ==> Rank(r.value) <= Rank(o)
  {
    if SelectedPhoto in open then Some(SelectedPhoto)
    else if Gallery in open then Some(Gallery)
    else if Letter in open then Some(Letter)
    else if Gift in open then Some(Gift)
    else
      FourOverlays(open);
      None
  }

  /** Each Escape closes exactly one overlay while any is open, so n overlays close in n presses. */
  lemma TopmostUnique(open: set<Overlay>, o: Overlay)
    requires o in open && forall p :: p in open ==> Rank(o) <= Rank(p)
    ensures Topmost(open) == Some(o)
    ensures |open - {o}| == |open| - 1
  {
  }

  class Page {
    /** Whether the optional onInteraction prop was passed. */
    const notifies: bool
    /** The gallery's memories, fixed when the module loads. */
    const memories: seq<Memory>
    var showLetter: bool
    var showMemories: bool
    var selectedMemory: Option<Memory>
    var showGift: bool
    var heartProgress: int
    var isPressingHeart: bool
    /** Hold intervals whose once-only mouseup listener is still registered. */
    var mouseUps: set<nat>
    /** Hold intervals whose once-only touchend listener is still registered. */
    var touchEnds: set<nat>
    var emitted: seq<Callback>
    var timers: Queue<Event>

    ghost predicate Valid()
      reads this
    {
      timers.Valid() &&
      0 <= heartProgress <= Full && heartProgress % 2 == 0 &&
      (forall k :: k in timers.pending && timers.pending[k].event == HoldTick ==> timers.pending[k].period == HoldInterval) &&
      (forall k :: k in timers.pending && timers.pending[k].event == CompleteHeart ==> timers.pending[k].period == 0)
    }

    /** The overlays that are open. */
    function Open(): (r: set<Overlay>)
      reads this
      ensures SelectedPhoto in r <==> selectedMemory.Some?
      ensures Gallery in r <==> showMemories
      ensures Letter in r <==> showLetter
      ensures Gift in r <==> showGift
    {
      (if selectedMemory.Some? then {SelectedPhoto} else {}) +
      (if showMemories then {Gallery} else {}) +
      (if showLetter then {Letter} else {}) +
      (if showGift then {Gift} else {})
    }

    /** The first render at time `start`, for the memories built from the gallery glob. */
    constructor (start: int, notifies: bool, entries: seq<Entry>)
      ensures Valid() && this.notifies == notifies && memories == Memories(entries)
      ensures Open() == {} && heartProgress == 0 && !isPressingHeart
      ensures mouseUps == {} && touchEnds == {} && emitted == [] && timers == Start(start)
    {
      this.notifies := notifies;
      memories := Memories(entries);
      showLetter, showMemories, selectedMemory, showGift := false, false, None, false;
      heartProgress, isPressingHeart := 0, false;
      mouseUps, touchEnds := {}, {};
      emitted := [];
      timers := Start(start);
    }

    /**
     * `handleHeartPress`: pressing starts a new 50 ms hold interval and
     * registers its stop listeners; earlier intervals keep running.
     */
    method Press()
      requires Valid()
      modifies this`isPressingHeart, this`mouseUps, this`touchEnds, this`timers
      ensures Valid() && isPressingHeart
      ensures timers == old(timers).Arm(HoldInterval, HoldInterval, HoldTick)
      ensures mouseUps == old(mouseUps) + {old(timers.next)} && touchEnds == old(touchEnds) + {old(timers.next)}
    {
      isPressingHeart := true;
      var h := timers.next;
      timers := timers.Arm(HoldInterval, HoldInterval, HoldTick);
      mouseUps, touchEnds := mouseUps + {h}, touchEnds + {h};
    }

    /**
     * A hold tick: the interaction callback, then below 100 the heart fills
     * by 2; at 100 the interval clears itself and the completion is due a
     * second later.
     */
    method Tick(h: nat)
      requires Valid() && timers.IsNext(h) && timers.pending[h].event == HoldTick
      modifies this`heartProgress, this`emitted, this`timers
      ensures Valid()
      ensures heartProgress == HoldValue(old(heartProgress)) && old(heartProgress) <= heartProgress
      ensures emitted == (if notifies then old(emitted) + [Interaction] else old(emitted))
      ensures var q := old(timers).Fire(h);
        if old(heartProgress) >= Full then
          h !in timers.pending && timers == q.Cancel(h).Arm(CompleteDelay, 0, CompleteHeart)
        else
          timers == q && h in timers.pending
    {
      if notifies {
        emitted := emitted + [Interaction];
      }
      var q := timers.Fire(h);
      if heartProgress >= Full {
        q := q.Cancel(h).Arm(CompleteDelay, 0, CompleteHeart);
        heartProgress := Full;
      } else {
        heartProgress := heartProgress + HoldStep;
      }
      timers := q;
    }

    /** The completion timeout fires: onHeartComplete. */
    method Complete(h: nat)
      requires Valid() && timers.IsNext(h) && timers.pending[h].event == CompleteHeart
      modifies this`emitted, this`timers
      ensures Valid()
      ensures emitted == old(emitted) + [HeartCompleted]
      ensures timers == old(timers).Fire(h) && h !in timers.pending
    {
      emitted := emitted + [HeartCompleted];
      timers := timers.Fire(h);
    }

    /**
     * A mouseup (or a touchend when `touch`) runs every `stopInterval`
     * registered for it: each clears its own interval and the heart is no
     * longer pressed. Progress stays where it is.
     */
    method Release(touch: bool)
      requires Valid()
      modifies this`isPressingHeart, this`mouseUps, this`touchEnds, this`timers
      ensures Valid()
      ensures var stops := if touch then old(touchEnds) else old(mouseUps);
        timers == old(timers).CancelAll(stops) &&
        (forall k :: k in stops ==> k !in timers.pending) &&
        isPressingHeart == (old(isPressingHeart) && stops == {})
      ensures touch ==> touchEnds == {} && mouseUps == old(mouseUps)
      ensures !touch ==> mouseUps == {} && touchEnds == old(touchEnds)
    {
      var stops := if touch then touchEnds else mouseUps;
      timers := timers.CancelAll(stops);
      if stops != {} {
        isPressingHeart := false;
      }
      if touch {
        touchEnds := {};
      } else {
        mouseUps := {};
      }
    }

    /**
     * A key press while an overlay is open: Escape closes the topmost open
     * overlay and nothing else; any other key does nothing.
     */
    method HandleKey(key: string)
      requires Valid()
      modifies this`showLetter, this`showMemories, this`selectedMemory, this`showGift
      ensures Valid()
      ensures key != "Escape" ==> Open() == old(Open()) && selectedMemory == old(selectedMemory)
      ensures key == "Escape" ==>
        Open() == old(Open()) - (if Topmost(old(Open())).Some? then {Topmost(old(Open())).value} else {})
      ensures selectedMemory.Some? ==> selectedMemory == old(selectedMemory)
    {
      if key != "Escape" {
        return;
      }
      if selectedMemory.Some? {
        selectedMemory := None;
        return;
      }
      if showMemories {
        showMemories := false;
        return;
      }
      if showLetter {
        showLetter := false;
        return;
      }
      if showGift {
        showGift := false;
      }
    }

    /** A card, button or backdrop click that opens or closes one overlay. */
    method SetLetter(open: bool)
      requires Valid()
      modifies this`showLetter
      ensures Valid() && Open() == if open then old(Open()) + {Letter} else old(Open()) - {Letter}
    {
      showLetter := open;
    }

    method SetGallery(open: bool)
      requires Valid()
      modifies this`showMemories
      ensures Valid() && Open() == if open then old(Open()) + {Gallery} else old(Open()) - {Gallery}
    {
      showMemories := open;
    }

    method SetGift(open: bool)
      requires Valid()
      modifies this`showGift
      ensures Valid() && Open() == if open then old(Open()) + {Gift} else old(Open()) - {Gift}
    {
      showGift := open;
    }

    /** Closing the selected photo. */
    method CloseSelected()
      requires Valid()
      modifies this`selectedMemory
      ensures Valid() && selectedMemory == None && Open() == old(Open()) - {SelectedPhoto}
    {
      selectedMemory := None;
    }

    /** Clicking card i of the open gallery's track selects its memory and closes the gallery. */
    method SelectCard(i: int)
      requires Valid() && showMemories && 0 <= i < |Track(memories)|
      modifies this`selectedMemory, this`showMemories
      ensures Valid()
      ensures selectedMemory == Some(memories[i % |memories|]) && !showMemories
      ensures Open() == old(Open()) - {Gallery} + {SelectedPhoto}
    {
      TrackRepeats(memories, i);
      selectedMemory := Some(Track(memories)[i]);
      showMemories := false;
    }
  }
}
