# Valentine: a Dafny model of its timed interactions

The repository is a single-page Valentine's greeting written with React. A
loading screen leads to a question page, then to an "I knew it" page with a
press-and-hold heart and overlays, and finally to a closing page that reveals
its lines one at a time and types a report. Every behaviour worth reasoning
about lives in event handlers, timers and effects. Each one is a small,
discrete state machine, driven by clicks, keys, timer callbacks and interval
ticks.

This project models those state machines, one module per source file:

| module | source file | what it holds |
|---|---|---|
| `App` | `src/App.tsx` | the 5-tap easter-egg and 10-tap badge counters with their shared reset timer; the debounced reveal; the trailing key buffer that watches for the secret word; the interaction score clamped at 999 |
| `LoadingScreen` | `src/components/LoadingScreen.tsx` | the progress ticker that climbs to 99 and schedules completion; the message rotation; the cleanup |
| `QuestionPage` | `src/pages/QuestionPage.tsx` | the No/Yes click handlers; the message cycle; the seed bands of each confetti burst |
| `IKnewIt` | `src/pages/IKnewItPage.tsx` | the press-and-hold heart; closing overlays with Escape; captions and the memory list; the looping gallery track |
| `FinalPage` | `src/pages/FinalPage.tsx` | the staged line reveal; the typewriter and its 9000 ms fallback; the destiny report text |
| `GlobalEffects` | `src/components/GlobalEffects.tsx` | the throttled cursor sparkles and their bounded list; timed removal; the floating names |
| `MusicPlayer` | `src/components/MusicPlayer.tsx` | the fade-in ramp; `forcePlay`; the mute toggle; the first-interaction listener; the `canplay` guard; the tap-to-play button |

Four shared modules support them.

- `Timers` models the host's `setTimeout`, `setInterval` and `clear*` as a value. It holds a clock, the next handle, and a map from handle to pending timer.
- `Slices` models JavaScript's `slice(-n)` and `slice(0, n)`.
- `Prng` records what `randomBetween(seed, lo, hi)` is called with.
- `Wrappers` holds an `Option` type.

Each component whose fields change in place is a class. A method stands for
each handler or timer callback, and the host delivers pending timers one at a
time, earliest first (`Timers.Queue.IsNext`). A React state update is an
assignment to a field. An effect re-runs as its old run's cleanup followed by
its new run. Callbacks leaving a component (`onYes`, `onComplete`, `alert`,
`play()` and so on) are appended to an `emitted` log. Whether a `play()`
promise is accepted is a parameter, and a rejection takes effect after the
handler's own updates, as the `catch` runs later. Volumes are integers in
hundredths: the element's 0..1 becomes 0..100, the ramp step is 5 and the
cap is 50.

Behaviour of the code that one might not expect:

- **Line reveal.** A line timeout assigns `index + 1` to the visible count; it does not take a maximum (`src/pages/FinalPage.tsx:70`). With in-order delivery the count still climbs by one each time (`FinalPage.LinesInOrder`).
- **Heart completion.** It is not once-only. Every press that ticks at 100 schedules `onHeartComplete` again (`src/pages/IKnewItPage.tsx:165-171`). The tick that stops is the first tick that sees 100, which is tick 51.
- **Fallback.** The typewriter's fallback is cancelled by its effect's cleanup as soon as the text's length leaves 0 (`src/pages/FinalPage.tsx:93-102`). When it does fire, it writes the whole report without checking anything.
- **Fade-in.** The first interaction changes `hasInteracted`, and un-muting changes `isMuted`. Each starts a 200 ms ramp, but the change re-runs the listener effect, whose cleanup clears the ramp before its first tick (`src/components/MusicPlayer.tsx:61-67`). So the volume stays at 0 until the delayed `forcePlay` lifts it to 0.5 (`MusicPlayer.Player.Commit`). A ramp runs to completion only when it starts without such a change, as from the tap-to-play button after an earlier rejection.
- **Teardown.** It does not clear every timer. The following survive it:
  - the typing start of the closing page;
  - the result and completion timeouts of the loading screen;
  - every timeout of the question page;
  - the hold intervals and completion of the heart page.

## Model

| member | source | states |
|---|---|---|
| `Timers.Queue.Arm` | src/App.tsx:57-60 | arming gives out a fresh handle and adds exactly that timer; clock and other timers untouched |
| `Timers.Queue.Cancel` | src/App.tsx:42 | clearing removes exactly that handle; clearing a handle that already fired or was cleared changes nothing |
| `Timers.Queue.CancelAll` | src/pages/IKnewItPage.tsx:177-183 | clearing a set of handles keeps exactly the other timers, unchanged |
| `Timers.Queue.Fire` | src/components/LoadingScreen.tsx:50-60 | delivering a timer moves the clock to its due time, and removes a timeout or re-arms an interval one period later |
| `Timers.Queue.AdvanceTo` | src/components/GlobalEffects.tsx:84 | time passes without any timer changing |
| `Timers.Start` | src/App.tsx:23-24 | a fresh timer table has nothing pending |
| `Timers.ArmTracks` | src/App.tsx:34-35 | re-arming after the tracked timer is gone makes the new handle the only one of its kind |
| `Timers.CancelTracked` | src/App.tsx:83-84 | clearing a ref's handle leaves no timer of its kind pending |
| `Timers.NextExists` | src/App.tsx:57-60 | whenever something is pending, the host has a timer it can deliver next |
| `Slices.TakeLast` | src/App.tsx:65-67 | `slice(-n)` keeps the last n elements, or all of a shorter sequence |
| `Slices.TakeFirst` | src/pages/FinalPage.tsx:87 | `slice(0, n)` is a prefix of length min(n, length) |
| `App.BumpScore` | src/App.tsx:120 | the score update never exceeds 999, adds exactly 1 below 999, stays at 999 once reached and never decreases |
| `App.ScoreAfterCounts` | src/App.tsx:131 | after n interactions from 0 the score is n, or 999 from the 999th on |
| `App.LowerChar` | src/App.tsx:65 | each upper-case ASCII letter becomes its own lower-case letter (code point + 32); every other character is kept |
| `App.ToLower` | src/App.tsx:65 | lower-casing keeps the length, turns each character into its lower-case form and leaves no upper-case ASCII letter |
| `App.ContainsOccurs` | src/App.tsx:70 | `includes` holds exactly when the word occurs at some index |
| `App.ShortContainsIsEqual` | src/App.tsx:64-70 | a buffer no longer than the word contains it exactly when it equals it |
| `App.GestureDetectors.constructor` | src/App.tsx:20-27 | mounting starts with every counter 0, an empty buffer and no timer pending |
| `App.GestureDetectors.TriggerEasterEgg` | src/App.tsx:32-39 | the page pulses; any pending reveal is cleared; one new reveal is due in 400 ms; the table is exactly the old one with the old reveal cleared and the new one armed, so no other timer appears |
| `App.GestureDetectors.ClearTapWindow` | src/App.tsx:42 | a tap first clears the pending reset: the table is exactly the old one without it |
| `App.GestureDetectors.CountEggTap` | src/App.tsx:44-48 | the fifth tap triggers the easter egg and resets the count to 0; on the fifth tap the table is exactly TriggerEasterEgg's; otherwise the count grows by one and nothing else changes |
| `App.GestureDetectors.CountHeartTap` | src/App.tsx:50-55 | the tenth tap shows the badge, schedules its hiding after 2500 ms and resets the count to 0; the table gains exactly that one hide on the tenth tap and is unchanged on any other |
| `App.GestureDetectors.ArmTapWindow` | src/App.tsx:57-60 | a tap ends by arming the one reset timer, 1000 ms from now: the table is exactly the old one plus that reset |
| `App.GestureDetectors.HandleTap` | src/App.tsx:41-61 | a tap leaves tapCount in 0..4 and heartCount in 0..9; egg and badge fire at exactly 5 and 10 taps; the old reset is gone and exactly one new reset is pending; the whole table is `TapTable` of the old one, so a click arms no timer beyond the reveal on the fifth tap, the badge hide on the tenth and the reset |
| `App.GestureDetectors.CountTaps` | src/App.tsx:44-55 | the two counts of a click in order: the table is exactly `CountTable` of the old one (the egg's reveal on the fifth tap, then the badge hide on the tenth) |
| `App.GestureDetectors.HandleKey` | src/App.tsx:63-74 | the buffer becomes the last 5 characters of the old buffer plus the lower-cased key; if that contains the secret word, the alert fires and the buffer empties; otherwise it is kept |
| `App.GestureDetectors.OnInteraction` | src/App.tsx:119-121 | the pages' interaction callback applies the clamped bump |
| `App.GestureDetectors.CloseEasterEgg` | src/App.tsx:150 | closing hides the easter egg |
| `App.GestureDetectors.Fire` | src/App.tsx:35-60 | the reset zeroes both counters; the reveal shows the easter egg and stops the pulse; the badge timeout hides the badge; nothing else changes |
| `App.GestureDetectors.Teardown` | src/App.tsx:79-85 | cleanup clears the reset and reveal timers and the pulse; only badge timeouts stay pending |
| `LoadingScreen.NextProgress` | src/components/LoadingScreen.tsx:58 | a climbing tick adds exactly 1 below 99 and never exceeds 99 |
| `LoadingScreen.ProgressAfterCounts` | src/components/LoadingScreen.tsx:50-60 | after n ticks from 0 progress is min(n, 99) |
| `LoadingScreen.ProgressMonotone` | src/components/LoadingScreen.tsx:58 | progress never decreases and never exceeds 99 |
| `LoadingScreen.FirstStopIsHundredth` | src/components/LoadingScreen.tsx:52-57 | ticks 1 to 99 climb, and tick 100 is the first that stops the ticker |
| `LoadingScreen.NextMessage` | src/components/LoadingScreen.tsx:63 | the message index stays in 0..4, steps by one and wraps from 4 to 0 |
| `LoadingScreen.MessageAfterCycles` | src/components/LoadingScreen.tsx:62-64 | after n rotations the index is n mod 5 |
| `LoadingScreen.Loader.constructor` | src/components/LoadingScreen.tsx:45-64 | mounting arms exactly the 50 ms ticker and the 1000 ms message interval |
| `LoadingScreen.Loader.Stop` | src/components/LoadingScreen.tsx:53-55 | the stopping tick clears the ticker and arms the result banner at 500 ms and completion at 2500 ms |
| `LoadingScreen.Loader.Tick` | src/components/LoadingScreen.tsx:50-60 | below 99 a tick climbs by one; a tick that sees 99 stops the ticker, schedules both completion timeouts, stays at 99 and, within one effect run, happens at most once |
| `LoadingScreen.Loader.RotateMessage` | src/components/LoadingScreen.tsx:62-64 | a message tick moves to the next of the five messages |
| `LoadingScreen.Loader.Finish` | src/components/LoadingScreen.tsx:54-55 | the banner timeout shows the result (discarded after unmount); the completion timeout calls onComplete even after unmount |
| `LoadingScreen.Loader.Teardown` | src/components/LoadingScreen.tsx:66-69 | cleanup clears both intervals and leaves the completion timeouts armed |
| `QuestionPage.NoMessage` | src/pages/QuestionPage.tsx:77 | the n-th No click shows one of the four messages |
| `QuestionPage.NoMessageCycles` | src/pages/QuestionPage.tsx:11-16 | clicks 1 to 4 show the messages in order; click n + 4 repeats click n; click n + 1 shows the next message mod 4 |
| `QuestionPage.NoOffset` | src/pages/QuestionPage.tsx:79-81 | the No button's offset after click n draws from seeds n and n + 50, both in [-50, 50] |
| `QuestionPage.Burst` | src/pages/QuestionPage.tsx:90-100 | a Yes click builds exactly 50 pieces with ids 0..49; piece id uses seeds k*1000+id, +100 and +200 |
| `QuestionPage.BurstBands` | src/pages/QuestionPage.tsx:92-98 | the x, y and rotate seeds of burst k lie in three bands of fifty |
| `QuestionPage.BandsDisjoint` | src/pages/QuestionPage.tsx:92-98 | within one burst no seed serves two axes |
| `QuestionPage.BurstsDisjoint` | src/pages/QuestionPage.tsx:88-98 | two different bursts share no seed |
| `QuestionPage.Page.constructor` | src/pages/QuestionPage.tsx:55-60 | the page starts with no clicks, no message, the button at the origin and no confetti |
| `QuestionPage.Page.NoClick` | src/pages/QuestionPage.tsx:73-84 | noClicks grows by exactly one; onInteraction is called once; the message and offset follow the count; one clear is armed at 2000 ms, and earlier clears are kept |
| `QuestionPage.Page.YesClick` | src/pages/QuestionPage.tsx:86-104 | the seed grows by exactly one; its burst is shown; onInteraction is called once; onYes is due 2000 ms later |
| `QuestionPage.Page.Fire` | src/pages/QuestionPage.tsx:83-103 | a clear empties the message (discarded after unmount); the Yes timeout calls onYes |
| `QuestionPage.Page.Unmount` | src/pages/QuestionPage.tsx:83 | leaving the page clears none of its timeouts |
| `IKnewIt.LastSegment` | src/pages/IKnewItPage.tsx:33 | `split("/").pop()` is the suffix after the last '/', or the whole path, and holds no '/' |
| `IKnewIt.Nickname` | src/pages/IKnewItPage.tsx:34 | a file name in the nickname map gets its nickname; any other is kept |
| `IKnewIt.ToCaption` | src/pages/IKnewItPage.tsx:32-35 | the caption is the nickname of the last path segment |
| `IKnewIt.SuffixLastSegment` | src/pages/IKnewItPage.tsx:33 | a name without '/' after a '/' (or alone) is the last segment |
| `IKnewIt.CaptionIgnoresFolder` | src/pages/IKnewItPage.tsx:32-35 | the caption depends only on the file name, not on its folder |
| `IKnewIt.LeTotal` | src/pages/IKnewItPage.tsx:38 | the comparison of paths is total |
| `IKnewIt.LeTransitive` | src/pages/IKnewItPage.tsx:38 | the comparison of paths is transitive |
| `IKnewIt.Insert` | src/pages/IKnewItPage.tsx:38 | inserting into a sorted list gives a sorted list with that one entry added |
| `IKnewIt.SortByPath` | src/pages/IKnewItPage.tsx:37-38 | the entries come out sorted by path, as a permutation of the input |
| `IKnewIt.Memories` | src/pages/IKnewItPage.tsx:37-43 | one memory per entry; ids 1..n; url and caption from the i-th entry in path order |
| `IKnewIt.MemoriesInPathOrder` | src/pages/IKnewItPage.tsx:37-43 | memory ids increase with path order, and every entry appears exactly once |
| `IKnewIt.Track` | src/pages/IKnewItPage.tsx:510 | the looping track is twice as long as the memory list |
| `IKnewIt.TrackRepeats` | src/pages/IKnewItPage.tsx:510-518 | card i of the track shows memory i mod n |
| `IKnewIt.HoldValue` | src/pages/IKnewItPage.tsx:166-174 | a tick below 100 adds exactly 2; a tick at 100 or over gives 100 |
| `IKnewIt.HoldAfterCounts` | src/pages/IKnewItPage.tsx:166-174 | after n ticks from 0 progress is min(2n, 100), even, within 0..100; tick 51 is the first that sees 100 |
| `IKnewIt.HoldMonotone` | src/pages/IKnewItPage.tsx:168-173 | progress never decreases over ticks |
| `IKnewIt.Topmost` | src/pages/IKnewItPage.tsx:121-140 | Escape's target is the open overlay of highest priority (selected photo, gallery, letter, gift), and none exactly when nothing is open |
| `IKnewIt.TopmostUnique` | src/pages/IKnewItPage.tsx:121-140 | the highest-priority open overlay is Escape's target, and closing it leaves one fewer open |
| `IKnewIt.Page.Open` | src/pages/IKnewItPage.tsx:93-98 | each of the four overlays is open exactly when its state says so |
| `IKnewIt.Page.constructor` | src/pages/IKnewItPage.tsx:93-100 | the page starts with no overlay open, progress 0, not pressing, memories from the glob |
| `IKnewIt.Page.Press` | src/pages/IKnewItPage.tsx:163-184 | a press marks the heart pressed and starts one more 50 ms interval with a once-only mouseup and touchend stop; earlier intervals keep running |
| `IKnewIt.Page.Tick` | src/pages/IKnewItPage.tsx:165-175 | every tick calls onInteraction once; below 100 progress grows by 2 and the interval keeps running; at 100 it clears itself and arms completion 1000 ms later |
| `IKnewIt.Page.Complete` | src/pages/IKnewItPage.tsx:170 | the completion timeout calls onHeartComplete |
| `IKnewIt.Page.Release` | src/pages/IKnewItPage.tsx:177-183 | a mouseup (or touchend) clears every interval still listening for it and releases the heart; progress is untouched |
| `IKnewIt.Page.HandleKey` | src/pages/IKnewItPage.tsx:117-145 | Escape closes exactly the highest-priority open overlay and nothing else; any other key changes nothing |
| `IKnewIt.Page.SetLetter` | src/pages/IKnewItPage.tsx:257 | the letter card opens (its close and backdrop close it); the other overlays are unchanged |
| `IKnewIt.Page.SetGallery` | src/pages/IKnewItPage.tsx:273 | the gallery card opens (its close and backdrop close it); the other overlays are unchanged |
| `IKnewIt.Page.SetGift` | src/pages/IKnewItPage.tsx:289 | the gift card opens (its close and backdrop close it); the other overlays are unchanged |
| `IKnewIt.Page.CloseSelected` | src/pages/IKnewItPage.tsx:545 | closing the photo removes only it from the open overlays |
| `IKnewIt.Page.SelectCard` | src/pages/IKnewItPage.tsx:510-518 | clicking card i of the open gallery selects memory i mod n and closes the gallery |
| `FinalPage.PercentTenths` | src/pages/FinalPage.tsx:60 | the percentage in tenths is 990 + score up to the cap 999, reached exactly from score 9 |
| `FinalPage.NatText` | src/pages/FinalPage.tsx:64 | a whole number prints as a non-empty string of digits |
| `FinalPage.NatTextRoundTrip` | src/pages/FinalPage.tsx:64 | the printed digits read back as the number, with no leading zero |
| `FinalPage.TenthsParts` | src/pages/FinalPage.tsx:64 | a sign for negatives, the whole part's digits, a point and one digit read back as the value in tenths |
| `FinalPage.CanonicalDigits` | src/pages/FinalPage.tsx:64 | a digit string with no leading zero is the printed text of the number it denotes |
| `FinalPage.TenthsText` | src/pages/FinalPage.tsx:64 | `toFixed(1)` prints a sign exactly for negatives, a non-empty whole part with no leading zero, a point and one decimal, which read back as the value |
| `FinalPage.TenthsTextUnique` | src/pages/FinalPage.tsx:64 | any text of that form that reads as the value is the text `toFixed(1)` prints |
| `FinalPage.Report` | src/pages/FinalPage.tsx:61-65 | the report is non-empty |
| `FinalPage.ReportPercent` | src/pages/FinalPage.tsx:60-65 | a score of 0..8 prints "99.0"..."99.8" in the report, and any higher score prints "99.9" |
| `FinalPage.LineOpacity` | src/pages/FinalPage.tsx:190 | line i is opaque exactly when more than i lines are visible |
| `FinalPage.LinesInOrder` | src/pages/FinalPage.tsx:68-72 | the line timeout delivered next is always the first waiting line, so the count goes up by one |
| `FinalPage.NoLineBefore` | src/pages/FinalPage.tsx:71-78 | nothing due after the last line slot is delivered while a line is waiting |
| `FinalPage.ArmLines` | src/pages/FinalPage.tsx:68-72 | the line loop arms line i at i * 1500 ms, and nothing else |
| `FinalPage.Mount` | src/pages/FinalPage.tsx:67-99 | the mount effects arm the four lines, the typing start at 6500 ms and the fallback at 9000 ms |
| `FinalPage.CancelLines` | src/pages/FinalPage.tsx:81 | the line cleanup clears exactly the line timeouts |
| `FinalPage.Page.constructor` | src/pages/FinalPage.tsx:43-102 | mounting shows no line and no text, and arms exactly the line, typing-start and fallback timeouts |
| `FinalPage.Page.RunTypingEffect` | src/pages/FinalPage.tsx:84-91 | the effect clears its old step, and arms one 30 ms step for the current length only while typing with text left |
| `FinalPage.Page.ClearFallback` | src/pages/FinalPage.tsx:93-102 | once text is typed the fallback is cleared and no fallback is pending |
| `FinalPage.Page.RevealLine` | src/pages/FinalPage.tsx:69-71 | line i's timeout fires only while mounted, when i lines are visible, and makes i + 1 visible |
| `FinalPage.Page.BeginTyping` | src/pages/FinalPage.tsx:74-79 | the typing start fires after all four lines are visible, starts typing with nothing typed, and arms the first step 30 ms later; the table is exactly the old one with the start delivered and that step added, so the fallback and the lines stay as they were; after unmount it changes nothing |
| `FinalPage.Page.TypeNext` | src/pages/FinalPage.tsx:85-88 | a step shows the report's prefix one character longer; the next step is pending, due 30 ms later, and the cursor shows, exactly while text remains; the fallback is cleared; the table is exactly that and nothing else |
| `FinalPage.Page.ShowFallback` | src/pages/FinalPage.tsx:96-99 | the fallback fires only with nothing typed, shows the whole report at once with no cursor, and leaves no step and no fallback pending |
| `FinalPage.Page.Teardown` | src/pages/FinalPage.tsx:81 | unmount clears the lines, the step and the fallback, and leaves exactly the typing start pending |
| `FinalPage.Page.Shown` | src/pages/FinalPage.tsx:211-213 | the box shows the placeholder while nothing is typed, and otherwise the typed text itself, a prefix of the report |
| `FinalPage.Page.CursorShown` | src/pages/FinalPage.tsx:214 | the cursor shows only while typing, and never once the whole report is shown |
| `GlobalEffects.SparkleInterval` | src/components/GlobalEffects.tsx:42-53 | "very-subtle" throttles at 120 ms, "noticeable" at 24, the default at 40 |
| `GlobalEffects.SparkleSize` | src/components/GlobalEffects.tsx:55-67 | the size draws from the heart's seed in [6,12], [12,26] or the default [10,20] |
| `GlobalEffects.FloatingNames` | src/components/GlobalEffects.tsx:28-40 | six names; item id draws from seed id + 1 with offsets 0, 100, 200, 300 and 400 |
| `GlobalEffects.Appended` | src/components/GlobalEffects.tsx:94-97 | the new list is the last ≤ 50 hearts followed by the new one, so at most 51 long with the new heart last |
| `GlobalEffects.AppendedIncreasing` | src/components/GlobalEffects.tsx:88-97 | appending the heart with the next id keeps ids strictly increasing |
| `GlobalEffects.Removed` | src/components/GlobalEffects.tsx:100 | filtering never lengthens the list |
| `GlobalEffects.RemovedMembers` | src/components/GlobalEffects.tsx:100 | the hearts left are exactly those whose id differs |
| `GlobalEffects.RemovedSplits` | src/components/GlobalEffects.tsx:100 | filtering keeps order: it works piecewise on a split list |
| `GlobalEffects.RemovedAbsent` | src/components/GlobalEffects.tsx:100 | removing an id no heart has changes nothing |
| `GlobalEffects.RemovedOne` | src/components/GlobalEffects.tsx:99-101 | with unique ids the removal drops exactly the one heart and keeps the others in order |
| `GlobalEffects.RemovedIncreasing` | src/components/GlobalEffects.tsx:100 | removal keeps ids strictly increasing |
| `GlobalEffects.AcceptKeeps` | src/components/GlobalEffects.tsx:84-101 | an accepted move keeps the invariant: ids count accepted moves, the seed runs one ahead, the list stays bounded with increasing ids, accepted times stay spaced |
| `GlobalEffects.SpacedPush` | src/components/GlobalEffects.tsx:84-86 | accepting a move at least the interval after the last keeps accepted moves spaced |
| `GlobalEffects.Sparkles.constructor` | src/components/GlobalEffects.tsx:75-78 | the list starts empty, with id 0, seed 1 and last time 0 |
| `GlobalEffects.Sparkles.HandleMove` | src/components/GlobalEffects.tsx:83-102 | a move sooner than the interval changes nothing; an accepted one advances seed and id by one, records the time, appends the new heart and arms its removal 1000 ms later |
| `GlobalEffects.Sparkles.SetIntensity` | src/components/GlobalEffects.tsx:80-106 | re-running the effect with a new intensity keeps the refs, the list and the pending removals |
| `GlobalEffects.Sparkles.Fire` | src/components/GlobalEffects.tsx:99-101 | a removal drops exactly the hearts with its id (discarded after unmount) |
| `GlobalEffects.Sparkles.Wait` | src/components/GlobalEffects.tsx:84 | the clock advances and nothing else changes |
| `GlobalEffects.Sparkles.Teardown` | src/components/GlobalEffects.tsx:105 | unmount detaches the listener; pending removals stay armed |
| `MusicPlayer.RampStep` | src/components/MusicPlayer.tsx:37 | a ramp tick gives the level plus 5 or the cap 50, whichever is smaller: at most both and equal to one of them |
| `MusicPlayer.ForcedVolume` | src/components/MusicPlayer.tsx:17 | forcePlay never lowers the volume and leaves it at least 50 |
| `MusicPlayer.RampMonotone` | src/components/MusicPlayer.tsx:35-43 | the ramp's counter starts at 0, never decreases and stays ≤ 50 |
| `MusicPlayer.Player.constructor` | src/components/MusicPlayer.tsx:7-11 | the player starts unmuted, not interacted, tap-to-play shown, no ramp |
| `MusicPlayer.Player.ForcePlayAudio` | src/components/MusicPlayer.tsx:13-21 | with an element: un-mute, volume max(v, 50), play, rejected exactly when play is; without one, nothing |
| `MusicPlayer.Player.StartFadeIn` | src/components/MusicPlayer.tsx:23-44 | with an element: clear the running ramp, un-mute, volume 0, play, arm exactly one new 200 ms ramp from 0 (the table is the old one with the old ramp cleared and the new one armed); without one, nothing |
| `MusicPlayer.Player.ArmForcePlay` | src/components/MusicPlayer.tsx:52 | a delayed forcePlay is armed and the ramp ref still tracks its interval |
| `MusicPlayer.Player.ClearRamp` | src/components/MusicPlayer.tsx:79-82 | the ramp's interval is cleared and its ref nulled; no ramp is pending |
| `MusicPlayer.Player.Resume` | src/components/MusicPlayer.tsx:75-78 | a fade starts, forcePlay is armed after the delay, tap-to-play is hidden unless play is rejected; the table is exactly `FadeTable` of the old one |
| `MusicPlayer.Player.ToggleMute` | src/components/MusicPlayer.tsx:69-86 | with an element the mute flips; un-muting resumes with forcePlay at 200 ms and the table is exactly `FadeTable` of the old one; muting clears the ramp and keeps the volume and the ramp counter; both mark an interaction; without an element nothing changes |
| `MusicPlayer.Player.HandleInteraction` | src/components/MusicPlayer.tsx:47-55 | only before any interaction and with an element: mark it, un-mute, fade, forcePlay at 400 ms, hide tap-to-play, with the table exactly `FadeTable` of the old one; otherwise nothing |
| `MusicPlayer.Player.TapToPlay` | src/components/MusicPlayer.tsx:104-110 | marks the interaction, un-mutes, fades, arms forcePlay at 200 ms and hides the button unless play is rejected; with an element the table is exactly `FadeTable` of the old one, and without one it gains only the forcePlay |
| `MusicPlayer.Player.CanPlay` | src/components/MusicPlayer.tsx:96-98 | forcePlay happens exactly when interacted and not muted |
| `MusicPlayer.Player.Fire` | src/components/MusicPlayer.tsx:36-43 | a timer is delivered only after the listener effect has caught up with the last render; a ramp tick writes its own counter as the volume and clears the ramp at the cap; a delayed forcePlay lifts the volume and shows tap-to-play if rejected |
| `MusicPlayer.Player.Commit` | src/components/MusicPlayer.tsx:61-67 | when hasInteracted or isMuted changed, the listener effect's cleanup clears the ramp's interval (leaving its ref set), so no ramp tick is pending afterwards |
| `MusicPlayer.Player.Unmount` | src/components/MusicPlayer.tsx:61-66 | unmount clears the ramp; no ramp stays pending |

## Left out

- `src/utils/prng.ts` computes its value with a floating-point `Math.sin` hash, and that body is not part of this model: a draw is recorded by its seed and range (`Prng.Draw`), so only which seeds are used is proved.
- The `create*Hearts` builders of every page, the celebration hearts and `src/components/EasterEgg.tsx` are presentation only and are not modelled.
- Floating-point quantities other than the report's percentage: button scales, the parallax transform of `src/pages/FinalPage.tsx:104-116`. The percentage is modelled exactly in tenths for integer scores, which are the only ones the app passes.
- `MusicPlayer.Player.Fire`: the model counts the ramp in exact hundredths, so it reaches the cap and clears the ramp at tick 10 (2000 ms). The source adds `0.05` in binary floating point: tick 10 gives 0.49999999999999994, so the source's ramp writes 0.5 and clears itself only at tick 11 (2200 ms). `MusicPlayer.RampAfter` counts in the same exact hundredths.
- DOM plumbing is not modelled: `addEventListener` bookkeeping beyond once-only listeners, `document.body.classList` (kept as one flag), `alert` (an emitted event), focus effects, the QR code, router navigation (emitted callbacks), event bubbling between components.
- `import.meta.glob` is an input: the page takes the glob's `[path, url]` entries as a parameter.
- `localeCompare` is replaced by code-point lexicographic order, a total order; locale collation rules are not modelled.
- `toLowerCase` is modelled for ASCII letters only; Unicode case mapping is not.
- `App.GestureDetectors.HandleKey`: `slice(-5)` counts UTF-16 code units, whereas the model's `Slices.TakeLast` counts characters. They differ for keys outside the Basic Multilingual Plane, such as emoji, which the source can cut in half.
- React scheduling: render batching, stale closures, StrictMode's double invocation of updaters. Each handler or timer callback is one atomic transition. The closing page's typing and fallback effects re-run on each state change. The music player's listener effect re-runs through `MusicPlayer.Player.Commit`, and `MusicPlayer.Player.Fire`, `ToggleMute`, `HandleInteraction`, `TapToPlay` and `CanPlay` all require that commit to have happened, as React commits after each discrete event and long before a 200 ms tick.
- LoadingScreen: re-running its effect when the `onComplete` prop changes identity is not modelled, and the component is modelled for one effect run. App re-renders during loading when a tap reveals the easter egg or shows the heart badge (`src/App.tsx:36`, `src/App.tsx:52`). Each re-render creates a new `onComplete` (`src/App.tsx:111`), so the effect (`src/components/LoadingScreen.tsx:70`) restarts both intervals. After the stop, the new ticker's first tick sees 99 and schedules a second banner and a second `onComplete`. The model does not capture this.
- The heart page's unmount is not modelled: nothing in it clears its intervals or completion timeout, so unmount would change no timer.
- The JSX `muted={isMuted}` prop re-syncing the element on render is not modelled; only the handlers' own writes to `audio.muted` are.
- `FinalPage.Report`: its own contract says only that the report is non-empty; its content is stated by `FinalPage.ReportPercent`.
- `GlobalEffects.Removed`: its own contract bounds only the length; what it keeps is stated by `RemovedMembers`, `RemovedSplits` and `RemovedOne`.
- `IKnewIt.Track`: its own contract gives only the length; which memory each card shows is stated by `IKnewIt.TrackRepeats`.
- The commented-out gallery grid of `src/pages/IKnewItPage.tsx:299-329` is not live code and is not modelled.
