# Agency landing page — interactive sections

This project models the state machines behind four sections of a single-page
agency site built with React and framer-motion:

- **Selected projects** (`selected_projects.dfy`): a carousel of five project cards.
  It has a wrap-around `go(±1)`, keyboard navigation (ArrowLeft, ArrowRight,
  Escape), a pointer swipe with a 70 px threshold, and a video modal that opens
  and closes.
- **Hero** (`hero.dfy`): the `useTypeLoop` typewriter hook. Each timer firing
  types one character (90 ms) or deletes one (55 ms). The hook holds 900 ms on
  the full word and 220 ms on the empty label, then moves on to the next word.
  In the table below, L is the length of the current word.
- **Way we work / How we help** (`way_we_work.dfy`):
  - the air-pill drift direction and its three keyframe offsets;
  - the tab board, whose row shows the active tab first and then the other
    tabs in ascending order of their two-digit number.
- **Navbar** (`navbar.dfy`): the burger menu's `menuOpen` flag. It closes on a
  link click, on a resize to desktop width, on a pointer-down outside the
  navigation, and on scroll. Window listeners only take effect after mount.

Where the source mutates state in place, the model uses a class whose methods
are proved against pure specification functions:

- React cells and refs become class fields: `Carousel`, `TypeLoop`,
  `NavMenu` and `TabBoard`.
- The pure specifications are `Wrap`, `SwipeStep`, `Next`/`Delay`, `Handle`
  and `IsOrdering`.
- The sort that `Array.prototype.sort` performs in place is an in-place
  insertion sort on an `array`.

Timers and DOM events are not modelled as such. Each handler or timer callback
is a method the caller invokes, and the timer's delay is returned as a value.
`Option` lives in `wrappers.dfy`.

## Model

| member | source | states |
|---|---|---|
| SelectedProjects.Projects | src/components/sections/SelectedProjects.tsx:30-64 | the carousel holds five projects |
| SelectedProjects.JsRem | src/components/sections/SelectedProjects.tsx:78 | JavaScript's `%`: the remainder has the dividend's sign and magnitude below `n`; it equals Dafny's `%` on non-negative dividends, and a small negative dividend is its own remainder |
| SelectedProjects.Wrap | src/components/sections/SelectedProjects.tsx:73-82 | `(i + d + n) % n` stays in `[0, n)`; next from the last card is 0, previous from 0 is `n - 1`, otherwise ±1 |
| SelectedProjects.BackFromFirst | src/components/sections/SelectedProjects.tsx:30-82 | on the five projects, previous from card 0 is card 4 |
| SelectedProjects.NextThenPrev | src/components/sections/SelectedProjects.tsx:76-79 | next then previous (and previous then next) returns to the same card |
| SelectedProjects.AdvanceAdd | src/components/sections/SelectedProjects.tsx:76-79 | `a` nexts followed by `b` nexts equal `a + b` nexts |
| SelectedProjects.FullTurn | src/components/sections/SelectedProjects.tsx:76-79 | `n` nexts from any card return to that card |
| SelectedProjects.SwipeStep | src/components/sections/SelectedProjects.tsx:112-130 | a release moves only if both positions were recorded and `abs(dx) >= 70`; `dx <= -70` means next, `dx >= 70` means previous |
| SelectedProjects.SwipeThresholdExamples | src/components/sections/SelectedProjects.tsx:123-129 | 69 px either way is a tap; 70 or 71 px leftwards is next and 71 px rightwards is previous |
| SelectedProjects.Carousel.constructor | src/components/sections/SelectedProjects.tsx:66-71 | starts at card 0 with direction 1, modal closed, no drag in progress |
| SelectedProjects.Carousel.Active | src/components/sections/SelectedProjects.tsx:69 | the project shown is one of the carousel's projects |
| SelectedProjects.Carousel.Go | src/components/sections/SelectedProjects.tsx:73-82 | records the direction and moves the index by `Wrap`; nothing else changes |
| SelectedProjects.Carousel.OpenModal | src/components/sections/SelectedProjects.tsx:290 | clicking the card opens the modal |
| SelectedProjects.Carousel.CloseModal | src/components/sections/SelectedProjects.tsx:353 | the backdrop and close button close the modal |
| SelectedProjects.Carousel.OnKey | src/components/sections/SelectedProjects.tsx:85-90 | ArrowRight goes next and ArrowLeft previous; Escape closes the modal whether or not it is open; any other key changes nothing |
| SelectedProjects.Carousel.OnPointerDown | src/components/sections/SelectedProjects.tsx:100-105 | starts a drag and records the start and last position |
| SelectedProjects.Carousel.OnPointerMove | src/components/sections/SelectedProjects.tsx:107-110 | updates the last position only while dragging |
| SelectedProjects.Carousel.OnPointerUp | src/components/sections/SelectedProjects.tsx:112-130 | when not dragging, nothing changes; otherwise it ends the drag, clears both positions and goes the way `SwipeStep` says; the card runs the same handler on pointer cancel (line 264) |
| Hero.Current | src/components/sections/Hero.tsx:24 | the word at the index, or "" past the end of the list; either way "" or one of the words |
| Hero.Slice | src/components/sections/Hero.tsx:52-53 | `slice(0, k)` is a prefix of the word of length `min(k, L)` |
| Hero.NextWord | src/components/sections/Hero.tsx:44 | the next index is `(i + 1) % count` and stays below `count` |
| Hero.NextText | src/components/sections/Hero.tsx:50-55 | the new label is a prefix of the word; typing adds the word's next character and deleting drops the last one |
| Hero.PhaseOfCases | src/components/sections/Hero.tsx:34-56 | `PhaseOf` puts each state in exactly one phase: holding the full word in typing mode, holding the empty label in delete mode, deleting a non-empty label, or typing an incomplete one |
| Hero.Next | src/components/sections/Hero.tsx:34-58 | a firing moves to another word only with an empty label in typing mode, and a change of mode keeps the label |
| Hero.NextCases | src/components/sections/Hero.tsx:34-58 | only the pause on the empty label moves to the next word; the mode flips exactly at the two holds; otherwise the label takes one `NextText` step of the current word |
| Hero.Delay | src/components/sections/Hero.tsx:26-58 | the scheduled wait is one of 90, 55, 900 or 220 ms |
| Hero.InitInv | src/components/sections/Hero.tsx:20-24 | the initial cells show a prefix of the current word |
| Hero.NextInv | src/components/sections/Hero.tsx:34-58 | every firing keeps the label a prefix of the current word and the index in range |
| Hero.NextChanges | src/components/sections/Hero.tsx:34-58 | under the invariant every firing changes a cell, so each render schedules exactly one further timer, which is what `Run` iterates |
| Hero.RunAdd | src/components/sections/Hero.tsx:26-59 | `a` firings followed by `b` firings equal `a + b` firings |
| Hero.TypingPhase | src/components/sections/Hero.tsx:49-56 | from an empty label, `k` firings type exactly the first `k` characters |
| Hero.DeletingPhase | src/components/sections/Hero.tsx:49-56 | from a full word in delete mode, `k` firings leave the first `L - k` characters |
| Hero.WordCycle | src/components/sections/Hero.tsx:35-56 | after `L + 1` firings the full word is held in delete mode; after `2L + 2` the label is empty and the next word begins |
| Hero.WelcomeLoop | src/components/sections/Hero.tsx:66 | the hero label shows "", "W", ..., "WELCOME", then deletes back to "" and returns to the start after 16 firings |
| Hero.OneWordPeriodic | src/components/sections/Hero.tsx:35-56 | a one-word list, such as the hero's `["WELCOME"]`, repeats with period `2L + 2` firings (16 for WELCOME) |
| Hero.TypingTime | src/components/sections/Hero.tsx:56 | typing `k` characters takes `k * 90` ms |
| Hero.DeletingTime | src/components/sections/Hero.tsx:56 | deleting `k` characters takes `k * 55` ms |
| Hero.RiseTime | src/components/sections/Hero.tsx:29-36 | typing a word and holding it takes `L * 90 + 900` ms |
| Hero.FallTime | src/components/sections/Hero.tsx:30-45 | deleting a word and the pause after it take `L * 55 + 220` ms |
| Hero.WordCycleTime | src/components/sections/Hero.tsx:26-58 | one whole word, `2(L + 1)` firings, takes `L * 90 + 900` plus `L * 55 + 220` ms, that is `L * 145 + 1120` |
| Hero.WelcomeTime | src/components/sections/Hero.tsx:66 | one turn of the hero label takes 2135 ms |
| Hero.TypeLoop.constructor | src/components/sections/Hero.tsx:20-22 | index 0, empty label, typing mode |
| Hero.TypeLoop.Tick | src/components/sections/Hero.tsx:26-58 | returns the wait the timer was scheduled with and moves the cells to `Next`; the invariant is preserved |
| Navbar.CloseAll | src/components/sections/Navbar.tsx:23-25 | closes the menu and leaves `mounted` alone |
| Navbar.Handle | src/components/sections/Navbar.tsx:23-61 | only Mount sets `mounted`; window events before mount change nothing; only the burger can open the menu |
| Navbar.DismissalPolicy | src/components/sections/Navbar.tsx:32-52 | once mounted, resize to 1024 px or wider, an outside pointer-down and scroll close the menu; a narrower resize and an inside pointer-down keep it |
| Navbar.BurgerFlips | src/components/sections/Navbar.tsx:223 | the burger toggles the menu, and two clicks restore it |
| Navbar.NoBurgerNoOpen | src/components/sections/Navbar.tsx:17-61 | a closed menu stays closed through any events without a burger click |
| Navbar.InertBeforeMount | src/components/sections/Navbar.tsx:27-61 | before mount, window events change nothing |
| Navbar.NavMenu.constructor | src/components/sections/Navbar.tsx:17-18 | starts unmounted with the menu closed |
| Navbar.NavMenu.OnMount | src/components/sections/Navbar.tsx:27 | the state moves as `Handle` says for Mount |
| Navbar.NavMenu.CloseAll | src/components/sections/Navbar.tsx:23-25 | closes the menu |
| Navbar.NavMenu.OnBurgerClick | src/components/sections/Navbar.tsx:223 | toggles the menu |
| Navbar.NavMenu.OnLinkClick | src/components/sections/Navbar.tsx:169 | closes the menu |
| Navbar.NavMenu.OnResize | src/components/sections/Navbar.tsx:32-34 | after mount, a width of 1024 or more closes the menu |
| Navbar.NavMenu.OnPointerDown | src/components/sections/Navbar.tsx:44-48 | after mount, with the wrapper attached, a pointer-down outside it closes the menu |
| Navbar.NavMenu.OnScroll | src/components/sections/Navbar.tsx:50-52 | after mount, scrolling closes an open menu |
| Navbar.NavMenu.Dispatch | src/components/sections/Navbar.tsx:23-61 | any event moves the state as `Handle` says |
| WayWeWork.TrailDir | src/components/sections/WayWeWork.tsx:187 | right is 1, left is -1, none is 0 |
| WayWeWork.XStops | src/components/sections/WayWeWork.tsx:189-193 | three offsets: centred at the midpoint, opposite at the two ends, and the first is `dir * strength` for the trail's `dir` |
| WayWeWork.PillStops | src/components/sections/WayWeWork.tsx:177-193 | a right pill drifts from `+strength` to `-strength`, a left pill the other way, and an untrailed pill stays at 0 |
| WayWeWork.Tabs | src/components/sections/WayWeWork.tsx:264-285 | the board holds five tabs |
| WayWeWork.TabsAreFive | src/components/sections/WayWeWork.tsx:264-285 | the tabs are t1 to t5 with numbers "01" to "05", in that order |
| WayWeWork.LexLe | src/components/sections/WayWeWork.tsx:292 | a prefix orders first, and a longer string after its proper prefix |
| WayWeWork.NumberLe | src/components/sections/WayWeWork.tsx:292 | the comparator relates any two tabs one way or the other |
| WayWeWork.LexLeTotal | src/components/sections/WayWeWork.tsx:292 | the comparator orders any two strings one way or the other |
| WayWeWork.LexLeTrans | src/components/sections/WayWeWork.tsx:292 | the comparator is transitive |
| WayWeWork.LexLeAntisym | src/components/sections/WayWeWork.tsx:292 | strings that compare both ways are equal |
| WayWeWork.Find | src/components/sections/WayWeWork.tsx:290 | finds a tab exactly when one has the id, and the tab found has that id |
| WayWeWork.FindIsFirst | src/components/sections/WayWeWork.tsx:290 | the tab found is the first with the id |
| WayWeWork.Rest | src/components/sections/WayWeWork.tsx:291 | the filter never lengthens the list, and no tab it keeps has the active id |
| WayWeWork.RestCounts | src/components/sections/WayWeWork.tsx:291 | the filter drops every tab with the active id and keeps every other tab as often as it occurs |
| WayWeWork.SortByNumber | src/components/sections/WayWeWork.tsx:292 | after the sort the array is ordered by number and is a permutation of its old contents |
| WayWeWork.InsertLast | src/components/sections/WayWeWork.tsx:292 | inserting the next element into the sorted prefix keeps it sorted and permutes the array |
| WayWeWork.Ordered | src/components/sections/WayWeWork.tsx:289-294 | the row is the active tab followed by the other tabs sorted by number |
| WayWeWork.OrderingIsPermutation | src/components/sections/WayWeWork.tsx:264-294 | with unique ids, the row shows every tab exactly once |
| WayWeWork.PreviousActiveIsClosed | src/components/sections/WayWeWork.tsx:287-330 | after another tab is clicked, the previously active tab appears among the closed columns |
| WayWeWork.UniqueIdsCount | src/components/sections/WayWeWork.tsx:264-285 | with unique ids each tab occurs once |
| WayWeWork.SortedUnique | src/components/sections/WayWeWork.tsx:292 | two number-sorted permutations of tabs with distinct numbers are equal |
| WayWeWork.OrderingUnique | src/components/sections/WayWeWork.tsx:289-294 | with distinct numbers the row is determined, so sort stability cannot matter |
| WayWeWork.FiveTabsDistinct | src/components/sections/WayWeWork.tsx:264-285 | the five tabs have distinct numbers |
| WayWeWork.FirstTabRow | src/components/sections/WayWeWork.tsx:287-294 | with t1 active, the row is t1 to t5 in order |
| WayWeWork.InitialRow | src/components/sections/WayWeWork.tsx:287-294 | any valid row for the initial active tab is t1 to t5 |
| WayWeWork.ThirdTabRow | src/components/sections/WayWeWork.tsx:289-294 | with t3 active, the row is t3, t1, t2, t4, t5 |
| WayWeWork.ThirdTabClicked | src/components/sections/WayWeWork.tsx:330 | clicking t3's closed column yields the row t3, t1, t2, t4, t5 |
| WayWeWork.TabBoard.constructor | src/components/sections/WayWeWork.tsx:287 | the first tab starts active |
| WayWeWork.TabBoard.Select | src/components/sections/WayWeWork.tsx:330 | clicking a closed column makes its id active |
| WayWeWork.TabBoard.View | src/components/sections/WayWeWork.tsx:289-296 | the row shown is a valid ordering for the active id |

## Left out

- Animations are not modelled: framer-motion springs, `useTransform` interpolation between keyframes, the opacity keyframes, label variants, the lightning path and all styling.
- Timers and event listeners are not modelled as objects. Registering, cleaning up and re-scheduling them on each render is left out; a timer firing or an event is a method call.
- `setPointerCapture` and the DOM's `contains` are not modelled. The navbar's outside test is abstracted to two booleans: whether the wrapper is attached and whether the target is inside it.
- `clientX` is modelled as a `real`. The swipe test is exact, with no floating-point rounding.
- The tab panel's description and bullet texts are not modelled. They never reach the ordering.
- WayWeWork.LexLe: `localeCompare` is modelled as plain character order. The numbers compared are always two ASCII digits, where both orders agree.
- Strings are sequences of Unicode characters, whereas JavaScript's `length`, `slice` and comparison count UTF-16 code units. The two agree only for text without characters outside the Basic Multilingual Plane, which covers every literal in the source ("WELCOME", the tab numbers, the ids and the keys). For a word with such a character the hook would take two typing firings per character and briefly show a lone surrogate; `TypingPhase`, `TypingTime` and `WordCycleTime` do not model that.
- WayWeWork.SortByNumber: the sort is an insertion sort, not the engine's algorithm. `OrderingUnique` shows that the row does not depend on which algorithm runs when numbers are distinct.
- WayWeWork.Ordered requires that a tab with the active id exists. The source asserts this with `!`, and every id it can set comes from the tab list.
- WayWeWork.XStops: strength is an integer. `0 * -strength` gives `-0` in JavaScript, which renders the same as 0.
- Hero.NextWord: an empty word list gives `NaN` for `(i + 1) % 0` in JavaScript. The model keeps index 0 instead; either way the current word is "".
- The page shell (`layout.tsx`, `page.tsx`) and the sections' static markup are not part of this model.
- The navigation has no language selector and no exclusive dropdowns. Only the burger menu exists, so those are not modelled.
- The service pills are animated only by scroll progress; there is no free drag on them.
- Escape clears the modal flag whether or not the modal is open.
