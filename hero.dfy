/** The typewriter label of the hero section: the `useTypeLoop` hook of
    src/components/sections/Hero.tsx.

    The hook keeps three state cells (`wordIndex`, `text`, `deleting`) and,
    after every render, schedules exactly one timer; when that timer fires it
    overwrites some of the cells. Each timer firing is modelled as one atomic
    step: `Next` is the pure transition, `Delay` the wait that was scheduled
    before it, and the class `TypeLoop` holds the cells and performs the step. */
module Hero {

  /** Milliseconds between two typed characters. */
  const TypeSpeed: nat := 90
  /** Milliseconds between two deleted characters. */
  const DeleteSpeed: nat := 55
  /** Milliseconds the completed word stays on screen. */
  const HoldAfterType: nat := 900
  /** Milliseconds the empty label stays on screen before the next word. */
  const HoldAfterDelete: nat := 220

  /** The three state cells of the hook. */
  datatype LoopState = LoopState(wordIndex: nat, text: string, deleting: bool)

  /** The state right after mount. */
  const Init := LoopState(0, "", false)

  /** `words[wordIndex] ?? ""`: the word at the index, or "" past the end. */
  function Current(words: seq<string>, wordIndex: nat): (r: string)
    ensures wordIndex < |words| ==> r == words[wordIndex]
    ensures wordIndex >= |words| ==> r == ""
    ensures r == "" || r in words
  {
    if wordIndex < |words| then words[wordIndex] else ""
  }

  /** `s.slice(0, k)` for a non-negative `k`: JavaScript clamps `k` to the length. */
  function Slice(s: string, k: nat): (r: string)
    ensures r <= s
    ensures |r| == if k <= |s| then k else |s|
  {
    if k <= |s| then s[..k] else s
  }

  /** `(i + 1) % words.length`. For an empty list JavaScript yields NaN, after
      which `words[NaN] ?? ""` is "" exactly as `words[0] ?? ""` is, so the
      model keeps the index at 0 there. */
  function NextWord(i: nat, count: nat): (r: nat)
    ensures count > 0 ==> r < count
    ensures count > 0 && i + 1 < count ==> r == i + 1
    ensures count > 0 && i + 1 == count ==> r == 0
  {
    if count == 0 then 0 else (i + 1) % count
  }

  /** The text a typing or deleting step writes (lines 51-53 of Hero.tsx). */
  function NextText(current: string, text: string, deleting: bool): (r: string)
    // the label only ever shows a prefix of the current word
    ensures r <= current
    // typing grows a prefix by exactly the next character of the word
    ensures !deleting && text <= current && |text| < |current| ==> r == text + [current[|text|]]
    // deleting drops exactly the last character ...
    ensures deleting && text <= current && text != [] ==> r == text[..|text| - 1]
    // ... and never goes below the empty string
    ensures deleting && text == [] ==> r == []
  {
    if deleting then
      Slice(current, if |text| - 1 < 0 then 0 else |text| - 1)
    else
      Slice(current, |text| + 1)
  }

  /** The four phases the effect distinguishes when it picks its timer. */
  datatype Phase = Typing | HoldTyped | Deleting | HoldDeleted

  /** The effect's case analysis (lines 35 and 41): the two holds are tested
      first; `PhaseOfCases` characterises each phase. */
  function PhaseOf(words: seq<string>, s: LoopState): Phase
  {
    var current := Current(words, s.wordIndex);
    if !s.deleting && s.text == current then HoldTyped
    else if s.deleting && s.text == "" then HoldDeleted
    else if s.deleting then Deleting
    else Typing
  }

  /** Each state is in exactly one phase, fixed by the mode and by whether
      the label is full (typing) or empty (deleting). */
  lemma PhaseOfCases(words: seq<string>, s: LoopState)
    ensures PhaseOf(words, s) == HoldTyped <==> !s.deleting && s.text == Current(words, s.wordIndex)
    ensures PhaseOf(words, s) == HoldDeleted <==> s.deleting && s.text == ""
    ensures PhaseOf(words, s) == Deleting <==> s.deleting && s.text != ""
    ensures PhaseOf(words, s) == Typing <==> !s.deleting && s.text != Current(words, s.wordIndex)
  {
  }

  /** The delay of the one timer scheduled in state `s` (lines 27-30, 36, 45, 56). */
  function Delay(words: seq<string>, s: LoopState): (ms: nat)
    ensures ms in {TypeSpeed, DeleteSpeed, HoldAfterType, HoldAfterDelete}
  {
    match PhaseOf(words, s)
    case HoldTyped => HoldAfterType
    case HoldDeleted => HoldAfterDelete
    case Deleting => DeleteSpeed
    case Typing => TypeSpeed
  }

  /** What the scheduled timer does when it fires: the word changes only to
      start it afresh in typing mode, and a change of mode keeps the label. */
  function Next(words: seq<string>, s: LoopState): (r: LoopState)
    ensures r.wordIndex != s.wordIndex ==> r.text == "" && !r.deleting
    ensures r.deleting != s.deleting ==> r.text == s.text
  {
    var current := Current(words, s.wordIndex);
    match PhaseOf(words, s)
    case HoldTyped => s.(deleting := true)
    case HoldDeleted => LoopState(NextWord(s.wordIndex, |words|), s.text, false)
    case _ => s.(text := NextText(current, s.text, s.deleting))
  }

  /** The firing by phase: only the pause on the empty label moves to the
      next word, the mode flips exactly at the two holds, and otherwise the
      label takes one typing or deleting step of the current word. */
  lemma NextCases(words: seq<string>, s: LoopState)
    ensures PhaseOf(words, s) == HoldDeleted ==> Next(words, s) == LoopState(NextWord(s.wordIndex, |words|), "", false)
    ensures PhaseOf(words, s) != HoldDeleted ==> Next(words, s).wordIndex == s.wordIndex
    ensures Next(words, s).deleting != s.deleting <==> PhaseOf(words, s) in {HoldTyped, HoldDeleted}
    ensures Next(words, s).text != s.text ==> Next(words, s).text == NextText(Current(words, s.wordIndex), s.text, s.deleting)
  {
  }

  /** The hook's invariant: the index names a word (or is 0 for an empty list)
      and the label shows a prefix of that word. */
  ghost predicate Inv(words: seq<string>, s: LoopState)
  {
    && (s.wordIndex < |words| || (|words| == 0 && s.wordIndex == 0))
    && s.text <= Current(words, s.wordIndex)
  }

  /** `k` applications of `step` to `s`. */
  function Iterate(step: LoopState -> LoopState, s: LoopState, k: nat): LoopState
  {
    if k == 0 then s else step(Iterate(step, s, k - 1))
  }

  /** The timer firing as a function value. */
  function Step(words: seq<string>): LoopState -> LoopState
  {
    s => Next(words, s)
  }

  /** `k` timer firings from `s`. */
  function Run(words: seq<string>, s: LoopState, k: nat): LoopState
  {
    Iterate(Step(words), s, k)
  }

  lemma InitInv(words: seq<string>)
    ensures Inv(words, Init)
  {
  }

  lemma NextInv(words: seq<string>, s: LoopState)
    requires Inv(words, s)
    ensures Inv(words, Next(words, s))
  {
  }

  /** Every firing changes a cell, so React re-renders and the effect
      schedules exactly one further timer: the premise of `Run`. */
  lemma NextChanges(words: seq<string>, s: LoopState)
    requires Inv(words, s)
    ensures Next(words, s) != s
  {
  }

  /** Iterating `a` and then `b` times is iterating `a + b` times. */
  lemma {:induction false} IterateAdd(step: LoopState -> LoopState, s: LoopState, a: nat, b: nat)
    ensures Iterate(step, s, a + b) == Iterate(step, Iterate(step, s, a), b)
  {
    if b > 0 {
      IterateAdd(step, s, a, b - 1);
    }
  }

  /** Running `a` and then `b` steps is running `a + b` steps. */
  /** A state that `step` returns to after `p` steps recurs every `p` steps. */
  lemma {:induction false} IteratePeriodic(step: LoopState -> LoopState, s: LoopState, p: nat, m: nat, k: nat)
    requires Iterate(step, s, p) == s
    ensures Iterate(step, s, p * m + k) == Iterate(step, s, k)
  {
    if m > 0 {
      IteratePeriodic(step, s, p, m - 1, k);
      IterateAdd(step, s, p, p * (m - 1) + k);
      assert p * m + k == p + (p * (m - 1) + k);
    }
  }

  lemma RunAdd(words: seq<string>, s: LoopState, a: nat, b: nat)
    ensures Run(words, s, a + b) == Run(words, Run(words, s, a), b)
  {
    IterateAdd(Step(words), s, a, b);
  }

  /** Firing `a` times to reach `mid`, then `b` times to reach `t`, reaches `t`. */
  lemma RunThen(words: seq<string>, s: LoopState, mid: LoopState, t: LoopState, a: nat, b: nat)
    requires Run(words, s, a) == mid && Run(words, mid, b) == t
    ensures Run(words, s, a + b) == t
  {
    RunAdd(words, s, a, b);
  }

  /** Reaching `mid` after `a` firings, one more firing reaches its successor. */
  lemma RunOneMore(words: seq<string>, s: LoopState, mid: LoopState, t: LoopState, a: nat)
    requires Run(words, s, a) == mid && Next(words, mid) == t
    ensures Run(words, s, a + 1) == t
  {
    RunSucc(words, s, a);
  }

  /** One more step is one more firing of the timer. */
  /** A state the loop returns to after `p` firings recurs every `p` firings. */
  lemma RunPeriodic(words: seq<string>, s: LoopState, p: nat, m: nat, k: nat)
    requires Run(words, s, p) == s
    ensures Run(words, s, p * m + k) == Run(words, s, k)
  {
    IteratePeriodic(Step(words), s, p, m, k);
  }

  lemma RunSucc(words: seq<string>, s: LoopState, k: nat)
    ensures Run(words, s, k + 1) == Next(words, Run(words, s, k))
  {
  }

  /** A typing step adds the next letter of the word. */
  lemma TypeStep(words: seq<string>, i: nat, k: nat)
    requires i < |words| && k < |words[i]|
    ensures Next(words, LoopState(i, words[i][..k], false)) == LoopState(i, words[i][..k + 1], false)
  {
    var w := words[i];
    assert w[..k] != w by { assert |w[..k]| != |w|; }
    assert w[..k] + [w[k]] == w[..k + 1];
  }

  /** A deleting step removes the last letter shown. */
  lemma DeleteStep(words: seq<string>, i: nat, k: nat)
    requires i < |words| && 0 < k <= |words[i]|
    ensures Next(words, LoopState(i, words[i][..k], true)) == LoopState(i, words[i][..k - 1], true)
  {
    var w := words[i];
    assert w[..k][..k - 1] == w[..k - 1];
  }

  /** A completed word is held; then deletion starts, with the same text and word. */
  lemma HoldTypedStep(words: seq<string>, i: nat)
    requires i < |words|
    ensures Next(words, LoopState(i, words[i], false)) == LoopState(i, words[i], true)
  {
  }

  /** An emptied label is held; then typing of the next word starts. */
  lemma HoldDeletedStep(words: seq<string>, i: nat)
    ensures Next(words, LoopState(i, "", true)) == LoopState(NextWord(i, |words|), "", false)
  {
  }

  /** Typing: from the empty label, `k` steps show the first `k` letters. */
  lemma {:induction false} TypingPhase(words: seq<string>, i: nat, k: nat)
    requires i < |words| && k <= |words[i]|
    ensures Run(words, LoopState(i, "", false), k) == LoopState(i, words[i][..k], false)
  {
    if k == 0 {
      assert words[i][..0] == "";
    } else {
      TypingPhase(words, i, k - 1);
      RunSucc(words, LoopState(i, "", false), k - 1);
      TypeStep(words, i, k - 1);
    }
  }

  /** Deleting: from the full word, `k` steps remove the last `k` letters. */
  lemma {:induction false} DeletingPhase(words: seq<string>, i: nat, k: nat)
    requires i < |words| && k <= |words[i]|
    ensures Run(words, LoopState(i, words[i], true), k) == LoopState(i, words[i][..|words[i]| - k], true)
  {
    var w := words[i];
    if k == 0 {
      assert w[..|w|] == w;
    } else {
      DeletingPhase(words, i, k - 1);
      RunSucc(words, LoopState(i, w, true), k - 1);
      DeleteStep(words, i, |w| - (k - 1));
    }
  }

  /** One whole word: type it, hold, delete it, hold, and move on to the next
      word; `2 * |w| + 2` timer firings in all. */
  lemma WordCycle(words: seq<string>, i: nat)
    requires i < |words|
    ensures Run(words, LoopState(i, "", false), |words[i]| + 1) == LoopState(i, words[i], true)
    ensures Run(words, LoopState(i, "", false), 2 * |words[i]| + 2)
         == LoopState(NextWord(i, |words|), "", false)
  {
    var w := words[i];
    var n := |w|;
    var s0 := LoopState(i, "", false);
    var s1 := LoopState(i, w, false);
    var s2 := LoopState(i, w, true);
    var s3 := LoopState(i, "", true);
    assert Run(words, s0, n) == s1 by {
      TypingPhase(words, i, n);
      assert w[..n] == w;
    }
    assert Next(words, s1) == s2 by {
      HoldTypedStep(words, i);
    }
    RunOneMore(words, s0, s1, s2, n);
    assert Run(words, s2, n) == s3 by {
      DeletingPhase(words, i, n);
      assert w[..0] == "";
    }
    RunThen(words, s0, s2, s3, n + 1, n);
    assert Next(words, s3) == LoopState(NextWord(i, |words|), "", false) by {
      HoldDeletedStep(words, i);
    }
    RunOneMore(words, s0, s3, LoopState(NextWord(i, |words|), "", false), n + 1 + n);
    assert n + 1 + n + 1 == 2 * n + 2;
  }

  /** A one-word list, rising half: the label climbs through every prefix
      of the word and then holds it. */
  lemma OneWordRise(w: string)
    ensures forall k :: 0 <= k <= |w| ==> Run([w], Init, k).text == w[..k]
    ensures Run([w], Init, |w| + 1) == LoopState(0, w, true)
  {
    forall k | 0 <= k <= |w|
      ensures Run([w], Init, k).text == w[..k]
    {
      TypingPhase([w], 0, k);
    }
    WordCycle([w], 0);
  }

  /** One point of the falling half: `k` firings after the word was held,
      `k` letters are gone. */
  lemma FallAt(w: string, k: nat)
    requires k <= |w|
    ensures Run([w], Init, |w| + 1 + k).text == w[..|w| - k]
  {
    var held := LoopState(0, w, true);
    assert Run([w], Init, |w| + 1) == held by {
      WordCycle([w], 0);
    }
    assert Run([w], held, k) == LoopState(0, w[..|w| - k], true) by {
      DeletingPhase([w], 0, k);
    }
    RunThen([w], Init, held, LoopState(0, w[..|w| - k], true), |w| + 1, k);
  }

  /** A one-word list, falling half: the label descends back to "", holds
      it, and is back where it started after `2 * |w| + 2` firings. */
  lemma OneWordFall(w: string)
    ensures forall k :: |w| + 1 <= k <= 2 * |w| + 1 ==> Run([w], Init, k).text == w[..2 * |w| + 1 - k]
    ensures Run([w], Init, 2 * |w| + 2) == Init
  {
    forall k | |w| + 1 <= k <= 2 * |w| + 1
      ensures Run([w], Init, k).text == w[..2 * |w| + 1 - k]
    {
      FallAt(w, k - |w| - 1);
    }
    WordCycle([w], 0);
  }

  /** The sum of `cost` over the first `k` states that iterating `step` visits. */
  function SumAlong(step: LoopState -> LoopState, cost: LoopState -> nat, s: LoopState, k: nat): nat
  {
    if k == 0 then 0 else SumAlong(step, cost, s, k - 1) + cost(Iterate(step, s, k - 1))
  }

  lemma {:induction false} SumAlongAdd(step: LoopState -> LoopState, cost: LoopState -> nat,
                                       s: LoopState, a: nat, b: nat)
    ensures SumAlong(step, cost, s, a + b)
         == SumAlong(step, cost, s, a) + SumAlong(step, cost, Iterate(step, s, a), b)
  {
    if b > 0 {
      SumAlongAdd(step, cost, s, a, b - 1);
      IterateAdd(step, s, a, b - 1);
    }
  }

  /** Along `k` steps that each cost `c`, the costs sum to `k * c`. */
  lemma {:induction false} SumAlongConst(step: LoopState -> LoopState, cost: LoopState -> nat,
                                         s: LoopState, k: nat, c: nat)
    requires forall j :: 0 <= j < k ==> cost(Iterate(step, s, j)) == c
    ensures SumAlong(step, cost, s, k) == k * c
  {
    if k > 0 {
      SumAlongConst(step, cost, s, k - 1, c);
    }
  }

  /** The scheduled delay as a function value. */
  function Wait(words: seq<string>): LoopState -> nat
  {
    s => Delay(words, s)
  }

  /** Milliseconds that pass while the timer fires `k` times from `s`: the
      sum of the delays scheduled along the way. */
  function Elapsed(words: seq<string>, s: LoopState, k: nat): nat
  {
    SumAlong(Step(words), Wait(words), s, k)
  }

  lemma ElapsedAdd(words: seq<string>, s: LoopState, a: nat, b: nat)
    ensures Elapsed(words, s, a + b) == Elapsed(words, s, a) + Elapsed(words, Run(words, s, a), b)
  {
    SumAlongAdd(Step(words), Wait(words), s, a, b);
  }

  /** Two legs of `a` firings each, the second starting where the first
      ends, take the sum of their times. */
  lemma ElapsedTwoLegs(words: seq<string>, s: LoopState, mid: LoopState, a: nat, x: nat, y: nat)
    requires Run(words, s, a) == mid
    requires Elapsed(words, s, a) == x && Elapsed(words, mid, a) == y
    ensures Elapsed(words, s, 2 * a) == x + y
  {
    ElapsedAdd(words, s, a, a);
    assert 2 * a == a + a;
  }

  lemma ElapsedSucc(words: seq<string>, s: LoopState, k: nat)
    ensures Elapsed(words, s, k + 1) == Elapsed(words, s, k) + Delay(words, Run(words, s, k))
  {
  }

  /** While a word is incomplete, the typing delay is scheduled. */
  lemma TypingDelay(words: seq<string>, i: nat, k: nat)
    requires i < |words| && k < |words[i]|
    ensures Delay(words, LoopState(i, words[i][..k], false)) == TypeSpeed
  {
    assert |words[i][..k]| != |words[i]|;
  }

  /** While letters remain, the deleting delay is scheduled. */
  lemma DeletingDelay(words: seq<string>, i: nat, k: nat)
    requires i < |words| && 0 < k <= |words[i]|
    ensures Delay(words, LoopState(i, words[i][..k], true)) == DeleteSpeed
  {
    assert |words[i][..k]| != 0;
  }

  /** Typing `k` letters takes `k` typing delays. */
  lemma TypingTime(words: seq<string>, i: nat, k: nat)
    requires i < |words| && k <= |words[i]|
    ensures Elapsed(words, LoopState(i, "", false), k) == k * TypeSpeed
  {
    var s0 := LoopState(i, "", false);
    forall j | 0 <= j < k
      ensures Wait(words)(Iterate(Step(words), s0, j)) == TypeSpeed
    {
      TypingPhase(words, i, j);
      TypingDelay(words, i, j);
    }
    SumAlongConst(Step(words), Wait(words), s0, k, TypeSpeed);
  }

  /** Deleting `k` letters takes `k` deleting delays. */
  lemma DeletingTime(words: seq<string>, i: nat, k: nat)
    requires i < |words| && k <= |words[i]|
    ensures Elapsed(words, LoopState(i, words[i], true), k) == k * DeleteSpeed
  {
    var s0 := LoopState(i, words[i], true);
    forall j | 0 <= j < k
      ensures Wait(words)(Iterate(Step(words), s0, j)) == DeleteSpeed
    {
      DeletingPhase(words, i, j);
      DeletingDelay(words, i, |words[i]| - j);
    }
    SumAlongConst(Step(words), Wait(words), s0, k, DeleteSpeed);
  }

  /** Typing a word and the hold after it take `|w| * TypeSpeed + HoldAfterType`. */
  lemma RiseTime(words: seq<string>, i: nat)
    requires i < |words|
    ensures Elapsed(words, LoopState(i, "", false), |words[i]| + 1)
         == |words[i]| * TypeSpeed + HoldAfterType
  {
    var n := |words[i]|;
    var s0 := LoopState(i, "", false);
    assert Delay(words, Run(words, s0, n)) == HoldAfterType by {
      TypingPhase(words, i, n);
      assert words[i][..n] == words[i];
    }
    TypingTime(words, i, n);
    ElapsedSucc(words, s0, n);
  }

  /** Deleting a word and the hold after it take `|w| * DeleteSpeed + HoldAfterDelete`. */
  lemma FallTime(words: seq<string>, i: nat)
    requires i < |words|
    ensures Elapsed(words, LoopState(i, words[i], true), |words[i]| + 1)
         == |words[i]| * DeleteSpeed + HoldAfterDelete
  {
    var n := |words[i]|;
    var s2 := LoopState(i, words[i], true);
    assert Delay(words, Run(words, s2, n)) == HoldAfterDelete by {
      DeletingPhase(words, i, n);
      assert words[i][..0] == "";
    }
    DeletingTime(words, i, n);
    ElapsedSucc(words, s2, n);
  }

  /** A whole word takes `|w|` typing delays, one hold, `|w|` deleting
      delays and the second hold: 145 ms per letter plus 1120 ms. */
  lemma WordCycleTime(words: seq<string>, i: nat)
    requires i < |words|
    ensures Elapsed(words, LoopState(i, "", false), 2 * (|words[i]| + 1))
         == (|words[i]| * TypeSpeed + HoldAfterType) + (|words[i]| * DeleteSpeed + HoldAfterDelete)
  {
    WordCycle(words, i);
    RiseTime(words, i);
    FallTime(words, i);
    ElapsedTwoLegs(words, LoopState(i, "", false), LoopState(i, words[i], true), |words[i]| + 1,
                   |words[i]| * TypeSpeed + HoldAfterType, |words[i]| * DeleteSpeed + HoldAfterDelete);
  }

  /** The hero's label, `useTypeLoop(["WELCOME"])`: "", "W", ..., "WELCOME",
      then "WELCOME", ..., "W", "", and after 16 firings the start again. */
  lemma WelcomeLoop()
    ensures forall k :: 0 <= k <= 7 ==> Run(["WELCOME"], Init, k).text == "WELCOME"[..k]
    ensures Run(["WELCOME"], Init, 8) == LoopState(0, "WELCOME", true)
    ensures forall k :: 8 <= k <= 15 ==> Run(["WELCOME"], Init, k).text == "WELCOME"[..15 - k]
    ensures Run(["WELCOME"], Init, 16) == Init
  {
    OneWordRise("WELCOME");
    OneWordFall("WELCOME");
  }

  /** One turn of the hero's loop takes 7 * 145 + 1120 = 2135 milliseconds. */
  lemma WelcomeTime()
    ensures Elapsed(["WELCOME"], Init, 16) == 2135
  {
    WordCycleTime(["WELCOME"], 0);
  }

  /** A one-word list, such as the hero's `["WELCOME"]`, repeats forever
      with period `2L + 2` (16 firings for "WELCOME"). */
  lemma OneWordPeriodic(w: string, m: nat, k: nat)
    ensures Run([w], Init, (2 * |w| + 2) * m + k) == Run([w], Init, k)
  {
    WordCycle([w], 0);
    RunPeriodic([w], Init, 2 * |w| + 2, m, k);
  }

  /** The hook's state cells, overwritten by timer callbacks. */
  class TypeLoop {
    const words: seq<string>
    var wordIndex: nat
    var text: string
    var deleting: bool

    function State(): LoopState
      reads this
    {
      LoopState(wordIndex, text, deleting)
    }

    ghost predicate Valid()
      reads this
    {
      Inv(words, State())
    }

    /** Mount: `useState(0)`, `useState("")`, `useState(false)`. */
    constructor (words: seq<string>)
      ensures this.words == words
      ensures State() == Init && Valid()
    {
      this.words := words;
      wordIndex, text, deleting := 0, "", false;
    }

    /** The one timer scheduled in the current state fires: `delay` is the wait
        it was scheduled with, and the cells take their next values. */
    method Tick() returns (delay: nat)
      requires Valid()
      modifies this
      ensures Valid()
      ensures delay == Delay(words, old(State()))
      ensures State() == Next(words, old(State()))
    {
      var current := Current(words, wordIndex);
      if !deleting && text == current {
        delay := HoldAfterType;
        deleting := true;
      } else if deleting && text == "" {
        delay := HoldAfterDelete;
        deleting := false;
        wordIndex := NextWord(wordIndex, |words|);
      } else {
        delay := if deleting then DeleteSpeed else TypeSpeed;
        text := NextText(current, text, deleting);
      }
      NextInv(words, old(State()));
    }
  }
}
