/** The "selected projects" carousel of
    src/components/sections/SelectedProjects.tsx: an index over a fixed list of
    five projects, moved one step at a time by the arrow buttons, the arrow
    keys or a horizontal swipe, and a video modal opened from the active card.

    The component's state cells (`index`, `dir`, `isOpen`) and its three
    gesture refs (`draggingRef`, `startXRef`, `lastXRef`) become the fields of
    the class `Carousel`; every handler becomes a method. */
module SelectedProjects {

  import opened Wrappers

  /** A project card; `caption` is the source's `label` field (a keyword in Dafny). */
  datatype Project = Project(id: string, caption: string, thumb: string, video: string)

  /** The five projects, in display order. */
  function Projects(): (ps: seq<Project>)
    ensures |ps| == 5
  {
    [ Project("p1", "KAI CENAT / NEW MERCH", "/projects/kai.jpg", "/projects/kai.mp4"),
      Project("p2", "PROJECT TWO / PROMO", "/projects/p2.jpg", "/projects/p2.mp4"),
      Project("p3", "PROJECT THREE / CAMPAIGN", "/projects/p3.jpg", "/projects/p3.mp4"),
      Project("p4", "PROJECT FOUR / EDIT", "/projects/p4.jpg", "/projects/p4.mp4"),
      Project("p5", "PROJECT FIVE / SHORT", "/projects/p5.jpg", "/projects/p5.mp4") ]
  }

  /** A navigation direction, the source's type `1 | -1`: 1 is next, -1 previous. */
  type Dir = d: int | d == 1 || d == -1 witness 1

  /** Horizontal travel, in CSS pixels, a release must reach to count as a swipe. */
  const SwipeThreshold: real := 70.0

  /** JavaScript's `%`: the quotient is truncated toward zero, so the
      remainder takes the sign of the dividend. */
  function JsRem(a: int, n: int): (r: int)
    requires n > 0
    ensures -n < r < n
    ensures a >= 0 ==> r >= 0
    ensures a < 0 ==> r <= 0
    // it agrees with Dafny's `%` on non-negative dividends, but a small
    // negative dividend is its own remainder
    ensures a >= 0 ==> r == a % n
    ensures -n < a < 0 ==> r == a
  {
    if a >= 0 then a % n else -((-a) % n)
  }

  /** `go`'s index update `(i + nextDir + n) % n`: adding `n` keeps the
      dividend non-negative, so the step wraps at both ends. */
  function Wrap(i: int, d: Dir, n: int): (r: int)
    requires 0 <= i < n
    ensures 0 <= r < n
    ensures d == 1 ==> r == (if i == n - 1 then 0 else i + 1)
    ensures d == -1 ==> r == (if i == 0 then n - 1 else i - 1)
  {
    var a := i + d + n;
    ModSmall(a, n);
    JsRem(a, n)
  }

  /** Euclidean remainder of a dividend between 0 and `2 * n`. */
  lemma ModSmall(a: int, n: int)
    requires 0 < n && 0 <= a <= 2 * n
    ensures a % n == if a < n then a else if a < 2 * n then a - n else 0
  {
  }

  /** `abs(x)`. */
  function Abs(x: real): (r: real)
    ensures r >= 0.0 && (r == x || r == -x)
  {
    if x < 0.0 then -x else x
  }

  /** The decision `onPointerUp` takes from the recorded positions: no move
      when either position is missing or the drag is shorter than the
      threshold, otherwise next for a leftward drag and previous for a
      rightward one. */
  function SwipeStep(startX: Option<real>, lastX: Option<real>): (m: Option<Dir>)
    ensures m.Some? <==> startX.Some? && lastX.Some? && Abs(lastX.value - startX.value) >= SwipeThreshold
    ensures m == Some(1) <==> startX.Some? && lastX.Some? && lastX.value - startX.value <= -SwipeThreshold
    ensures m == Some(-1) <==> startX.Some? && lastX.Some? && lastX.value - startX.value >= SwipeThreshold
  {
    if startX.None? || lastX.None? then None
    else
      var dx := lastX.value - startX.value;
      if Abs(dx) < SwipeThreshold then None
      else Some(if dx < 0.0 then 1 else -1)
  }

  /** `k` steps forward from `i`. */
  function Advance(i: int, k: nat, n: int): (r: int)
    requires 0 <= i < n
    ensures 0 <= r < n
  {
    if k == 0 then i else Wrap(Advance(i, k - 1, n), 1, n)
  }

  /** Stepping back from the first project lands on the last one. */
  lemma BackFromFirst()
    ensures Wrap(0, -1, |Projects()|) == 4
  {
  }

  /** Next then previous, or previous then next, is no move at all. */
  lemma NextThenPrev(i: int, n: int)
    requires 0 <= i < n
    ensures Wrap(Wrap(i, 1, n), -1, n) == i
    ensures Wrap(Wrap(i, -1, n), 1, n) == i
  {
  }

  /** Before the wrap, `k` steps forward simply add `k`. */
  lemma {:induction false} AdvanceBelowEnd(i: int, k: nat, n: int)
    requires 0 <= i && i + k < n
    ensures Advance(i, k, n) == i + k
  {
    if k > 0 {
      AdvanceBelowEnd(i, k - 1, n);
    }
  }

  /** Stepping `a` and then `b` times is stepping `a + b` times. */
  lemma {:induction false} AdvanceAdd(i: int, a: nat, b: nat, n: int)
    requires 0 <= i < n
    ensures Advance(i, a + b, n) == Advance(Advance(i, a, n), b, n)
  {
    if b > 0 {
      AdvanceAdd(i, a, b - 1, n);
    }
  }

  /** `n` steps forward visit every project once and come back. */
  lemma FullTurn(i: int, n: int)
    requires 0 <= i < n
    ensures Advance(i, n, n) == i
  {
    AdvanceBelowEnd(i, n - 1 - i, n);
    assert Advance(i, n - i, n) == 0;
    AdvanceAdd(i, n - i, i, n);
    if i > 0 {
      AdvanceBelowEnd(0, i, n);
    }
  }

  /** The swipe examples: 69 pixels is a tap, 70 and 71 are a swipe whose
      direction follows the sign of the drag. */
  lemma SwipeThresholdExamples(x: real)
    ensures SwipeStep(Some(x), Some(x - 69.0)) == None
    ensures SwipeStep(Some(x), Some(x + 69.0)) == None
    ensures SwipeStep(Some(x), Some(x - 70.0)) == Some(1)
    ensures SwipeStep(Some(x), Some(x - 71.0)) == Some(1)
    ensures SwipeStep(Some(x), Some(x + 71.0)) == Some(-1)
  {
  }

  /** The component's state cells and gesture refs. */
  class Carousel {
    const projects: seq<Project>
    var index: int
    var dir: Dir
    var isOpen: bool
    var dragging: bool
    var startX: Option<real>
    var lastX: Option<real>

    ghost predicate Valid()
      reads this
    {
      0 <= index < |projects|
    }

    /** Mount: the first project, direction "next", modal closed, no drag. */
    constructor ()
      ensures projects == Projects() && Valid()
      ensures index == 0 && dir == 1 && !isOpen
      ensures !dragging && startX == None && lastX == None
    {
      projects := Projects();
      index, dir, isOpen := 0, 1, false;
      dragging, startX, lastX := false, None, None;
    }

    /** The project whose label, thumbnail and video are shown. */
    function Active(): (p: Project)
      reads this
      requires Valid()
      ensures p in projects
    {
      projects[index]
    }

    /** `go(nextDir)`: record the direction and move one step, wrapping. */
    method Go(d: Dir)
      requires Valid()
      modifies this
      ensures Valid()
      ensures dir == d && index == Wrap(old(index), d, |projects|)
      ensures isOpen == old(isOpen) && dragging == old(dragging)
      ensures startX == old(startX) && lastX == old(lastX)
    {
      dir := d;
      var n := |projects|;
      index := JsRem(index + d + n, n);
    }

    /** The play button over the card. */
    method OpenModal()
      requires Valid()
      modifies this`isOpen
      ensures isOpen
    {
      isOpen := true;
    }

    /** The close overlay of the modal. */
    method CloseModal()
      requires Valid()
      modifies this`isOpen
      ensures !isOpen
    {
      isOpen := false;
    }

    /** The window's keydown listener. */
    method OnKey(key: string)
      requires Valid()
      modifies this
      ensures Valid()
      ensures key == "ArrowRight" ==> index == Wrap(old(index), 1, |projects|) && dir == 1 && isOpen == old(isOpen)
      ensures key == "ArrowLeft" ==> index == Wrap(old(index), -1, |projects|) && dir == -1 && isOpen == old(isOpen)
      ensures key == "Escape" ==> index == old(index) && dir == old(dir) && !isOpen
      ensures key !in {"ArrowRight", "ArrowLeft", "Escape"} ==>
                index == old(index) && dir == old(dir) && isOpen == old(isOpen)
      ensures dragging == old(dragging) && startX == old(startX) && lastX == old(lastX)
    {
      if key == "ArrowRight" { Go(1); }
      if key == "ArrowLeft" { Go(-1); }
      if key == "Escape" { isOpen := false; }
    }

    /** Pointer pressed on the card at horizontal position `x`. */
    method OnPointerDown(x: real)
      requires Valid()
      modifies this`dragging, this`startX, this`lastX
      ensures dragging && startX == Some(x) && lastX == Some(x)
    {
      dragging := true;
      startX := Some(x);
      lastX := Some(x);
    }

    /** Pointer moved to `x`: tracked only while a drag is active. */
    method OnPointerMove(x: real)
      requires Valid()
      modifies this`lastX
      ensures lastX == if dragging then Some(x) else old(lastX)
    {
      if !dragging {
        return;
      }
      lastX := Some(x);
    }

    /** Pointer released: end the drag, clear both positions, and move one
        step when the drag was a swipe. Without an active drag nothing at all
        changes. The card runs the same handler on pointer cancel (line 264 of
        SelectedProjects.tsx). */
    method OnPointerUp()
      requires Valid()
      modifies this
      ensures Valid() && isOpen == old(isOpen)
      ensures !old(dragging) ==>
                index == old(index) && dir == old(dir) && !dragging
                && startX == old(startX) && lastX == old(lastX)
      ensures old(dragging) ==> !dragging && startX == None && lastX == None
      ensures old(dragging) ==>
                match SwipeStep(old(startX), old(lastX))
                case None => index == old(index) && dir == old(dir)
                case Some(d) => index == Wrap(old(index), d, |projects|) && dir == d
    {
      if !dragging {
        return;
      }
      dragging := false;
      var sx := startX;
      var lx := lastX;
      startX := None;
      lastX := None;
      if sx.None? || lx.None? {
        return;
      }
      var dx := lx.value - sx.value;
      if Abs(dx) < SwipeThreshold {
        return;
      }
      Go(if dx < 0.0 then 1 else -1);
    }
  }

  /** A client of the class: from the first of the five projects, previous
      wraps to the last one and next wraps back. */
  method WraparoundScenario()
  {
    var c := new Carousel();
    assert |c.projects| == 5;
    c.Go(-1);
    assert c.index == 4 && c.dir == -1;
    c.Go(1);
    assert c.index == 0 && c.dir == 1;
  }

  /** A client of the class: a 69-pixel tap does nothing, a 71-pixel leftward
      swipe shows the next project, and Escape closes the modal. */
  method SwipeScenario()
  {
    var c := new Carousel();
    c.OnPointerDown(300.0);
    c.OnPointerMove(231.0);
    c.OnPointerUp();
    assert c.index == 0 && !c.dragging;
    c.OnPointerDown(300.0);
    c.OnPointerMove(229.0);
    c.OnPointerUp();
    assert c.index == 1 && c.dir == 1;
    assert c.Active().id == "p2";
    c.OpenModal();
    c.OnKey("Escape");
    assert !c.isOpen && c.index == 1;
  }
}
