/** The mobile-menu dismissal policy of src/components/sections/Navbar.tsx.

    The component has two state cells: `mounted`, set once by the first
    effect, and `menuOpen`. The burger button and the link clicks are React
    handlers that act at any time; the resize, pointer-down and scroll
    listeners are only registered once `mounted` is true. Whether a pointer
    target lies inside the nav wrapper (`navWrapRef.current.contains`) is an
    input of the event, as is whether the wrapper element is attached at all. */
module Navbar {

  /** Viewport width, in CSS pixels, from which the desktop layout is shown. */
  const DesktopWidth: int := 1024

  datatype NavState = NavState(mounted: bool, menuOpen: bool)

  /** Mount, then both cells are false: `useState(false)` twice. */
  const Initial := NavState(false, false)

  datatype NavEvent =
    | Mount                                              // the `setMounted(true)` effect
    | BurgerClick                                        // the burger button
    | LinkClick                                          // a contact link or a mobile-menu link
    | Resize(innerWidth: int)                            // window "resize"
    | PointerDown(wrapAttached: bool, insideWrap: bool)  // window "pointerdown"
    | Scroll                                             // window "scroll"

  /** The events that reach the component through a window listener. */
  predicate IsWindowEvent(e: NavEvent)
  {
    e.Resize? || e.PointerDown? || e.Scroll?
  }

  /** `closeAll`: the only cell it touches is `menuOpen`. */
  function CloseAll(s: NavState): (r: NavState)
    ensures !r.menuOpen && r.mounted == s.mounted
  {
    s.(menuOpen := false)
  }

  /** The effect of one event on the two cells. */
  function Handle(s: NavState, e: NavEvent): (r: NavState)
    // `mounted` is set by the mount effect and by nothing else, and never cleared
    ensures r.mounted == (s.mounted || e == Mount)
    // before mount, no window listener exists
    ensures IsWindowEvent(e) && !s.mounted ==> r == s
    // the burger is the only way to open the menu
    ensures r.menuOpen && !s.menuOpen ==> e == BurgerClick
  {
    match e
    case Mount => s.(mounted := true)
    case BurgerClick => s.(menuOpen := !s.menuOpen)
    case LinkClick => s.(menuOpen := false)
    case Resize(w) =>
      if !s.mounted then s
      else if w >= DesktopWidth then s.(menuOpen := false)
      else s
    case PointerDown(attached, inside) =>
      if !s.mounted || !attached then s
      else if !inside then CloseAll(s)
      else s
    case Scroll =>
      if !s.mounted then s
      else if s.menuOpen then CloseAll(s)
      else s
  }

  /** Once mounted, every dismissal event closes the menu, and the other
      window events leave it as it was. */
  lemma DismissalPolicy(s: NavState)
    requires s.mounted
    ensures forall w :: w >= DesktopWidth ==> !Handle(s, Resize(w)).menuOpen
    ensures forall w :: w < DesktopWidth ==> Handle(s, Resize(w)) == s
    ensures !Handle(s, PointerDown(true, false)).menuOpen
    ensures Handle(s, PointerDown(true, true)) == s
    ensures Handle(s, PointerDown(false, false)) == s
    ensures !Handle(s, Scroll).menuOpen
    ensures !s.menuOpen ==> Handle(s, Scroll) == s
    ensures !Handle(s, LinkClick).menuOpen
  {
  }

  /** The burger flips the menu, so two clicks undo each other. */
  lemma BurgerFlips(s: NavState)
    ensures Handle(s, BurgerClick).menuOpen == !s.menuOpen
    ensures Handle(Handle(s, BurgerClick), BurgerClick) == s
  {
  }

  /** The state after a sequence of events. */
  function HandleAll(s: NavState, es: seq<NavEvent>): NavState
    decreases |es|
  {
    if es == [] then s else HandleAll(Handle(s, es[0]), es[1..])
  }

  /** After any sequence of events, an open menu was opened by a burger
      click that no closing event followed: if the sequence has no burger
      click, the menu is open only if it was open to begin with. */
  lemma {:induction false} NoBurgerNoOpen(s: NavState, es: seq<NavEvent>)
    requires BurgerClick !in es
    ensures HandleAll(s, es).menuOpen ==> s.menuOpen
    decreases |es|
  {
    if es != [] {
      assert es[0] in es;
      assert forall e :: e in es[1..] ==> e in es;
      NoBurgerNoOpen(Handle(s, es[0]), es[1..]);
    }
  }

  /** Window events before the mount effect change nothing at all. */
  lemma {:induction false} InertBeforeMount(s: NavState, es: seq<NavEvent>)
    requires !s.mounted
    requires forall e :: e in es ==> IsWindowEvent(e)
    ensures HandleAll(s, es) == s
    decreases |es|
  {
    if es != [] {
      assert es[0] in es;
      assert forall e :: e in es[1..] ==> e in es;
      InertBeforeMount(Handle(s, es[0]), es[1..]);
    }
  }

  /** The component's two state cells and its handlers. */
  class NavMenu {
    var mounted: bool
    var menuOpen: bool

    function State(): NavState
      reads this
    {
      NavState(mounted, menuOpen)
    }

    constructor ()
      ensures State() == Initial
    {
      mounted, menuOpen := false, false;
    }

    /** `useEffect(() => setMounted(true), [])`. */
    method OnMount()
      modifies this
      ensures mounted && menuOpen == old(menuOpen)
      ensures State() == Handle(old(State()), Mount)
    {
      mounted := true;
    }

    /** `closeAll`. */
    method CloseAll()
      modifies this`menuOpen
      ensures !menuOpen
    {
      menuOpen := false;
    }

    /** The burger button: `setMenuOpen((v) => !v)`. */
    method OnBurgerClick()
      modifies this`menuOpen
      ensures menuOpen == !old(menuOpen)
      ensures State() == Handle(old(State()), BurgerClick)
    {
      menuOpen := !menuOpen;
    }

    /** A contact link or a mobile-menu link. */
    method OnLinkClick()
      modifies this`menuOpen
      ensures !menuOpen
      ensures State() == Handle(old(State()), LinkClick)
    {
      menuOpen := false;
    }

    /** The resize listener, registered once mounted. */
    method OnResize(innerWidth: int)
      modifies this`menuOpen
      ensures menuOpen == (old(menuOpen) && (!mounted || innerWidth < DesktopWidth))
      ensures State() == Handle(old(State()), Resize(innerWidth))
    {
      if !mounted {
        return;
      }
      if innerWidth >= DesktopWidth {
        menuOpen := false;
      }
    }

    /** The pointer-down listener, registered once mounted. */
    method OnPointerDown(wrapAttached: bool, insideWrap: bool)
      modifies this`menuOpen
      ensures menuOpen == (old(menuOpen) && (!mounted || !wrapAttached || insideWrap))
      ensures State() == Handle(old(State()), PointerDown(wrapAttached, insideWrap))
    {
      if !mounted {
        return;
      }
      if !wrapAttached {
        return;
      }
      if !insideWrap {
        CloseAll();
      }
    }

    /** The scroll listener, registered once mounted. */
    method OnScroll()
      modifies this`menuOpen
      ensures menuOpen == (old(menuOpen) && !mounted)
      ensures State() == Handle(old(State()), Scroll)
    {
      if !mounted {
        return;
      }
      if menuOpen {
        CloseAll();
      }
    }

    /** Any event, dispatched to its handler. */
    method Dispatch(e: NavEvent)
      modifies this
      ensures State() == Handle(old(State()), e)
    {
      match e
      case Mount => OnMount();
      case BurgerClick => OnBurgerClick();
      case LinkClick => OnLinkClick();
      case Resize(w) => OnResize(w);
      case PointerDown(attached, inside) => OnPointerDown(attached, inside);
      case Scroll => OnScroll();
    }
  }
}
