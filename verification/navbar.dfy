/** The navigation bar's burger button: a menu-open flag, a visibility flag
    driven by the scroll direction, and the last scroll position seen by the
    scroll handler. The overlay, panel and icon timelines are represented
    only by whether a toggle plays or reverses them. */
module Navbar {

  /** `lastScrollY` lives in the scroll handler's closure; it is re-read from
      the window whenever the handler is re-installed. */
  datatype NavState = NavState(isMenuOpen: bool, showBurger: bool, lastScrollY: real)

  /** What a toggle does to the three menu timelines. */
  datatype TimelineAction = PlayAll | ReverseAll

  /** The first render: menu closed, burger shown, handler installed at the
      current scroll position. */
  function Initial(scrollY: real): (s: NavState)
    ensures !s.isMenuOpen && s.showBurger && s.lastScrollY == scrollY
  {
    NavState(false, true, scrollY)
  }

  /** A window scroll event at position `scrollY`. While the menu is open it
      is ignored; otherwise scrolling down hides the burger, anything else
      shows it, and the position is remembered. */
  function HandleScroll(s: NavState, scrollY: real): (t: NavState)
    ensures s.isMenuOpen ==> t == s
    ensures !s.isMenuOpen ==> !t.isMenuOpen && t.lastScrollY == scrollY
    ensures !s.isMenuOpen ==> (t.showBurger <==> scrollY <= s.lastScrollY)
  {
    if s.isMenuOpen then s
    else
      var showBurger := if scrollY > s.lastScrollY then false else true;
      s.(showBurger := showBurger, lastScrollY := scrollY)
  }

  /** The burger's click handler, including the re-installation of the scroll
      handler that the change of `isMenuOpen` causes: `scrollY` is the scroll
      position when the new handler is installed. Opening plays the
      timelines, closing reverses them. */
  function ToggleMenu(s: NavState, scrollY: real): (r: (NavState, TimelineAction))
    ensures r.0.isMenuOpen == !s.isMenuOpen
    ensures r.0.showBurger == s.showBurger
    ensures r.0.lastScrollY == scrollY
    ensures r.1 == PlayAll <==> !s.isMenuOpen
  {
    var action := if s.isMenuOpen then ReverseAll else PlayAll;
    (s.(isMenuOpen := !s.isMenuOpen, lastScrollY := scrollY), action)
  }

  /** Toggling twice restores the menu and undoes the timeline action. */
  lemma ToggleTwice(s: NavState, y1: real, y2: real)
    ensures var (t, a1) := ToggleMenu(s, y1);
      var (u, a2) := ToggleMenu(t, y2);
      u == s.(lastScrollY := y2) && a1 != a2
  {
  }

  datatype PointerEvents = Auto | NoPointer

  /** The burger's inline style: opacity, pointer-events and scale. */
  datatype BurgerStyle = BurgerStyle(opacity: real, pointerEvents: PointerEvents, scale: real)

  /** The burger is shown whenever the menu is open, and otherwise when the
      scroll rule says so. */
  predicate Shown(s: NavState) {
    s.isMenuOpen || s.showBurger
  }

  function Style(s: NavState): (st: BurgerStyle)
    ensures Shown(s) ==> st == BurgerStyle(1.0, Auto, 1.0)
    ensures !Shown(s) ==> st == BurgerStyle(0.0, NoPointer, 0.8)
    ensures st.pointerEvents == Auto <==> st.opacity == 1.0
  {
    BurgerStyle(
      if s.isMenuOpen then 1.0 else if s.showBurger then 1.0 else 0.0,
      if s.isMenuOpen then Auto else if s.showBurger then Auto else NoPointer,
      if s.isMenuOpen then 1.0 else if s.showBurger then 1.0 else 0.8)
  }

  function AriaLabel(s: NavState): (aria: string)
    ensures aria == "Close menu" <==> s.isMenuOpen
    ensures aria == "Close menu" || aria == "Open menu"
  {
    if s.isMenuOpen then "Close menu" else "Open menu"
  }

  /** Inputs to the navbar: a scroll to a position, or a pointer click on the
      burger (`scrollY` is the position when the scroll handler is
      re-installed after the toggle). */
  datatype Event = Scroll(y: real) | Click(scrollY: real)

  /** A pointer click reaches the button only while its pointer-events are
      enabled. */
  function Step(s: NavState, e: Event): (t: NavState)
    ensures e.Click? && Style(s).pointerEvents == NoPointer ==> t == s
    ensures e.Click? && Style(s).pointerEvents == Auto ==> t.isMenuOpen == !s.isMenuOpen
  {
    match e
    case Scroll(y) => HandleScroll(s, y)
    case Click(y) => if Style(s).pointerEvents == Auto then ToggleMenu(s, y).0 else s
  }

  function Run(s: NavState, es: seq<Event>): NavState
    decreases |es|
  {
    if |es| == 0 then s else Run(Step(s, es[0]), es[1..])
  }

  /** Whenever the menu is open the scroll rule also has the burger shown. */
  predicate OpenImpliesShowBurger(s: NavState) {
    s.isMenuOpen ==> s.showBurger
  }

  lemma StepKeepsInvariant(s: NavState, e: Event)
    requires OpenImpliesShowBurger(s)
    ensures OpenImpliesShowBurger(Step(s, e))
  {
  }

  /** Along any sequence of scrolls and pointer clicks from the first render,
      the menu is only ever open with the burger flag set, so closing the menu
      with a click always leaves the burger visible. */
  lemma {:induction false} RunKeepsInvariant(s: NavState, es: seq<Event>)
    requires OpenImpliesShowBurger(s)
    ensures OpenImpliesShowBurger(Run(s, es))
    decreases |es|
  {
    if |es| > 0 {
      StepKeepsInvariant(s, es[0]);
      RunKeepsInvariant(Step(s, es[0]), es[1..]);
    }
  }

  lemma ClosingLeavesBurgerShown(y0: real, es: seq<Event>, y: real)
    requires Run(Initial(y0), es).isMenuOpen
    ensures var after := Step(Run(Initial(y0), es), Click(y));
      !after.isMenuOpen && Style(after) == BurgerStyle(1.0, Auto, 1.0)
  {
    RunKeepsInvariant(Initial(y0), es);
  }
}
