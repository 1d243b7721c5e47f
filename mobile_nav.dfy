/**
 * src/components/navigation/MobileNav.tsx: the drawer's `isOpen` state, the
 * events that change it, and the `document.body.style.overflow` value the
 * scroll-lock effect keeps in step with it.
 */
module MobileNav {

  /** `navItems`; the source's `label` field is `text` here, `label` being a Dafny keyword. */
  datatype NavItem = NavItem(href: string, text: string)

  const NavItems: seq<NavItem> := [NavItem("/", "Home"), NavItem("/projects", "Projects")]

  /** What the user can do: the hamburger button, a key press, the backdrop, a drawer link. */
  datatype Event = ToggleButton | KeyDown(key: string) | BackdropClick | LinkClick

  /** The `isOpen` after an event: the button flips it, Escape closes an open drawer, clicks inside close it. */
  function Step(isOpen: bool, e: Event): (r: bool)
    ensures e == ToggleButton ==> r == !isOpen
    ensures e.KeyDown? && e.key != "Escape" ==> r == isOpen
    ensures e.KeyDown? && e.key == "Escape" ==> !r
    ensures e == BackdropClick || e == LinkClick ==> !r
  {
    match e
    case ToggleButton => !isOpen
    case KeyDown(key) => if key == "Escape" && isOpen then false else isOpen
    case BackdropClick => false
    case LinkClick => false
  }

  /** `document.body.style.overflow` as the effect on `isOpen` sets it. */
  function Overflow(isOpen: bool): (r: string)
    ensures r == "hidden" <==> isOpen
    ensures r == "" <==> !isOpen
  {
    if isOpen then "hidden" else ""
  }

  /** Toggling twice restores the drawer; closing is idempotent; Escape on a closed drawer does nothing. */
  lemma StepLaws(isOpen: bool, key: string)
    ensures Step(Step(isOpen, ToggleButton), ToggleButton) == isOpen
    ensures Step(Step(isOpen, BackdropClick), BackdropClick) == Step(isOpen, BackdropClick)
    ensures !isOpen ==> Step(isOpen, KeyDown(key)) == isOpen
  {
  }

  /**
   * The mobile navigation. `alive` is the component's lifetime (mounted in the
   * React tree and not yet cleaned up); `mounted` is the component's own
   * hydration flag, false on the first render and set once by an effect, which
   * gates the portal holding the drawer.
   */
  class Drawer {
    var isOpen: bool
    var bodyOverflow: string
    var mounted: bool
    var alive: bool

    /** The body's overflow matches the drawer while alive, and is reset after the cleanup. */
    predicate Valid()
      reads this
    {
      bodyOverflow == (if alive then Overflow(isOpen) else "")
    }

    /** The first render: `useState(false)` twice, and the first run of the scroll-lock effect. */
    constructor()
      ensures Valid() && alive && !mounted && !isOpen && bodyOverflow == ""
    {
      isOpen := false;
      bodyOverflow := "";
      mounted := false;
      alive := true;
    }

    /** The mount effect, `setMounted(true)`: nothing else changes, and nothing ever clears the flag. */
    method Hydrate()
      requires Valid() && alive
      modifies this
      ensures Valid() && alive && mounted
      ensures isOpen == old(isOpen) && bodyOverflow == old(bodyOverflow)
    {
      mounted := true;
    }

    /**
     * One event; when `isOpen` changes, the scroll-lock effect's cleanup clears
     * the overflow and its next run sets it from the new state. Backdrop and
     * link clicks need the drawer on screen: open, and its portal rendered.
     */
    method Handle(e: Event)
      requires Valid() && alive
      requires e == BackdropClick || e == LinkClick ==> isOpen && mounted
      modifies this
      ensures Valid() && alive && mounted == old(mounted)
      ensures isOpen == Step(old(isOpen), e)
      ensures bodyOverflow == Overflow(isOpen)
    {
      var next := Step(isOpen, e);
      if next != isOpen {
        bodyOverflow := "";
        isOpen := next;
        bodyOverflow := Overflow(isOpen);
      }
    }

    /** The cleanup on unmount resets the body's overflow. */
    method Unmount()
      requires alive
      modifies this
      ensures !alive && bodyOverflow == "" && isOpen == old(isOpen) && mounted == old(mounted)
      ensures Valid()
    {
      bodyOverflow := "";
      alive := false;
    }

    /** The drawer's links, rendered through the portal: present only once hydrated and while open. */
    function DrawerLinks(): (r: seq<NavItem>)
      reads this
      ensures mounted && isOpen ==> r == NavItems
      ensures !(mounted && isOpen) ==> r == []
    {
      if mounted && isOpen then NavItems else []
    }
  }

  /**
   * Opening the drawer before hydration locks the body but shows no links;
   * once hydrated the open drawer shows the navigation items.
   */
  method OpenBeforeAndAfterHydration() returns (before: seq<NavItem>, after: seq<NavItem>, overflow: string)
    ensures before == [] && after == NavItems && overflow == "hidden"
  {
    var drawer := new Drawer();
    drawer.Handle(ToggleButton);
    before := drawer.DrawerLinks();
    drawer.Hydrate();
    after := drawer.DrawerLinks();
    overflow := drawer.bodyOverflow;
  }
}
