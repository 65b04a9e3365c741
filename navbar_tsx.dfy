/** The TypeScript navigation bar: scroll-throttled `isScrolled`, the mobile menu with its
    closing animation, and the highlighted section button. */
module NavbarTsx {
  import opened Wrappers
  import Constants
  import Timers

  datatype NavItem = NavItem(id: string, name: string)

  /** `NAVBAR_SECTIONS`, in display order. */
  const NAVBAR_SECTIONS: seq<NavItem> := [
    NavItem("intro", "Home"), NavItem("work", "Work"),
    NavItem("thoughts", "Thoughts"), NavItem("footer", "Contact")
  ]
  /** Scroll offset, in pixels, beyond which the bar counts as scrolled. */
  const SCROLLED_THRESHOLD: real := 10.0
  /** Throttle window of the scroll listener, in milliseconds. */
  const THROTTLE_MS: int := 100
  /** Duration of the menu's closing animation, in milliseconds. */
  const CLOSE_ANIMATION_MS: int := 300

  /** A section button is highlighted iff it is the active section. */
  predicate Highlighted(activeSection: string, id: string) {
    activeSection == id
  }

  /** How many of `items` are highlighted for `activeSection`. */
  function CountHighlighted(items: seq<NavItem>, activeSection: string): nat
  {
    if items == [] then 0
    else (if Highlighted(activeSection, items[0].id) then 1 else 0) + CountHighlighted(items[1..], activeSection)
  }

  /** The ids of `items`. */
  function Ids(items: seq<NavItem>): (r: seq<string>)
    ensures |r| == |items|
  {
    seq(|items|, i requires 0 <= i < |items| => items[i].id)
  }

  /** With distinct ids, one item is highlighted when the active section is among them and
      none otherwise. */
  lemma {:induction false} HighlightCount(items: seq<NavItem>, activeSection: string)
    requires Constants.Distinct(Ids(items))
    ensures CountHighlighted(items, activeSection) == if activeSection in Ids(items) then 1 else 0
  {
    if items != [] {
      var rest := items[1..];
      assert Ids(items) == [items[0].id] + Ids(rest);
      assert Ids(rest) == Ids(items)[1..];
      HighlightCount(rest, activeSection);
      assert activeSection in Ids(items) <==> activeSection == items[0].id || activeSection in Ids(rest);
      if activeSection == items[0].id {
        assert activeSection !in Ids(rest) by {
          forall i | 0 <= i < |rest| ensures Ids(rest)[i] != activeSection {
            assert Ids(items)[0] != Ids(items)[i + 1];
          }
        }
      }
    }
  }

  /** The bar's buttons are the four sections in order with their display names, and exactly
      one is highlighted iff the active section is one of them. */
  lemma NavbarHighlightsOneSection(activeSection: string)
    ensures Ids(NAVBAR_SECTIONS) == Constants.SECTIONS
    ensures forall i :: 0 <= i < |NAVBAR_SECTIONS| ==>
              NAVBAR_SECTIONS[i].name == Constants.SECTION_NAMES[NAVBAR_SECTIONS[i].id]
    ensures CountHighlighted(NAVBAR_SECTIONS, activeSection) == if activeSection in Constants.SECTIONS then 1 else 0
  {
    assert Ids(NAVBAR_SECTIONS) == Constants.SECTIONS;
    Constants.SectionsAreFixed();
    HighlightCount(NAVBAR_SECTIONS, activeSection);
  }

  /** The theme button's label names the theme it switches to. */
  function ThemeToggleLabel(isDark: bool): string
  {
    "Switch to " + (if isDark then "light" else "dark") + " mode"
  }

  /** The label for dark offers light and the label for light offers dark. */
  lemma ThemeToggleLabelOffersOpposite()
    ensures ThemeToggleLabel(true) == "Switch to light mode"
    ensures ThemeToggleLabel(false) == "Switch to dark mode"
  {
  }

  /** The navbar's state and its pending timers. */
  class Navbar {
    var isScrolled: bool
    var isMobileMenuOpen: bool
    var isAnimating: bool
    /** Deadline of the throttle timer while it is set. */
    var throttleTimer: Option<int>
    /** Deadlines of the pending `setIsAnimating(false)` callbacks. */
    var animationTimers: seq<int>

    /** The menu is never open while its closing animation runs, and an animation always
        has a callback pending that will end it. */
    ghost predicate Valid()
      reads this
    {
      !(isMobileMenuOpen && isAnimating) && (isAnimating ==> |animationTimers| > 0)
    }

    constructor ()
      ensures Valid()
      ensures !isScrolled && !isMobileMenuOpen && !isAnimating && throttleTimer == None && animationTimers == []
    {
      isScrolled, isMobileMenuOpen, isAnimating := false, false, false;
      throttleTimer := None;
      animationTimers := [];
    }

    /** The mobile overlay is visible while the menu is open or closing. */
    function OverlayVisible(): bool
      reads this
    {
      isMobileMenuOpen || isAnimating
    }

    /** `handleScroll`: ignored while the throttle timer is set; otherwise records whether
        the page is scrolled past the threshold and sets the timer. */
    method HandleScroll(scrollY: real, now: int) returns (handled: bool)
      requires Valid()
      modifies this`isScrolled, this`throttleTimer
      ensures Valid()
      ensures handled <==> old(throttleTimer) == None
      ensures handled ==> isScrolled == (scrollY > SCROLLED_THRESHOLD) && throttleTimer == Some(now + THROTTLE_MS)
      ensures !handled ==> isScrolled == old(isScrolled) && throttleTimer == old(throttleTimer)
    {
      if throttleTimer.Some? {
        return false;
      }
      isScrolled := scrollY > SCROLLED_THRESHOLD;
      throttleTimer := Some(now + THROTTLE_MS);
      return true;
    }

    /** `openMobileMenu`. */
    method OpenMobileMenu()
      requires Valid()
      modifies this`isMobileMenuOpen, this`isAnimating
      ensures Valid() && isMobileMenuOpen && !isAnimating
    {
      isMobileMenuOpen := true;
      isAnimating := false;
    }

    /** `closeMobileMenu`: closed, animating, and a callback ends the animation in 300 ms. */
    method CloseMobileMenu(now: int)
      requires Valid()
      modifies this`isMobileMenuOpen, this`isAnimating, this`animationTimers
      ensures Valid() && !isMobileMenuOpen && isAnimating
      ensures animationTimers == old(animationTimers) + [now + CLOSE_ANIMATION_MS]
    {
      isMobileMenuOpen := false;
      isAnimating := true;
      animationTimers := animationTimers + [now + CLOSE_ANIMATION_MS];
    }

    /** The menu button closes an open menu and opens a closed one. */
    method ToggleMobileMenu(now: int)
      requires Valid()
      modifies this`isMobileMenuOpen, this`isAnimating, this`animationTimers
      ensures Valid()
      ensures isMobileMenuOpen == !old(isMobileMenuOpen)
      ensures isAnimating == old(isMobileMenuOpen)
      ensures animationTimers == if old(isMobileMenuOpen) then old(animationTimers) + [now + CLOSE_ANIMATION_MS]
                                 else old(animationTimers)
    {
      if isMobileMenuOpen {
        CloseMobileMenu(now);
      } else {
        OpenMobileMenu();
      }
    }

    /** `handleMobileNavigation(id)`: navigates to `id` (returned), then closes the menu. */
    method HandleMobileNavigation(sectionId: string, now: int) returns (navigatedTo: string)
      requires Valid()
      modifies this`isMobileMenuOpen, this`isAnimating, this`animationTimers
      ensures Valid() && navigatedTo == sectionId && !isMobileMenuOpen && isAnimating
      ensures animationTimers == old(animationTimers) + [now + CLOSE_ANIMATION_MS]
    {
      navigatedTo := sectionId;
      CloseMobileMenu(now);
    }

    /** Time passes to `now`: a due throttle timer is cleared, and if any animation callback
        is due the animation flag is cleared; the other callbacks stay pending. */
    method Advance(now: int)
      requires Valid()
      modifies this`throttleTimer, this`isAnimating, this`animationTimers
      ensures Valid()
      ensures throttleTimer == if old(throttleTimer).Some? && now >= old(throttleTimer).value then None
                               else old(throttleTimer)
      ensures animationTimers == Timers.Pending(old(animationTimers), now)
      ensures isAnimating == (old(isAnimating) && Timers.CountDue(old(animationTimers), now) == 0)
      ensures isMobileMenuOpen == old(isMobileMenuOpen) && isScrolled == old(isScrolled)
    {
      if throttleTimer.Some? && now >= throttleTimer.value {
        throttleTimer := None;
      }
      Timers.DueAndPendingPartition(animationTimers, now);
      if Timers.CountDue(animationTimers, now) > 0 {
        isAnimating := false;
      }
      animationTimers := Timers.Pending(animationTimers, now);
    }
  }

  /** Closing the menu keeps the overlay up for the 300 ms animation and removes it when the
      callback fires. */
  method CloseShowsOverlayUntilAnimationEnds(t0: int) returns (duringClose: bool, afterClose: bool)
    ensures duringClose && !afterClose
  {
    var nav := new Navbar();
    nav.OpenMobileMenu();
    nav.CloseMobileMenu(t0);
    nav.Advance(t0 + CLOSE_ANIMATION_MS - 1);
    duringClose := nav.OverlayVisible();
    nav.Advance(t0 + CLOSE_ANIMATION_MS);
    afterClose := nav.OverlayVisible();
  }
}
