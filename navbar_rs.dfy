/** The Rust navigation bar: `is_scrolled`, the mobile menu flag and the highlighted item. */
module NavbarRs {
  import opened Wrappers
  import NavbarTsx

  /** The items of both the desktop and the mobile lists. */
  const NAV_ITEMS: seq<NavbarTsx.NavItem> := [
    NavbarTsx.NavItem("intro", "Home"), NavbarTsx.NavItem("work", "Work"),
    NavbarTsx.NavItem("thoughts", "Thoughts"), NavbarTsx.NavItem("footer", "Contact")
  ]

  /** Both builds list the same items in the same order. */
  lemma SameItemsAsTypeScript()
    ensures NAV_ITEMS == NavbarTsx.NAVBAR_SECTIONS
  {
  }

  /** On both lists exactly one item is highlighted when the active section is one of the four,
      and none otherwise. */
  lemma ItemHighlighting(activeSection: string)
    ensures NavbarTsx.CountHighlighted(NAV_ITEMS, activeSection) == if activeSection in NavbarTsx.Ids(NAV_ITEMS) then 1 else 0
  {
    NavbarTsx.NavbarHighlightsOneSection(activeSection);
  }

  /** The theme button's aria label. */
  function ThemeToggleLabel(isDark: bool): string
  {
    "Switch to " + (if isDark then "light" else "dark") + " mode"
  }

  /** The label names the opposite of the current theme, as in the TypeScript bar. */
  lemma ThemeToggleLabelOffersOpposite(isDark: bool)
    ensures ThemeToggleLabel(isDark) == NavbarTsx.ThemeToggleLabel(isDark)
    ensures ThemeToggleLabel(true) == "Switch to light mode" && ThemeToggleLabel(false) == "Switch to dark mode"
  {
  }

  class Navbar {
    var isScrolled: bool
    var isMobileMenuOpen: bool

    constructor ()
      ensures !isScrolled && !isMobileMenuOpen
    {
      isScrolled, isMobileMenuOpen := false, false;
    }

    /** The overlay takes pointer events exactly while the menu is open. */
    function OverlayPointerEvents(): bool
      reads this
    {
      isMobileMenuOpen
    }

    /** The scroll listener: scrolled iff the offset exceeds 10 pixels, an unreadable offset counting as 0. */
    method OnScroll(scrollY: Option<real>)
      modifies this`isScrolled
      ensures isScrolled == (scrollY.GetOr(0.0) > 10.0)
      ensures scrollY.None? ==> !isScrolled
    {
      isScrolled := scrollY.GetOr(0.0) > 10.0;
    }

    /** The menu button toggles the open flag. */
    method ToggleMobileMenu()
      modifies this`isMobileMenuOpen
      ensures isMobileMenuOpen == !old(isMobileMenuOpen)
    {
      if isMobileMenuOpen {
        CloseMobileMenu();
      } else {
        isMobileMenuOpen := true;
      }
    }

    /** `close_mobile_menu`, also bound to a click on the backdrop. */
    method CloseMobileMenu()
      modifies this`isMobileMenuOpen
      ensures !isMobileMenuOpen
    {
      isMobileMenuOpen := false;
    }

    /** `handle_mobile_navigation(id)`: navigates to `id` (returned), then closes the menu. */
    method HandleMobileNavigation(sectionId: string) returns (navigatedTo: string)
      modifies this`isMobileMenuOpen
      ensures navigatedTo == sectionId && !isMobileMenuOpen
    {
      navigatedTo := sectionId;
      isMobileMenuOpen := false;
    }
  }

  /** Opening the menu gives the overlay pointer events; a backdrop click closes the menu and
      takes them away again. */
  method BackdropClosesMenu() returns (pointerWhenOpen: bool, pointerAfterBackdrop: bool)
    ensures pointerWhenOpen && !pointerAfterBackdrop
  {
    var nav := new Navbar();
    nav.ToggleMobileMenu();
    pointerWhenOpen := nav.OverlayPointerEvents();
    nav.CloseMobileMenu();
    pointerAfterBackdrop := nav.OverlayPointerEvents();
  }
}
