/**
 * The navigation bar: the mobile menu, the language dropdown, the current
 * language, the "scrolled" look past a small threshold, and the smooth
 * scroll to a section when a navigation link is clicked. The smooth-scroll
 * controller it owns is foreign code: the bar only creates it, destroys it
 * and asks it to scroll, and those calls are what the model records.
 */
module Navbar {
  import opened Opt
  import opened Sections

  datatype NavLink = NavLink(name: string, href: string)
  datatype Language = Language(code: string, name: string)

  /** The links of the desktop and mobile menus, as the bar declares them. */
  const NavLinks: seq<NavLink> := [
    NavLink("Home", "#home"),
    NavLink("About", "#about"),
    NavLink("Certificate", "#certificate"),
    NavLink("Projects", "#projects"),
    NavLink("Contact", "#contact")
  ]

  /** The same table with the certificate link pointing at the certificates section. */
  const CorrectedNavLinks: seq<NavLink> := NavLinks[2 := NavLink("Certificate", "#certificates")]

  const Languages: seq<Language> := [Language("EN", "English"), Language("ID", "Indonesia")]
  const DefaultLanguage: string := "EN"

  /** Scroll options: land 80 pixels above the section, clear of the fixed bar. */
  const ScrollOffset: int := -80
  const ScrollDuration: nat := 800
  const ScrollEasing: seq<real> := [0.25, 0.0, 0.35, 1.0]

  /** Past this many pixels the bar takes its "scrolled" look. */
  const ScrolledThreshold: real := 10.0

  /** One call of the controller's `scrollTo(target, options)`. */
  datatype ScrollCall = ScrollCall(target: string, offset: int, duration: nat, easing: seq<real>)

  /**
   * The scroll a navigation click asks for: one exactly when the target
   * section exists and a controller is there to do it.
   */
  function SmoothScrollCall(href: string, hasController: bool, ids: set<string>): (r: Option<ScrollCall>)
    ensures r.Some? <==> hasController && QuerySelector(href, ids).Found?
    ensures r.Some? ==> r.value.target in ids && href == "#" + r.value.target
    ensures r.Some? ==> r.value.offset == -80 && r.value.duration == 800
  {
    match QuerySelector(href, ids)
    case Found(id) => if hasController then Some(ScrollCall(id, ScrollOffset, ScrollDuration, ScrollEasing)) else None
    case _ => None
  }

  /** The scroll calls a click appends to the log. */
  function CallsOf(call: Option<ScrollCall>): seq<ScrollCall>
  {
    if call.Some? then [call.value] else []
  }

  /** The links to Home, About, Projects and Contact reach their sections; the Certificate link does not. */
  lemma NavLinkResolution()
    ensures forall i :: 0 <= i < |NavLinks| ==>
              (QuerySelector(NavLinks[i].href, SectionIds).Found? <==> i != 2)
  {
  }

  /** Clicking the Certificate link, as written, scrolls nowhere even with a controller. */
  lemma CertificateLinkUnresolved()
    ensures NavLinks[2].href == "#certificate"
    ensures QuerySelector(NavLinks[2].href, SectionIds) == NotFound
    ensures SmoothScrollCall(NavLinks[2].href, true, SectionIds) == None
  {
  }

  /** With the corrected table every navigation link scrolls to its section. */
  lemma CorrectedLinksAllResolve()
    ensures forall i :: 0 <= i < |CorrectedNavLinks| ==>
              SmoothScrollCall(CorrectedNavLinks[i].href, true, SectionIds).Some?
  {
  }

  /** The navigation bar's state and the calls it makes on its scroll controller. */
  class NavbarController {
    var isScrolled: bool
    var isMobileMenuOpen: bool
    var isLanguageOpen: bool
    var currentLanguage: string
    var hasController: bool            // locoScroll.current is not null
    var controllersCreated: nat
    var destroyCalls: nat
    var scrollCalls: seq<ScrollCall>
    var uncaughtErrors: nat            // exceptions thrown out of a click handler

    constructor ()
      ensures !isScrolled && !isMobileMenuOpen && !isLanguageOpen
      ensures currentLanguage == DefaultLanguage
      ensures !hasController && controllersCreated == 0 && destroyCalls == 0
      ensures scrollCalls == [] && uncaughtErrors == 0
    {
      isScrolled, isMobileMenuOpen, isLanguageOpen := false, false, false;
      currentLanguage := DefaultLanguage;
      hasController, controllersCreated, destroyCalls := false, 0, 0;
      scrollCalls, uncaughtErrors := [], 0;
    }

    /** The mount effect: a controller is created only if there is none yet. */
    method Mount()
      modifies this
      ensures hasController
      ensures controllersCreated == if old(hasController) then old(controllersCreated) else old(controllersCreated) + 1
      ensures destroyCalls == old(destroyCalls) && scrollCalls == old(scrollCalls)
      ensures isScrolled == old(isScrolled) && isMobileMenuOpen == old(isMobileMenuOpen)
      ensures isLanguageOpen == old(isLanguageOpen) && currentLanguage == old(currentLanguage)
      ensures uncaughtErrors == old(uncaughtErrors)
    {
      if !hasController {
        hasController := true;
        controllersCreated := controllersCreated + 1;
      }
    }

    /** The effect's cleanup: destroy the controller if there is one, then forget it. */
    method Unmount()
      modifies this
      ensures !hasController
      ensures destroyCalls == if old(hasController) then old(destroyCalls) + 1 else old(destroyCalls)
      ensures controllersCreated == old(controllersCreated) && scrollCalls == old(scrollCalls)
      ensures isScrolled == old(isScrolled) && isMobileMenuOpen == old(isMobileMenuOpen)
      ensures isLanguageOpen == old(isLanguageOpen) && currentLanguage == old(currentLanguage)
      ensures uncaughtErrors == old(uncaughtErrors)
    {
      if hasController {
        destroyCalls := destroyCalls + 1;
      }
      hasController := false;
    }

    /** The controller reports a scroll position. */
    method OnScroll(scrollTop: real)
      modifies this
      ensures isScrolled == (scrollTop > ScrolledThreshold)
      ensures isMobileMenuOpen == old(isMobileMenuOpen) && isLanguageOpen == old(isLanguageOpen)
      ensures currentLanguage == old(currentLanguage) && hasController == old(hasController)
      ensures controllersCreated == old(controllersCreated) && destroyCalls == old(destroyCalls)
      ensures scrollCalls == old(scrollCalls)
      ensures uncaughtErrors == old(uncaughtErrors)
    {
      isScrolled := scrollTop > ScrolledThreshold;
    }

    /**
     * A navigation link is clicked: the default jump is always prevented and
     * both menus always close; the controller scrolls only to a section that
     * exists. A lone `#` is not a valid selector: the lookup throws after the
     * menus were closed.
     */
    method HandleSmoothScroll(href: string) returns (prevented: bool)
      modifies this
      ensures prevented
      ensures uncaughtErrors == if QuerySelector(href, SectionIds).Invalid? then old(uncaughtErrors) + 1 else old(uncaughtErrors)
      ensures !isMobileMenuOpen && !isLanguageOpen
      ensures scrollCalls == old(scrollCalls) + CallsOf(SmoothScrollCall(href, old(hasController), SectionIds))
      ensures isScrolled == old(isScrolled) && currentLanguage == old(currentLanguage)
      ensures hasController == old(hasController)
      ensures controllersCreated == old(controllersCreated) && destroyCalls == old(destroyCalls)
    {
      prevented := true;
      isMobileMenuOpen := false;
      isLanguageOpen := false;
      var target := QuerySelector(href, SectionIds);
      if target.Invalid? {
        uncaughtErrors := uncaughtErrors + 1;
      } else if target.Found? && hasController {
        scrollCalls := scrollCalls + [ScrollCall(target.id, ScrollOffset, ScrollDuration, ScrollEasing)];
      }
    }

    /** A language is picked in the dropdown or the mobile menu. */
    method HandleLanguageChange(lang: string)
      modifies this
      ensures currentLanguage == lang && !isLanguageOpen
      ensures isScrolled == old(isScrolled) && isMobileMenuOpen == old(isMobileMenuOpen)
      ensures hasController == old(hasController) && scrollCalls == old(scrollCalls)
      ensures controllersCreated == old(controllersCreated) && destroyCalls == old(destroyCalls)
      ensures uncaughtErrors == old(uncaughtErrors)
    {
      currentLanguage := lang;
      isLanguageOpen := false;
    }

    /** A mousedown anywhere on the document; `insideSwitcher` says whether it hit the language switcher. */
    method HandleClickOutside(insideSwitcher: bool)
      modifies this
      ensures isLanguageOpen == (old(isLanguageOpen) && insideSwitcher)
      ensures isScrolled == old(isScrolled) && isMobileMenuOpen == old(isMobileMenuOpen)
      ensures currentLanguage == old(currentLanguage)
      ensures hasController == old(hasController) && scrollCalls == old(scrollCalls)
      ensures controllersCreated == old(controllersCreated) && destroyCalls == old(destroyCalls)
      ensures uncaughtErrors == old(uncaughtErrors)
    {
      if isLanguageOpen && !insideSwitcher {
        isLanguageOpen := false;
      }
    }

    /** The language trigger button. */
    method ToggleLanguage()
      modifies this
      ensures isLanguageOpen == !old(isLanguageOpen)
      ensures isScrolled == old(isScrolled) && isMobileMenuOpen == old(isMobileMenuOpen)
      ensures currentLanguage == old(currentLanguage)
      ensures hasController == old(hasController) && scrollCalls == old(scrollCalls)
      ensures controllersCreated == old(controllersCreated) && destroyCalls == old(destroyCalls)
      ensures uncaughtErrors == old(uncaughtErrors)
    {
      isLanguageOpen := !isLanguageOpen;
    }

    /** The mobile menu button. */
    method ToggleMobileMenu()
      modifies this
      ensures isMobileMenuOpen == !old(isMobileMenuOpen)
      ensures isScrolled == old(isScrolled) && isLanguageOpen == old(isLanguageOpen)
      ensures currentLanguage == old(currentLanguage)
      ensures hasController == old(hasController) && scrollCalls == old(scrollCalls)
      ensures controllersCreated == old(controllersCreated) && destroyCalls == old(destroyCalls)
      ensures uncaughtErrors == old(uncaughtErrors)
    {
      isMobileMenuOpen := !isMobileMenuOpen;
    }
  }

  /**
   * Mount twice, clean up, mount again and clean up twice: the second mount
   * finds the controller already there and makes none, so two controllers are
   * made, each destroyed once, and the extra cleanup destroys nothing.
   */
  method RemountLifecycle() returns (created: nat, destroyed: nat)
    ensures created == 2 && destroyed == 2
  {
    var bar := new NavbarController();
    bar.Mount();
    bar.Mount();
    bar.Unmount();
    bar.Mount();
    bar.Unmount();
    bar.Unmount();
    created, destroyed := bar.controllersCreated, bar.destroyCalls;
  }

  /** Clicking the Certificate link with both menus open only closes them: no scroll, no error. */
  method CertificateLinkOnlyClosesMenus() returns (menuOpen: bool, dropdownOpen: bool, scrolls: nat, errors: nat)
    ensures !menuOpen && !dropdownOpen && scrolls == 0 && errors == 0
  {
    var bar := new NavbarController();
    bar.Mount();
    bar.ToggleMobileMenu();
    bar.ToggleLanguage();
    CertificateLinkUnresolved();
    var _ := bar.HandleSmoothScroll(NavLinks[2].href);
    menuOpen, dropdownOpen, scrolls := bar.isMobileMenuOpen, bar.isLanguageOpen, |bar.scrollCalls|;
    errors := bar.uncaughtErrors;
  }
}
