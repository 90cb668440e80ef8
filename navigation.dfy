/**
 * Navigation behaviour of the page: which nav link is highlighted for a scroll
 * position (script.js:53-70) and the mobile menu's open/closed and body-scroll
 * state under hamburger clicks, nav-link clicks and Escape (script.js:9-50, 369-375).
 */
module Navigation {
  import opened Wrappers

  // ---------------------------------------------------------------------
  // Active nav link

  /** A `section[id]` of the page: `offsetTop`, `offsetHeight` and `id`. */
  datatype Section = Section(top: int, height: int, id: string)

  /** The probe point is this far below the top of the viewport. */
  const ScrollProbe: real := 100.0

  predicate Covers(s: Section, pos: real) {
    s.top as real <= pos < (s.top + s.height) as real
  }

  /** The index of the last section whose `[top, top + height)` contains `pos`. */
  function LastCovering(sections: seq<Section>, pos: real): (r: Option<nat>)
    ensures r.Some? ==> r.value < |sections| && Covers(sections[r.value], pos)
    ensures r.Some? ==> forall k :: r.value < k < |sections| ==> !Covers(sections[k], pos)
    ensures r.None? <==> forall k :: 0 <= k < |sections| ==> !Covers(sections[k], pos)
  {
    if sections == [] then None
    else if Covers(sections[|sections| - 1], pos) then Some(|sections| - 1)
    else LastCovering(sections[..|sections| - 1], pos)
  }

  /** `document.querySelector('.nav-link[href="#id"]')`: the first nav link with that href. */
  function FirstLink(links: seq<string>, href: string): (r: Option<nat>)
    ensures r.Some? ==> r.value < |links| && links[r.value] == href
    ensures r.Some? ==> forall k :: 0 <= k < r.value ==> links[k] != href
    ensures r.None? <==> href !in links
  {
    if links == [] then None
    else if links[0] == href then Some(0)
    else match FirstLink(links[1..], href)
      case None => None
      case Some(k) => Some(k + 1)
  }

  /** The nav links that are `active` once a covering section has been seen. The href is
    * matched literally, as the selector does for an id without `"`, `\` or a line break. */
  function Highlight(links: seq<string>, s: Section): (r: set<nat>)
    ensures |r| <= 1
    ensures forall l :: l in r ==> l < |links| && links[l] == "#" + s.id
    ensures forall l :: l in r ==> "#" + s.id !in links[..l]
    ensures r == {} <==> "#" + s.id !in links
  {
    match FirstLink(links, "#" + s.id)
    case None => {}
    case Some(l) => {l}
  }

  /**
   * `updateActiveNavLink`: `links` are the hrefs of the nav links in document
   * order and `active` the indices of those that have the `active` class.
   * Every section that contains `scrollY + 100` clears all links and then
   * activates its own, so the last such section decides; if none does, nothing
   * changes. A covering section without a nav link leaves no link active.
   */
  method UpdateActiveNavLink(scrollY: real, sections: seq<Section>, links: seq<string>, active: set<nat>)
    returns (result: set<nat>)
    ensures match LastCovering(sections, scrollY + ScrollProbe)
      case None => result == active
      case Some(k) => result == Highlight(links, sections[k])
  {
    var pos := scrollY + ScrollProbe;
    result := active;
    var k := 0;
    while k < |sections|
      invariant 0 <= k <= |sections|
      invariant match LastCovering(sections[..k], pos)
        case None => result == active
        case Some(c) => c < |sections| && result == Highlight(links, sections[c])
    {
      assert sections[..k + 1][..k] == sections[..k];
      var s := sections[k];
      if pos >= s.top as real && pos < (s.top + s.height) as real {
        result := {};
        var link := FirstLink(links, "#" + s.id);
        if link.Some? {
          result := result + {link.value};
        }
      }
      k := k + 1;
    }
    assert sections[..k] == sections;
  }

  // ---------------------------------------------------------------------
  // Mobile menu

  /** `document.body.style.overflow`; `Unset` until a handler first writes it. */
  datatype Overflow = Unset | Hidden | Auto

  /** What a nav-link click does with the browser's default navigation. */
  datatype NavOutcome =
    | FollowLink                      // not an in-page anchor: the browser navigates
    | Intercepted(scroll: Option<int>) // default prevented; smooth-scroll to this top, if the target exists

  /** The fixed navbar's height, subtracted from the target's `offsetTop`. */
  const NavbarOffset: int := 70

  /** `href && href.startsWith('#')`: a missing or empty href is not intercepted. */
  predicate IsInPageAnchor(href: Option<string>) {
    href.Some? && |href.value| > 0 && href.value[0] == '#'
  }

  class MobileMenu {
    /** Whether `.hamburger` and `.nav-menu` exist on the page. */
    const hasHamburger: bool
    const hasNavMenu: bool
    /** Whether each has the `active` class. */
    var hamburgerActive: bool
    var menuActive: bool
    var overflow: Overflow

    /** A missing element never has the class. */
    ghost predicate Valid()
      reads this
    {
      (!hasHamburger ==> !hamburgerActive) && (!hasNavMenu ==> !menuActive)
    }

    /** The body is scroll-locked exactly while the menu is open. */
    predicate LockMatchesMenu()
      reads this
    {
      (overflow == Hidden) == menuActive
    }

    constructor (hamburger: bool, navMenu: bool)
      ensures Valid() && hasHamburger == hamburger && hasNavMenu == navMenu
      ensures !hamburgerActive && !menuActive && overflow == Unset
    {
      hasHamburger, hasNavMenu := hamburger, navMenu;
      hamburgerActive, menuActive, overflow := false, false, Unset;
    }

    /** Hamburger click (registered only when the hamburger exists): toggle both
      * classes and lock the body scroll iff the menu is now open. */
    method HamburgerClick()
      requires Valid() && hasHamburger
      modifies this`hamburgerActive, this`menuActive, this`overflow
      ensures Valid()
      ensures hamburgerActive == !old(hamburgerActive)
      ensures menuActive == (hasNavMenu && !old(menuActive))
      ensures overflow == (if menuActive then Hidden else Auto)
      ensures LockMatchesMenu()
    {
      hamburgerActive := !hamburgerActive;
      if hasNavMenu {
        menuActive := !menuActive;
      }
      if hasNavMenu && menuActive {
        overflow := Hidden;
      } else {
        overflow := Auto;
      }
    }

    /**
     * Click on a nav link with attribute `href`: close the menu, unlock the
     * body, and intercept only in-page anchors. `targetTop` is the `offsetTop`
     * of the element `document.querySelector(href)` finds, `None` when it
     * finds none; the scroll goes to 70 pixels above it.
     */
    method NavLinkClick(href: Option<string>, targetTop: Option<int>) returns (outcome: NavOutcome)
      requires Valid()
      modifies this`hamburgerActive, this`menuActive, this`overflow
      ensures Valid()
      ensures !hamburgerActive && !menuActive && overflow == Auto
      ensures LockMatchesMenu()
      ensures outcome.Intercepted? <==> IsInPageAnchor(href)
      ensures outcome.Intercepted? ==> (outcome.scroll.Some? <==> targetTop.Some?)
      ensures outcome.Intercepted? && targetTop.Some? ==> outcome.scroll.value + NavbarOffset == targetTop.value
    {
      if hasHamburger { hamburgerActive := false; }
      if hasNavMenu { menuActive := false; }
      overflow := Auto;
      if href.Some? && |href.value| > 0 && href.value[0] == '#' {
        if targetTop.Some? {
          outcome := Intercepted(Some(targetTop.value - NavbarOffset));
        } else {
          outcome := Intercepted(None);
        }
      } else {
        outcome := FollowLink;
      }
    }

    /** `keydown` on the document: Escape closes the menu but leaves the body's overflow as it was. */
    method KeyDown(key: string)
      requires Valid()
      modifies this`hamburgerActive, this`menuActive
      ensures Valid()
      ensures key == "Escape" ==> !hamburgerActive && !menuActive
      ensures key != "Escape" ==> hamburgerActive == old(hamburgerActive) && menuActive == old(menuActive)
      ensures overflow == old(overflow)
      ensures key == "Escape" ==> (LockMatchesMenu() <==> old(overflow) != Hidden)
    {
      if key == "Escape" {
        if hasHamburger { hamburgerActive := false; }
        if hasNavMenu { menuActive := false; }
      }
    }
  }

  /** Opening the menu with the hamburger and closing it with Escape leaves the page
    * scroll-locked with the menu closed, until the next hamburger or nav-link click. */
  method EscapeKeepsScrollLock(menu: MobileMenu)
    requires menu.Valid() && menu.hasHamburger && menu.hasNavMenu && !menu.menuActive
    modifies menu
    ensures menu.Valid() && !menu.menuActive && menu.overflow == Hidden
    ensures !menu.LockMatchesMenu()
  {
    menu.HamburgerClick();
    menu.KeyDown("Escape");
  }
}
