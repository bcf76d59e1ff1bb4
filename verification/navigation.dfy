/** The navigation bar's scroll and resize handlers (app.js,
    `handleNavigation` and `handleResize`): the navbar's `scrolled` class,
    the `active` class on the nav link of the section in view, and the mobile
    menu closing on wide windows. Element class lists are boolean fields. */
module Navigation {

  /** The section scan measures each section from 120 pixels above its top. */
  const HeaderOffset := 120
  /** The navbar is `scrolled` beyond this scroll position. */
  const ScrolledThreshold := 100
  /** Windows wider than this close the mobile menu. */
  const MobileBreakpoint := 768

  /** A `section[id]` element: its id and its layout box. */
  datatype Section = Section(id: string, offsetTop: int, offsetHeight: int)

  /** The section's window `[offsetTop - 120, offsetTop - 120 + offsetHeight)`
      holds the scroll position. */
  predicate Covers(sec: Section, scrollY: int) {
    var top := sec.offsetTop - HeaderOffset;
    top <= scrollY < top + sec.offsetHeight
  }

  /** Index of the last section, in document order, whose window holds the
      scroll position, or -1 when none does. */
  function LastCovering(sections: seq<Section>, scrollY: int): (k: int)
    ensures -1 <= k < |sections|
    ensures k >= 0 ==> Covers(sections[k], scrollY)
    ensures forall j :: k < j < |sections| ==> !Covers(sections[j], scrollY)
  {
    if sections == [] then -1
    else if Covers(sections[|sections| - 1], scrollY) then |sections| - 1
    else LastCovering(sections[..|sections| - 1], scrollY)
  }

  /** `currentSection` after the scan: the id of the last covering section,
      or "" when none covers the scroll position. */
  function ActiveSection(sections: seq<Section>, scrollY: int): string {
    var k := LastCovering(sections, scrollY);
    if k < 0 then "" else sections[k].id
  }

  /** Scanning one more section: a covering one becomes the active section,
      any other leaves the active section as it was. */
  lemma ActiveSectionAppend(sections: seq<Section>, sec: Section, scrollY: int)
    ensures Covers(sec, scrollY) ==> ActiveSection(sections + [sec], scrollY) == sec.id
    ensures !Covers(sec, scrollY) ==> ActiveSection(sections + [sec], scrollY) == ActiveSection(sections, scrollY)
  {
    assert (sections + [sec])[..|sections|] == sections;
  }

  /** The `sections.forEach` loop: each covering section overwrites
      `currentSection`, so the last one wins. */
  method ScanSections(sections: seq<Section>, scrollY: int) returns (current: string)
    ensures current == ActiveSection(sections, scrollY)
  {
    current := "";
    for i := 0 to |sections|
      invariant current == ActiveSection(sections[..i], scrollY)
    {
      assert sections[..i + 1][..i] == sections[..i];
      if Covers(sections[i], scrollY) {
        current := sections[i].id;
      }
    }
    assert sections[..|sections|] == sections;
  }

  /** A `.nav-link` element: its `href` and whether it has class `active`. */
  class NavLink {
    const href: string
    var active: bool

    constructor (href: string)
      ensures this.href == href && !active
    {
      this.href := href;
      active := false;
    }
  }

  /** The navbar, the mobile menu, the hamburger button and the nav links. */
  class NavBar {
    var scrolled: bool
    var menuActive: bool
    var hamburgerActive: bool
    const links: seq<NavLink>

    constructor (links: seq<NavLink>)
      ensures this.links == links
      ensures !scrolled && !menuActive && !hamburgerActive
    {
      this.links := links;
      scrolled, menuActive, hamburgerActive := false, false, false;
    }

    /** The scroll listener of `handleNavigation`. Afterwards the navbar is
        `scrolled` exactly beyond the threshold, and a link is `active`
        exactly when its href is "#" followed by the active section's id. */
    method OnScroll(scrollY: int, sections: seq<Section>)
      modifies this`scrolled, links
      ensures scrolled <==> scrollY > ScrolledThreshold
      ensures forall l :: l in links ==> (l.active <==> l.href == "#" + ActiveSection(sections, scrollY))
    {
      if scrollY > ScrolledThreshold {
        scrolled := true;
      } else {
        scrolled := false;
      }
      var current := ScanSections(sections, scrollY);
      var target := "#" + current;
      for i := 0 to |links|
        invariant scrolled <==> scrollY > ScrolledThreshold
        invariant forall j :: 0 <= j < i ==> (links[j].active <==> links[j].href == target)
      {
        links[i].active := false;
        if links[i].href == target {
          links[i].active := true;
        }
      }
    }

    /** `handleResize`: a window wider than the breakpoint closes the menu and
        the hamburger; otherwise nothing changes. */
    method OnResize(innerWidth: int)
      modifies this`menuActive, this`hamburgerActive
      ensures innerWidth > MobileBreakpoint ==> !menuActive && !hamburgerActive
      ensures innerWidth <= MobileBreakpoint ==>
        menuActive == old(menuActive) && hamburgerActive == old(hamburgerActive)
    {
      if innerWidth > MobileBreakpoint {
        menuActive := false;
        hamburgerActive := false;
      }
    }
  }
}
