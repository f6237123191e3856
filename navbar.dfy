/**
 * The `Navbar` component (src/App.jsx): it draws a backdrop once the page is
 * scrolled more than 50 px, and highlights the link whose lower-cased name
 * equals the active section handed down by `App`.
 */
module Navbar {
  import ActiveSection

  /** The link names, in the order the navbar shows them. */
  const NavLinks: seq<string> := ["About", "Skills", "Experience", "Projects", "Contact"]

  /** The navbar's own scroll listener shows the backdrop past this offset. */
  const ScrolledThreshold: int := 50

  /** Lower-casing of one character, for the ASCII letters the names use. */
  function LowerChar(c: char): char {
    if 'A' <= c <= 'Z' then (c as int + 32) as char else c
  }

  /** `String.prototype.toLowerCase` restricted to ASCII. */
  function ToLower(s: string): (r: string)
    ensures |r| == |s|
    ensures forall i :: 0 <= i < |s| ==> r[i] == LowerChar(s[i])
  {
    if s == [] then [] else [LowerChar(s[0])] + ToLower(s[1..])
  }

  /** Link `i`, lower-cased, is exactly the `i`-th id the scroll handler scans. */
  lemma LinksMatchSections()
    ensures forall i :: 0 <= i < |NavLinks| ==> ToLower(NavLinks[i]) == ActiveSection.Sections[i]
  {
    forall i | 0 <= i < |NavLinks|
      ensures ToLower(NavLinks[i]) == ActiveSection.Sections[i]
    {
      LinkMatchesSection(i);
    }
  }

  /** One link at a time, each literal compared character by character. */
  lemma LinkMatchesSection(i: nat)
    requires i < |NavLinks|
    ensures ToLower(NavLinks[i]) == ActiveSection.Sections[i]
  {
    if i == 0 { LowersTo(NavLinks[0], "about"); }
    else if i == 1 { LowersTo(NavLinks[1], "skills"); }
    else if i == 2 { LowersTo(NavLinks[2], "experience"); }
    else if i == 3 { LowersTo(NavLinks[3], "projects"); }
    else { LowersTo(NavLinks[4], "contact"); }
  }

  /** A string lowers to `t` when it has `t`'s length and each character lowers to `t`'s. */
  lemma LowersTo(s: string, t: string)
    requires |s| == |t| && forall k :: 0 <= k < |s| ==> LowerChar(s[k]) == t[k]
    ensures ToLower(s) == t
  {
  }

  /**
   * The test that decides whether link `i` gets the active style and
   * underline: it holds exactly when the active section is the `i`-th id the
   * scroll handler scans.
   */
  predicate IsActiveLink(activeSection: string, i: nat): (b: bool)
    requires i < |NavLinks|
    ensures b <==> activeSection == ActiveSection.Sections[i]
  {
    LinksMatchSections();
    activeSection == ToLower(NavLinks[i])
  }

  /** What the navbar shows: whether the backdrop is on, and which links are highlighted. */
  datatype View = View(scrolled: bool, highlighted: seq<bool>)

  /**
   * The navbar drawn from its `isScrolled` state and the active section it is
   * given: one entry per link, set exactly for the link of the active section.
   */
  function Render(activeSection: string, isScrolled: bool): (v: View)
    ensures v.scrolled == isScrolled && |v.highlighted| == |NavLinks|
    ensures forall i :: 0 <= i < |NavLinks| ==>
              (v.highlighted[i] <==> activeSection == ActiveSection.Sections[i])
  {
    View(isScrolled,
         seq(|NavLinks|, i requires 0 <= i < |NavLinks| => IsActiveLink(activeSection, i)))
  }

  /** Whatever the active section, at most one link is highlighted. */
  lemma AtMostOneHighlighted(activeSection: string, isScrolled: bool)
    ensures var h := Render(activeSection, isScrolled).highlighted;
            forall i, j :: 0 <= i < |h| && 0 <= j < |h| && h[i] && h[j] ==> i == j
  {
    ActiveSection.SectionsWellFormed();
  }

  /**
   * The state `App` starts with, "home", and the scan's "none" result, "",
   * highlight no link.
   */
  lemma NothingHighlightedForHomeOrNone(isScrolled: bool)
    ensures forall i :: 0 <= i < |NavLinks| ==> !Render("home", isScrolled).highlighted[i]
    ensures forall i :: 0 <= i < |NavLinks| ==> !Render("", isScrolled).highlighted[i]
  {
    ActiveSection.SectionsWellFormed();
  }

  /**
   * After a scroll event, link `i` is highlighted exactly when section `i` is
   * the last reached one.
   */
  lemma HighlightFollowsScan(doc: ActiveSection.Document, scrollY: int, isScrolled: bool, i: nat)
    requires i < |NavLinks|
    ensures Render(ActiveSection.Scan(ActiveSection.Sections, doc, scrollY), isScrolled).highlighted[i]
            <==> i as int == ActiveSection.LastReached(ActiveSection.Sections, doc, scrollY)
  {
    var active := ActiveSection.Scan(ActiveSection.Sections, doc, scrollY);
    var k := ActiveSection.LastReached(ActiveSection.Sections, doc, scrollY);
    assert Render(active, isScrolled).highlighted[i] == (active == ActiveSection.Sections[i]);
    ActiveSection.SectionsWellFormed();
    ActiveSection.ScanIsLastReached(ActiveSection.Sections, doc, scrollY);
    if k >= 0 {
      assert active == ActiveSection.Sections[k];
      assert ActiveSection.Rank(ActiveSection.Sections[i]) == i;
      assert ActiveSection.Rank(ActiveSection.Sections[k]) == k;
    } else {
      assert active == "";
      assert ActiveSection.Sections[i] in ActiveSection.Sections;
    }
  }

  /**
   * The component's own state: `isScrolled` starts false and is rewritten by
   * the navbar's scroll listener on every scroll event.
   */
  class NavigationBar {
    var isScrolled: bool

    /** The first render: no scroll event yet, so no backdrop, whatever section is active. */
    constructor ()
      ensures !isScrolled
      ensures forall a :: !Shown(a).scrolled
    {
      isScrolled := false;
    }

    /** `handleScroll`: the backdrop is on exactly when the page is scrolled past 50 px. */
    method HandleScroll(scrollY: int)
      modifies this
      ensures isScrolled <==> scrollY > ScrolledThreshold
    {
      isScrolled := scrollY > ScrolledThreshold;
    }

    /** What the navbar shows now, for the active section `App` hands down. */
    function Shown(activeSection: string): View
      reads this
    {
      Render(activeSection, isScrolled)
    }
  }
}
