/**
 * The scroll handler of the `App` component (src/App.jsx): on every scroll
 * event it walks a fixed list of section ids in document order and keeps the
 * last one whose element exists and whose top, less a 200 px lookahead, is at
 * or above the current scroll offset.
 */
module ActiveSection {

  /** The section ids the handler scans, in document order. */
  const Sections: seq<string> := ["about", "skills", "experience", "projects", "contact"]

  /** A section counts as reached this many pixels before its top edge. */
  const Lookahead: int := 200

  /**
   * What the handler can see of the page: the `offsetTop` of each element
   * by id. An id without an entry is one that `getElementById` does not find.
   */
  type Document = map<string, int>

  /** The test the loop applies to one section id. */
  predicate Reached(doc: Document, name: string, scrollY: int) {
    name in doc && scrollY >= doc[name] - Lookahead
  }

  /** No id occurs twice. */
  predicate Distinct(names: seq<string>) {
    forall i, j :: 0 <= i < j < |names| ==> names[i] != names[j]
  }

  /**
   * The value the loop leaves in `current` after visiting `names` in order,
   * starting from the empty string: each reached id overwrites the previous.
   * The result is "" or one of the scanned ids.
   */
  function Scan(names: seq<string>, doc: Document, scrollY: int): (r: string)
    ensures r == "" || r in names
  {
    if names == [] then ""
    else if Reached(doc, names[|names| - 1], scrollY) then names[|names| - 1]
    else Scan(names[..|names| - 1], doc, scrollY)
  }

  /**
   * Reference definition of the scan's choice: the index of the last reached
   * id, or -1 when none is reached.
   */
  function LastReached(names: seq<string>, doc: Document, scrollY: int): (k: int)
    ensures -1 <= k < |names|
    ensures k >= 0 ==> Reached(doc, names[k], scrollY)
    ensures forall j :: k < j < |names| ==> !Reached(doc, names[j], scrollY)
  {
    if names == [] then -1
    else if Reached(doc, names[|names| - 1], scrollY) then |names| - 1
    else LastReached(names[..|names| - 1], doc, scrollY)
  }

  /** Position of a section id in `Sections`, or -1 for any other string. */
  function Rank(s: string): (r: int)
    ensures -1 <= r < |Sections|
    ensures r >= 0 ==> Sections[r] == s
    ensures r == -1 ==> s !in Sections
  {
    if s == Sections[0] then 0
    else if s == Sections[1] then 1
    else if s == Sections[2] then 2
    else if s == Sections[3] then 3
    else if s == Sections[4] then 4
    else -1
  }

  /** The handler's loop, statement for statement. */
  method HandleScroll(doc: Document, scrollY: int) returns (current: string)
    ensures current == Scan(Sections, doc, scrollY)
  {
    current := "";
    for i := 0 to |Sections|
      invariant current == Scan(Sections[..i], doc, scrollY)
    {
      var section := Sections[i];
      if section in doc && scrollY >= doc[section] - Lookahead {
        current := section;
      }
      assert Sections[..i + 1][..i] == Sections[..i];
    }
    assert Sections[..|Sections|] == Sections;
  }

  /** The scan returns the last reached id, or "" when no id is reached. */
  lemma {:induction false} ScanIsLastReached(names: seq<string>, doc: Document, scrollY: int)
    ensures var k := LastReached(names, doc, scrollY);
            Scan(names, doc, scrollY) == if k < 0 then "" else names[k]
  {
    if names != [] && !Reached(doc, names[|names| - 1], scrollY) {
      var init := names[..|names| - 1];
      ScanIsLastReached(init, doc, scrollY);
      var k := LastReached(init, doc, scrollY);
      if k >= 0 {
        assert init[k] == names[k];
      }
    }
  }

  /** The result is "" exactly when no scanned id is reached. */
  lemma {:induction false} ScanEmptyIff(names: seq<string>, doc: Document, scrollY: int)
    requires "" !in names
    ensures Scan(names, doc, scrollY) == "" <==>
            forall j :: 0 <= j < |names| ==> !Reached(doc, names[j], scrollY)
  {
    ScanIsLastReached(names, doc, scrollY);
    var k := LastReached(names, doc, scrollY);
    if k >= 0 {
      assert names[k] in names;
    }
  }

  /**
   * For distinct non-empty ids, the scan picks `names[i]` exactly when that
   * id is reached and no later id is.
   */
  lemma {:induction false} ScanPicks(names: seq<string>, doc: Document, scrollY: int, i: int)
    requires Distinct(names) && "" !in names
    requires 0 <= i < |names|
    ensures Scan(names, doc, scrollY) == names[i] <==>
            Reached(doc, names[i], scrollY) &&
            forall j :: i < j < |names| ==> !Reached(doc, names[j], scrollY)
  {
    ScanIsLastReached(names, doc, scrollY);
    assert names[i] in names;
  }

  /** The ids the handler scans are distinct and none is empty. */
  lemma SectionsWellFormed()
    ensures Distinct(Sections) && "" !in Sections
    ensures forall k :: 0 <= k < |Sections| ==> Rank(Sections[k]) == k
  {
  }

  /**
   * For fixed offsets, a larger scroll offset never moves the active section
   * to an earlier position in `Sections`: the set of reached ids only grows.
   */
  lemma ScanMonotone(doc: Document, y1: int, y2: int)
    requires y1 <= y2
    ensures Rank(Scan(Sections, doc, y1)) <= Rank(Scan(Sections, doc, y2))
  {
    SectionsWellFormed();
    ScanIsLastReached(Sections, doc, y1);
    ScanIsLastReached(Sections, doc, y2);
    var k1 := LastReached(Sections, doc, y1);
    var k2 := LastReached(Sections, doc, y2);
    if k1 >= 0 {
      assert Reached(doc, Sections[k1], y2);
    }
    assert Rank("") == -1;
  }

  /**
   * A page with sections 800 px apart. At offset 650 the 200 px lookahead
   * already counts "skills" (top 800) as reached, so "skills" is active, not
   * "about"; likewise offset 1450 gives "experience".
   */
  lemma ScanAtEvenlySpacedSections()
    ensures var doc := map["about" := 0, "skills" := 800, "experience" := 1600,
                           "projects" := 2400, "contact" := 3200];
            && Scan(Sections, doc, -201) == ""
            && Scan(Sections, doc, 0) == "about"
            && Scan(Sections, doc, 650) == "skills"
            && Scan(Sections, doc, 1450) == "experience"
            && Scan(Sections, doc, 3500) == "contact"
  {
    var doc := map["about" := 0, "skills" := 800, "experience" := 1600,
                   "projects" := 2400, "contact" := 3200];
    SectionsWellFormed();
    ScanEmptyIff(Sections, doc, -201);
    ScanPicks(Sections, doc, 0, 0);
    ScanPicks(Sections, doc, 650, 1);
    ScanPicks(Sections, doc, 1450, 2);
    ScanPicks(Sections, doc, 3500, 4);
  }

  /** A section missing from the page is never active, however far down. */
  lemma {:induction false} MissingNeverActive(doc: Document, scrollY: int, name: string)
    requires name !in doc
    ensures Scan(Sections, doc, scrollY) != name || name == ""
  {
    ScanIsLastReached(Sections, doc, scrollY);
  }
}
