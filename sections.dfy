/** Switching between the main content sections and the legal sections
    (privacy policy, terms of use) on in-page link clicks and hash changes.
    The document's state is the set of ids of the sections that are visible. */
module Sections {

  /** The eight main content sections. */
  const MainSections: seq<string> :=
    ["hero", "o-nas", "fotogaleria", "stravovanie", "cennik", "informacie", "dokumenty", "kontakt"]

  /** The two legal sections. */
  const LegalSections: seq<string> := ["ochrana-udajov", "podmienky-pouzivania"]

  function Ids(ids: seq<string>): set<string>
  {
    set id | id in ids
  }

  /** The two lists name disjoint sets of sections. */
  lemma ListsDisjoint()
    ensures Ids(MainSections) !! Ids(LegalSections)
  {
  }

  /** Visible sections after a click on a link to '#' + hash: a legal hash leaves
      only that legal section visible among the two lists, any other non-empty hash
      shows all main sections and hides the legal ones, an empty hash does nothing. */
  function AfterLinkClick(visible: set<string>, hash: string): (r: set<string>)
    ensures hash in LegalSections ==>
      forall id :: id in MainSections || id in LegalSections ==> (id in r <==> id == hash)
    ensures hash != "" && hash !in LegalSections ==>
      Ids(MainSections) <= r && r !! Ids(LegalSections)
    ensures forall id :: id !in MainSections && id !in LegalSections ==> (id in r <==> id in visible)
    ensures hash == "" ==> r == visible
  {
    if hash in LegalSections then visible - Ids(MainSections) - Ids(LegalSections) + {hash}
    else if hash != "" then visible - Ids(LegalSections) + Ids(MainSections)
    else visible
  }

  /** Visible sections after the location hash changes to `hash`: as for a click,
      except that an empty hash also falls back to the main sections. */
  function AfterHashChange(visible: set<string>, hash: string): (r: set<string>)
    ensures hash in LegalSections ==>
      forall id :: id in MainSections || id in LegalSections ==> (id in r <==> id == hash)
    ensures hash !in LegalSections ==> Ids(MainSections) <= r && r !! Ids(LegalSections)
    ensures forall id :: id !in MainSections && id !in LegalSections ==> (id in r <==> id in visible)
  {
    if hash in LegalSections then visible - Ids(MainSections) - Ids(LegalSections) + {hash}
    else visible - Ids(LegalSections) + Ids(MainSections)
  }

  /** A legal link makes that legal section the only visible one of the two lists;
      sections outside both lists keep their visibility. */
  lemma LegalClickShowsOnlyTarget(visible: set<string>, hash: string, id: string)
    requires hash in LegalSections
    ensures id in MainSections || id in LegalSections ==>
      (id in AfterLinkClick(visible, hash) <==> id == hash)
    ensures !(id in MainSections || id in LegalSections) ==>
      (id in AfterLinkClick(visible, hash) <==> id in visible)
  {
  }

  /** Any other non-empty link shows exactly the eight main sections of the two
      lists; sections outside both lists keep their visibility. */
  lemma OtherClickShowsMain(visible: set<string>, hash: string, id: string)
    requires hash != "" && hash !in LegalSections
    ensures id in MainSections ==> id in AfterLinkClick(visible, hash)
    ensures id in LegalSections ==> id !in AfterLinkClick(visible, hash)
    ensures !(id in MainSections || id in LegalSections) ==>
      (id in AfterLinkClick(visible, hash) <==> id in visible)
  {
  }

  /** A link with an empty hash changes nothing. */
  lemma EmptyClickChangesNothing(visible: set<string>)
    ensures AfterLinkClick(visible, "") == visible
  {
  }

  /** For a non-empty hash, the hash change handler and the click handler agree. */
  lemma HashChangeMatchesClick(visible: set<string>, hash: string)
    requires hash != ""
    ensures AfterHashChange(visible, hash) == AfterLinkClick(visible, hash)
  {
  }

  /** An empty hash makes the hash change handler do what a click on any main
      section link does. */
  lemma EmptyHashShowsMain(visible: set<string>, main: string)
    requires main in MainSections
    ensures AfterHashChange(visible, "") == AfterLinkClick(visible, main)
  {
  }

  /** Repeating a click on the same link changes nothing more. */
  lemma ClickIdempotent(visible: set<string>, hash: string)
    ensures AfterLinkClick(AfterLinkClick(visible, hash), hash) == AfterLinkClick(visible, hash)
  {
  }

  /** Clicking a legal link and then a main-section link restores all eight main
      sections and hides both legal sections. */
  lemma LegalThenMain(visible: set<string>, legal: string, main: string)
    requires legal in LegalSections && main in MainSections
    ensures var v := AfterLinkClick(AfterLinkClick(visible, legal), main);
      Ids(MainSections) <= v && v !! Ids(LegalSections)
  {
  }

  /** The visibility classes of the page's sections. */
  class Page {
    var visible: set<string>

    constructor (initial: set<string>)
      ensures visible == initial
    {
      visible := initial;
    }

    /** Adds the "hidden" class to each listed section, one after another. */
    method HideEach(ids: seq<string>)
      modifies this
      ensures visible == old(visible) - Ids(ids)
    {
      for i := 0 to |ids|
        invariant visible == old(visible) - Ids(ids[..i])
      {
        assert Ids(ids[..i + 1]) == Ids(ids[..i]) + {ids[i]} by {
          assert ids[..i + 1] == ids[..i] + [ids[i]];
        }
        visible := visible - {ids[i]};
      }
      assert ids[..|ids|] == ids;
    }

    /** Removes the "hidden" class from each listed section, one after another. */
    method ShowEach(ids: seq<string>)
      modifies this
      ensures visible == old(visible) + Ids(ids)
    {
      for i := 0 to |ids|
        invariant visible == old(visible) + Ids(ids[..i])
      {
        assert Ids(ids[..i + 1]) == Ids(ids[..i]) + {ids[i]} by {
          assert ids[..i + 1] == ids[..i] + [ids[i]];
        }
        visible := visible + {ids[i]};
      }
      assert ids[..|ids|] == ids;
    }

    /** Walks the listed sections, showing the target and hiding every other one. */
    method ShowOnly(ids: seq<string>, target: string)
      modifies this
      ensures visible == old(visible) - Ids(ids) + (if target in ids then {target} else {})
    {
      for i := 0 to |ids|
        invariant visible == old(visible) - Ids(ids[..i]) + (if target in ids[..i] then {target} else {})
      {
        assert Ids(ids[..i + 1]) == Ids(ids[..i]) + {ids[i]} by {
          assert ids[..i + 1] == ids[..i] + [ids[i]];
        }
        if ids[i] == target {
          visible := visible + {ids[i]};
        } else {
          visible := visible - {ids[i]};
        }
      }
      assert ids[..|ids|] == ids;
    }

    /** Handler for a click on a link to '#' + hash. */
    method OnLinkClick(hash: string)
      modifies this
      ensures visible == AfterLinkClick(old(visible), hash)
    {
      if hash in LegalSections {
        HideEach(MainSections);
        HideEach(LegalSections);
        visible := visible + {hash};
      } else if hash != "" {
        HideEach(LegalSections);
        ShowEach(MainSections);
      }
    }

    /** Handler for a change of the location hash to `hash`. */
    method OnHashChange(hash: string)
      modifies this
      ensures visible == AfterHashChange(old(visible), hash)
    {
      if hash in LegalSections {
        HideEach(MainSections);
        ShowOnly(LegalSections, hash);
      } else {
        HideEach(LegalSections);
        ShowEach(MainSections);
      }
    }
  }
}
