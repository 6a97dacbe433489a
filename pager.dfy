/** The pager's arithmetic: how many pages a collection has, which slice a page
    shows, and what the pagination controls look like for a given page. */
module Pager {

  /** Tiles per gallery page. */
  const PhotosPerPage: nat := 6

  /** Math.ceil(n / PhotosPerPage): the fewest pages that hold n photos. */
  function PageCount(n: nat): (r: nat)
    ensures r * PhotosPerPage >= n
    ensures r > 0 ==> (r - 1) * PhotosPerPage < n
  {
    (n + PhotosPerPage - 1) / PhotosPerPage
  }

  /** n photos need at least one page exactly when there is at least one. */
  lemma PageCountPositive(n: nat)
    ensures PageCount(n) >= 1 <==> n >= 1
  {
  }

  /** First collection index shown on a 1-based page. */
  function PageStart(page: nat): int
  {
    (page - 1) * PhotosPerPage
  }

  /** The photos shown on a page: the slice [(page-1)*6, page*6) of the collection,
      cut off at its end (Array.prototype.slice never reaches past the length). */
  function PageSlice<T>(photos: seq<T>, page: nat): (r: seq<T>)
    requires page >= 1
    ensures |r| <= PhotosPerPage
    ensures forall i :: 0 <= i < |r| ==> PageStart(page) + i < |photos| && r[i] == photos[PageStart(page) + i]
    ensures PageStart(page) + PhotosPerPage <= |photos| ==> |r| == PhotosPerPage
    ensures PageStart(page) < |photos| < PageStart(page) + PhotosPerPage ==> |r| == |photos| - PageStart(page)
    ensures PageStart(page) >= |photos| ==> r == []
  {
    var start := PageStart(page);
    var end := start + PhotosPerPage;
    if start >= |photos| then []
    else if end <= |photos| then photos[start..end]
    else photos[start..]
  }

  /** Every page from 1 to PageCount(n) shows at least one photo. */
  lemma PageInRangeNotEmpty<T>(photos: seq<T>, page: nat)
    requires 1 <= page <= PageCount(|photos|)
    ensures |PageSlice(photos, page)| >= 1
  {
  }

  /** Pages 1 .. count, one after another. */
  function PagesUpTo<T>(photos: seq<T>, count: nat): seq<T>
  {
    if count == 0 then [] else PagesUpTo(photos, count - 1) + PageSlice(photos, count)
  }

  /** Pages 1 .. count show the first count*6 photos (or all of them), in order. */
  lemma {:induction false} PagesUpToIsPrefix<T>(photos: seq<T>, count: nat)
    ensures PagesUpTo(photos, count) ==
      photos[..if count * PhotosPerPage <= |photos| then count * PhotosPerPage else |photos|]
  {
    if count > 0 {
      PagesUpToIsPrefix(photos, count - 1);
      var lo := if (count - 1) * PhotosPerPage <= |photos| then (count - 1) * PhotosPerPage else |photos|;
      var hi := if count * PhotosPerPage <= |photos| then count * PhotosPerPage else |photos|;
      assert PageSlice(photos, count) == photos[lo..hi];
      assert photos[..lo] + photos[lo..hi] == photos[..hi];
    }
  }

  /** The pages partition the collection: read in order, pages 1 .. PageCount(n)
      show every photo exactly once and in the collection's order. */
  lemma PagesCoverCollection<T>(photos: seq<T>)
    ensures PagesUpTo(photos, PageCount(|photos|)) == photos
  {
    PagesUpToIsPrefix(photos, PageCount(|photos|));
  }

  /** A collection of 14 photos has 3 pages: two full ones and a last one with
      the photos at indices 12 and 13. */
  lemma FourteenPhotos<T>(photos: seq<T>)
    requires |photos| == 14
    ensures PageCount(|photos|) == 3
    ensures |PageSlice(photos, 1)| == 6 && |PageSlice(photos, 2)| == 6
    ensures PageSlice(photos, 3) == [photos[12], photos[13]]
  {
  }

  /** What a numbered button looks like: hidden, or shown and possibly marked active. */
  datatype ButtonView = Hidden | Shown(active: bool)

  /** The visible state of the pagination group: the "previous" and "next" controls
      and the numbered buttons, button k (1-based) at position k-1. */
  datatype PagerControls = PagerControls(prevDisabled: bool, nextDisabled: bool, numbers: seq<ButtonView>)

  /** Numbered button k is shown when page k exists and is active when it is the current page. */
  function NumberButton(k: int, currentPage: int, totalPages: int): ButtonView
  {
    if k <= totalPages then Shown(k == currentPage) else Hidden
  }

  /** The numbers of the buttons that are shown and marked active. */
  function ActiveButtons(numbers: seq<ButtonView>): set<int>
  {
    set i | 0 <= i < |numbers| && numbers[i] == Shown(true) :: i + 1
  }

  lemma ActiveAt(numbers: seq<ButtonView>, k: int)
    requires 1 <= k <= |numbers| && numbers[k - 1] == Shown(true)
    ensures k in ActiveButtons(numbers)
  {
  }

  /** The control states the pager sets for a current page, a page count and
      `buttons` numbered buttons: "previous" is disabled iff on page 1, "next"
      iff on or past the last page, button k is shown iff page k exists, and
      when the current page exists the only active button is its own. */
  function ControlStates(currentPage: int, totalPages: int, buttons: nat): (c: PagerControls)
    ensures |c.numbers| == buttons
    ensures c.prevDisabled <==> currentPage == 1
    ensures c.nextDisabled <==> currentPage >= totalPages
    ensures forall i :: 0 <= i < buttons ==> (c.numbers[i].Shown? <==> i + 1 <= totalPages)
    ensures 1 <= currentPage <= totalPages ==>
      ActiveButtons(c.numbers) == if currentPage <= buttons then {currentPage} else {}
  {
    var c := PagerControls(
      currentPage == 1,
      currentPage >= totalPages,
      seq(buttons, i => NumberButton(i + 1, currentPage, totalPages)));
    if 1 <= currentPage <= totalPages && currentPage <= buttons then
      ActiveAt(c.numbers, currentPage);
      c
    else c
  }

  /** Under the pager's invariant the control states read as the design describes
      them: "next" is disabled exactly on the last page, and exactly the button of
      the current page (if the group has one) is marked active. */
  lemma ControlStatesMeaning(currentPage: int, totalPages: int, buttons: nat)
    requires 1 <= currentPage <= totalPages
    ensures var c := ControlStates(currentPage, totalPages, buttons);
      (c.prevDisabled <==> currentPage == 1) &&
      (c.nextDisabled <==> currentPage == totalPages) &&
      (forall i :: 0 <= i < buttons ==> (c.numbers[i].Shown? <==> i + 1 <= totalPages)) &&
      ActiveButtons(c.numbers) == if currentPage <= buttons then {currentPage} else {}
  {
  }
}
