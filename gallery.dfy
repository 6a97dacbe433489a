/** The gallery controller: the module-level state of the script (the photo list,
    the current page, the page count and the preview index) together with the
    parts of the document its handlers write, abstracted to values. */
module GalleryController {
  import opened Photos
  import opened Pager

  /** Outcome of fetching and parsing the gallery data file: a failure of any
      kind (non-success status, network or parse error), or the descriptors' paths. */
  datatype LoadResult = Fail | Ok(paths: seq<string>)

  /** Content of the gallery container. */
  datatype Container =
    | Markup                // the static page content, before the loader writes anything
    | Later                 // "photos will be added later" placeholder
    | NotAvailable          // "photos are not available" placeholder
    | Tiles(photos: seq<Photo>)  // one clickable tile per photo, in order

  class Gallery {
    // Script state
    var allPhotos: seq<Photo>
    var currentPage: int
    var totalPages: int
    var currentPreviewIndex: int

    // Gallery container and pagination group
    var container: Container
    var prevDisabled: bool
    var nextDisabled: bool
    const numberButtons: array<ButtonView>

    // Preview modal
    var modalHidden: bool
    var previewSrc: string
    var previewTag: string
    var previewPrevShown: bool
    var previewNextShown: bool

    /** The page count matches the collection (1 before any photo is loaded),
        the current page lies within it, and the preview index is -1 or a
        position in the collection. */
    ghost predicate Valid()
      reads this
    {
      totalPages == (if |allPhotos| == 0 then 1 else PageCount(|allPhotos|)) &&
      1 <= currentPage <= totalPages &&
      -1 <= currentPreviewIndex < |allPhotos|
    }

    /** What the pagination group currently looks like. */
    ghost function Controls(): PagerControls
      reads this, numberButtons
    {
      PagerControls(prevDisabled, nextDisabled, numberButtons[..])
    }

    /** Page `page` is rendered and the controls are in step with it. */
    ghost predicate Showing(page: int)
      reads this, numberButtons
    {
      page >= 1 &&
      currentPage == page &&
      container == Tiles(PageSlice(allPhotos, page)) &&
      Controls() == ControlStates(page, totalPages, numberButtons.Length)
    }

    /** The navigation controls of the open preview are in step with its index. */
    ghost predicate NavigationInStep()
      reads this
    {
      previewPrevShown == (currentPreviewIndex > 0) &&
      previewNextShown == (currentPreviewIndex < |allPhotos| - 1)
    }

    /** The state the script starts in: no photos, page 1 of 1, preview closed;
        the container and the pagination group as the static markup has them. */
    constructor (markup: PagerControls)
      ensures Valid()
      ensures allPhotos == [] && currentPage == 1 && totalPages == 1 && currentPreviewIndex == -1
      ensures container == Markup && Controls() == markup && modalHidden
      ensures fresh(numberButtons)
    {
      allPhotos := [];
      currentPage := 1;
      totalPages := 1;
      currentPreviewIndex := -1;
      container := Markup;
      prevDisabled := markup.prevDisabled;
      nextDisabled := markup.nextDisabled;
      numberButtons := new ButtonView[|markup.numbers|](i requires 0 <= i < |markup.numbers| => markup.numbers[i]);
      modalHidden := true;
      previewSrc := "";
      previewTag := "";
      previewPrevShown := false;
      previewNextShown := false;
    }

    /** Photo loader: the three outcomes of the one fetch made at start-up. */
    method Load(result: LoadResult)
      requires Valid() && allPhotos == []
      modifies this`allPhotos, this`totalPages, this`currentPage, this`container
      modifies this`prevDisabled, this`nextDisabled, numberButtons
      ensures Valid()
      ensures result.Fail? ==>
        container == Later && allPhotos == old(allPhotos) &&
        totalPages == old(totalPages) && currentPage == old(currentPage) &&
        Controls() == old(Controls())
      ensures result.Ok? && result.paths == [] ==>
        container == NotAvailable && allPhotos == [] &&
        totalPages == old(totalPages) && currentPage == old(currentPage) &&
        Controls() == old(Controls())
      ensures result.Ok? && result.paths != [] ==>
        allPhotos == Normalize(result.paths) &&
        totalPages == PageCount(|result.paths|) && Showing(1)
    {
      match result {
        case Fail =>
          container := Later;
        case Ok(paths) =>
          allPhotos := Normalize(paths);
          if |allPhotos| == 0 {
            container := NotAvailable;
          } else {
            totalPages := PageCount(|allPhotos|);
            RenderGalleryPage(1);
            UpdatePaginationButtons();
          }
      }
    }

    /** Sets the current page and redraws the container with that page's tiles.
        The page is not validated: callers pass only pages that exist. */
    method RenderGalleryPage(page: int)
      requires page >= 1
      modifies this`currentPage, this`container
      ensures currentPage == page
      ensures container == Tiles(PageSlice(allPhotos, page))
    {
      currentPage := page;
      container := Tiles(PageSlice(allPhotos, page));
    }

    /** Brings the "previous", "next" and numbered buttons in step with the
        current page, one button at a time. */
    method UpdatePaginationButtons()
      modifies this`prevDisabled, this`nextDisabled, numberButtons
      ensures Controls() == ControlStates(currentPage, totalPages, numberButtons.Length)
    {
      prevDisabled := currentPage == 1;
      nextDisabled := currentPage >= totalPages;
      var i := 0;
      while i < numberButtons.Length
        modifies numberButtons
        invariant 0 <= i <= numberButtons.Length
        invariant forall j :: 0 <= j < i ==> numberButtons[j] == NumberButton(j + 1, currentPage, totalPages)
      {
        numberButtons[i] := NumberButton(i + 1, currentPage, totalPages);
        i := i + 1;
      }
      var expected := ControlStates(currentPage, totalPages, numberButtons.Length);
      assert numberButtons[..] == expected.numbers;
    }

    /** The "previous" button: one page back unless already on page 1. */
    method OnPrevClick()
      requires Valid()
      modifies this`currentPage, this`container, this`prevDisabled, this`nextDisabled, numberButtons
      ensures Valid()
      ensures old(currentPage) > 1 ==> Showing(old(currentPage) - 1)
      ensures old(currentPage) <= 1 ==> unchanged(this) && unchanged(numberButtons)
    {
      if currentPage > 1 {
        RenderGalleryPage(currentPage - 1);
        UpdatePaginationButtons();
      }
    }

    /** The "next" button: one page on unless already on the last page. */
    method OnNextClick()
      requires Valid()
      modifies this`currentPage, this`container, this`prevDisabled, this`nextDisabled, numberButtons
      ensures Valid()
      ensures old(currentPage) < totalPages ==> Showing(old(currentPage) + 1)
      ensures old(currentPage) >= totalPages ==> unchanged(this) && unchanged(numberButtons)
    {
      if currentPage < totalPages {
        RenderGalleryPage(currentPage + 1);
        UpdatePaginationButtons();
      }
    }

    /** Numbered button k: to page k when that page exists. */
    method OnNumberClick(k: int)
      requires Valid() && 1 <= k <= numberButtons.Length
      modifies this`currentPage, this`container, this`prevDisabled, this`nextDisabled, numberButtons
      ensures Valid()
      ensures k <= totalPages ==> Showing(k)
      ensures k > totalPages ==> unchanged(this) && unchanged(numberButtons)
    {
      if k <= totalPages {
        RenderGalleryPage(k);
        UpdatePaginationButtons();
      }
    }

    /** Opens the preview on a photo: the index becomes that of the first photo
        with the same src (-1 if none), the modal shows the given photo, the
        navigation controls follow the index, and the modal is revealed. */
    method OpenPreview(photo: Photo)
      requires Valid()
      modifies this`currentPreviewIndex, this`previewSrc, this`previewTag
      modifies this`previewPrevShown, this`previewNextShown, this`modalHidden
      ensures Valid()
      ensures currentPreviewIndex == IndexOfSrc(allPhotos, photo.src)
      ensures previewSrc == photo.src && previewTag == photo.tag && !modalHidden
      ensures NavigationInStep()
    {
      currentPreviewIndex := IndexOfSrc(allPhotos, photo.src);
      previewSrc := photo.src;
      previewTag := photo.tag;
      UpdatePreviewNavigation();
      modalHidden := false;
    }

    /** Shows "previous" iff there is a photo before and "next" iff there is one after. */
    method UpdatePreviewNavigation()
      modifies this`previewPrevShown, this`previewNextShown
      ensures NavigationInStep()
    {
      previewPrevShown := currentPreviewIndex > 0;
      previewNextShown := currentPreviewIndex < |allPhotos| - 1;
    }

    /** The preview's "next": opens the following photo of the whole collection,
        when the preview is open and not on the last photo. */
    method GoToNextPhoto()
      requires Valid()
      modifies this`currentPreviewIndex, this`previewSrc, this`previewTag
      modifies this`previewPrevShown, this`previewNextShown, this`modalHidden
      ensures Valid()
      ensures 0 <= old(currentPreviewIndex) < |allPhotos| - 1 ==>
        var next := allPhotos[old(currentPreviewIndex) + 1];
        currentPreviewIndex == IndexOfSrc(allPhotos, next.src) &&
        previewSrc == next.src && previewTag == next.tag && !modalHidden && NavigationInStep()
      ensures 0 <= old(currentPreviewIndex) < |allPhotos| - 1 && UniqueSources(allPhotos) ==>
        currentPreviewIndex == old(currentPreviewIndex) + 1
      ensures !(0 <= old(currentPreviewIndex) < |allPhotos| - 1) ==> unchanged(this)
    {
      if currentPreviewIndex >= 0 && currentPreviewIndex < |allPhotos| - 1 {
        ghost var i := currentPreviewIndex + 1;
        OpenPreview(allPhotos[currentPreviewIndex + 1]);
        if UniqueSources(allPhotos) {
          IndexOfOwnSrc(allPhotos, i);
        }
      }
    }

    /** The preview's "previous": opens the preceding photo, when there is one. */
    method GoToPreviousPhoto()
      requires Valid()
      modifies this`currentPreviewIndex, this`previewSrc, this`previewTag
      modifies this`previewPrevShown, this`previewNextShown, this`modalHidden
      ensures Valid()
      ensures old(currentPreviewIndex) > 0 ==>
        var prev := allPhotos[old(currentPreviewIndex) - 1];
        currentPreviewIndex == IndexOfSrc(allPhotos, prev.src) &&
        previewSrc == prev.src && previewTag == prev.tag && !modalHidden && NavigationInStep()
      ensures old(currentPreviewIndex) > 0 && UniqueSources(allPhotos) ==>
        currentPreviewIndex == old(currentPreviewIndex) - 1
      ensures old(currentPreviewIndex) <= 0 ==> unchanged(this)
    {
      if currentPreviewIndex > 0 {
        ghost var i := currentPreviewIndex - 1;
        OpenPreview(allPhotos[currentPreviewIndex - 1]);
        if UniqueSources(allPhotos) {
          IndexOfOwnSrc(allPhotos, i);
        }
      }
    }

    /** Hides the modal and resets the index to -1, from any state. */
    method ClosePreview()
      requires Valid()
      modifies this`modalHidden, this`currentPreviewIndex
      ensures Valid()
      ensures modalHidden && currentPreviewIndex == -1
    {
      modalHidden := true;
      currentPreviewIndex := -1;
    }

    /** A click on the modal closes it only when it lands on the backdrop itself. */
    method OnModalClick(targetIsBackdrop: bool)
      requires Valid()
      modifies this`modalHidden, this`currentPreviewIndex
      ensures Valid()
      ensures targetIsBackdrop ==> modalHidden && currentPreviewIndex == -1
      ensures !targetIsBackdrop ==> unchanged(this)
    {
      if targetIsBackdrop {
        ClosePreview();
      }
    }

    /** A key press closes the modal when it is Escape and the modal is visible. */
    method OnKeyDown(key: string)
      requires Valid()
      modifies this`modalHidden, this`currentPreviewIndex
      ensures Valid()
      ensures key == "Escape" && !old(modalHidden) ==> modalHidden && currentPreviewIndex == -1
      ensures !(key == "Escape" && !old(modalHidden)) ==> unchanged(this)
    {
      if key == "Escape" && !modalHidden {
        ClosePreview();
      }
    }
  }

  /** Clicking tile i of a page opens the preview on that photo's own position in
      the whole collection, provided paths are unique. */
  lemma TileOpensItsPosition(photos: seq<Photo>, page: nat, i: int)
    requires page >= 1 && UniqueSources(photos) && 0 <= i < |PageSlice(photos, page)|
    ensures IndexOfSrc(photos, PageSlice(photos, page)[i].src) == PageStart(page) + i
  {
    IndexOfOwnSrc(photos, PageStart(page) + i);
  }

  /** Opening the preview on the first of several photos hides "previous" and
      shows "next". */
  lemma FirstPhotoNavigation(photos: seq<Photo>)
    requires |photos| > 1
    ensures var i := IndexOfSrc(photos, photos[0].src); !(i > 0) && i < |photos| - 1
  {
  }
}
