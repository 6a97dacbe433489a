# Gallery controller of a static marketing site, in Dafny

This project models the browser script of a small marketing website: a photo
gallery that loads its photo list from a static data file and shows it six
photos per page, a preview modal that steps through the whole collection, a
mobile navigation menu, and a switch between the page's eight main sections and
its two legal sections (privacy policy, terms of use).

The script's module-level state is `allPhotos`, `currentPage`, `totalPages` and
`currentPreviewIndex`. It becomes the class `GalleryController.Gallery`. The
class also has fields for the parts of the document that the handlers write:

- the gallery container: static markup, one of two placeholders, or a sequence
  of tiles;
- whether the "previous" and "next" pagination buttons are disabled;
- an array of numbered buttons, each hidden or shown, and active or not;
- the preview modal: whether it is hidden, the photo it shows, and whether its
  two navigation controls are visible.

The fetch and its parse become an input value, `LoadResult = Fail | Ok(paths)`.
The pure parts are functions with lemmas:

- the file name and tag derived from a path (module `Photos`);
- `findIndex` by `src` (module `Photos`);
- the page count and the slice a page shows (module `Pager`);
- the control states the pager sets (module `Pager`);
- the visibility rules for sections (module `Sections`).

The handlers in the source loop over buttons and section lists. In the model
these are methods with loops, proved against those functions. The mobile menu
is the class `MobileMenu.Menu`, which holds one `hidden` flag.

`Gallery.Valid()` is the invariant the pager's guards keep:

- `totalPages` is 1 before any photo is loaded, and `ceil(n/6)` after;
- `1 <= currentPage <= totalPages`;
- `-1 <= currentPreviewIndex < n`.

Every handler requires and ensures it. Each handler's `modifies` clause names
the fields it may write. So the preview handlers cannot touch the pager's
state, and the pager's handlers cannot touch the preview's state.

Where the intended design and the code differ, the model follows the code:

- The "next" button is disabled when `currentPage >= totalPages`, not when the
  two are equal. `Pager.ControlStatesMeaning` shows that under the invariant the
  two readings agree.
- A failed fetch leaves `allPhotos` as it was. The code never empties it.
- The guards do not check whether photos were loaded. Numbered button 1 is
  enabled whenever `1 <= totalPages`, and `totalPages` starts at 1. So after a
  placeholder is shown, clicking button 1 still replaces the placeholder with
  an empty tile list. `Gallery.OnNumberClick` states this: `Showing(1)` with
  no photos means `container == Tiles([])`.
- Duplicate paths are allowed. `findIndex` returns the first match, so the
  preview's "next" can move backwards. For example, with paths `[a, b, a]`,
  "next" from index 1 opens index 0 (`Photos.DuplicateSourceExample`).
  The ±1 steps are proved only when all paths are unique.

## Model

| member | source | states |
|---|---|---|
| `Photos.FileName` | assets/js/script.js:31 | The result has no '/'. It is a suffix of the path. Either it is the whole path, or the character just before it is '/'. So it is the text after the last '/'. |
| `Photos.FileNameWithoutSlash` | assets/js/script.js:31 | A path without '/' is its own file name. |
| `Photos.LastDotOrSlash` | assets/js/script.js:32 | Returns the index of the last '.' or '/', or -1 when there is none. No later character is '.' or '/'. |
| `Photos.StripExtension` | assets/js/script.js:32 | Where `\.[^/.]+$` matches at some position i, the result is the text before i. When it matches nowhere, the result is the input. |
| `Photos.SpaceSeparators` | assets/js/script.js:32 | The result has the same length. Each '-' and '_' becomes a space and every other character is kept. The result has no '-' or '_'. |
| `Photos.Tag` | assets/js/script.js:32 | The tag is as long as the file name up to the dropped extension. It agrees with the file name character by character, except that '-' and '_' become spaces. It has no '-' or '_'. |
| `Photos.ToPhoto` | assets/js/script.js:31-37 | A record's `src` is its path, and its file name is the path's last '/'-segment. Its tag is derived from that file name and has no '-' or '_'. |
| `Photos.Normalize` | assets/js/script.js:30-38 | There is one record per descriptor, in order. Record i is built from path i and has `src` equal to it. |
| `Photos.NormalizedRecords` | assets/js/script.js:30-38 | Loading keeps the number of descriptors. Record i has `src` equal to path i. Its file name is the path's last '/'-segment. Its tag has no '-' or '_'. |
| `Photos.IndexOfSrc` | assets/js/script.js:205 | Returns the first position whose `src` matches: it matches, and nothing before it does. Returns -1 exactly when nothing matches. |
| `Photos.IndexOfOwnSrc` | assets/js/script.js:205 | With unique paths, looking up photo i's `src` gives i. |
| `Photos.DuplicateSourceFoundEarlier` | assets/js/script.js:205 | When photos i < j share a path, looking up photo j's path finds a position no later than i. |
| `Photos.DuplicateSourceExample` | assets/js/script.js:205 | With paths [a, b, a], the third photo's path is found at position 0. |
| `Pager.PageCount` | assets/js/script.js:46 | The result is the ceiling of n/6: r pages hold n photos, and r-1 pages do not. |
| `Pager.PageCountPositive` | assets/js/script.js:40-46 | There is at least one page exactly when there is at least one photo. |
| `Pager.PageSlice` | assets/js/script.js:65-67 | Page p shows at most 6 photos. Tile i is photo (p-1)*6+i. The page is full when six photos remain, shows the rest when fewer remain, and is empty past the end. |
| `Pager.PageInRangeNotEmpty` | assets/js/script.js:46-47 | Every page from 1 to `PageCount(n)` shows at least one photo. |
| `Pager.PagesUpToIsPrefix` | assets/js/script.js:65-67 | Pages 1..k, read in order, give the first min(6k, n) photos. |
| `Pager.PagesCoverCollection` | assets/js/script.js:46-67 | Pages 1..`PageCount(n)`, read in order, give the whole collection: each photo once, in order. |
| `Pager.FourteenPhotos` | assets/js/script.js:46-67 | For 14 photos: 3 pages, pages 1 and 2 hold 6 each, and page 3 holds photos 12 and 13. |
| `Pager.ControlStates` | assets/js/script.js:139-178 | "previous" is disabled iff page is 1, and "next" iff page >= count. Button k is shown iff k <= count. When 1 <= page <= count, the only active button is the current page's, if it exists. |
| `Pager.ControlStatesMeaning` | assets/js/script.js:139-178 | When 1 <= page <= count: "previous" is disabled iff page is 1, and "next" is disabled iff page is the last. Button k is shown iff k <= count. The only button marked active is the one for the current page, if it exists. |
| `GalleryController.Gallery.constructor` | assets/js/script.js:2-6 | Starts with no photos, page 1 of 1 and the preview closed. The container and buttons are as in the static markup. |
| `GalleryController.Gallery.Load` | assets/js/script.js:16-54 | Fail: shows the "later" placeholder and changes nothing else. Empty list: shows the "not available" placeholder and keeps the page count. Otherwise: the photos are the normalised descriptors, `totalPages == ceil(n/6)`, page 1 is shown and the controls match it. |
| `GalleryController.Gallery.RenderGalleryPage` | assets/js/script.js:57-87 | Sets `currentPage` to the page. The container holds exactly that page's slice, in order. |
| `GalleryController.Gallery.UpdatePaginationButtons` | assets/js/script.js:132-179 | After going through the buttons one by one, the controls equal `ControlStates` for the current page, the page count and the number of buttons. |
| `GalleryController.Gallery.OnPrevClick` | assets/js/script.js:101-106 | Moves to the previous page only when `currentPage > 1`, otherwise changes nothing. Keeps `Valid()`. |
| `GalleryController.Gallery.OnNextClick` | assets/js/script.js:111-116 | Moves to the next page only when `currentPage < totalPages`, otherwise changes nothing. Keeps `Valid()`. |
| `GalleryController.Gallery.OnNumberClick` | assets/js/script.js:120-128 | Moves to page k only when `k <= totalPages`, otherwise changes nothing. Keeps `Valid()`. |
| `GalleryController.Gallery.OpenPreview` | assets/js/script.js:200-218 | The index is the first position with the photo's `src`, or -1. The modal shows the given photo and is visible. "previous" is visible iff index > 0, and "next" iff index < n-1. |
| `GalleryController.Gallery.UpdatePreviewNavigation` | assets/js/script.js:235-246 | The two navigation controls follow the index. |
| `GalleryController.Gallery.GoToNextPhoto` | assets/js/script.js:221-225 | When 0 <= index < n-1, opens photo index+1. With unique paths the index then grows by exactly 1. Otherwise nothing changes. The pager is untouched. |
| `GalleryController.Gallery.GoToPreviousPhoto` | assets/js/script.js:228-232 | When index > 0, opens photo index-1. With unique paths the index then drops by exactly 1. Otherwise nothing changes. The pager is untouched. |
| `GalleryController.Gallery.ClosePreview` | assets/js/script.js:249-255 | From any state, hides the modal and sets the index to -1. |
| `GalleryController.Gallery.OnModalClick` | assets/js/script.js:186-188 | A click on the backdrop itself closes the preview. Any other click changes nothing. |
| `GalleryController.Gallery.OnKeyDown` | assets/js/script.js:191-195 | Escape closes the preview while the modal is visible. Any other key, or a hidden modal, changes nothing. |
| `GalleryController.TileOpensItsPosition` | assets/js/script.js:67-84 | With unique paths, clicking tile i of page p opens the preview at index (p-1)*6+i of the whole collection. |
| `GalleryController.FirstPhotoNavigation` | assets/js/script.js:205-245 | Opening the first of several photos hides "previous" and shows "next". |
| `Sections.ListsDisjoint` | assets/js/script.js:290-291 | No section is in both the main list and the legal list. |
| `Sections.AfterLinkClick` | assets/js/script.js:294-337 | A legal hash leaves that section the only visible one in either list. Any other non-empty hash shows all main sections and hides both legal ones. An empty hash changes nothing. Sections in neither list never change. |
| `Sections.AfterHashChange` | assets/js/script.js:340-372 | A legal hash leaves that section the only visible one in either list. Any other hash, empty included, shows all main sections and hides both legal ones. Sections in neither list never change. |
| `Sections.LegalClickShowsOnlyTarget` | assets/js/script.js:301-322 | After a click on a legal link, the clicked section is the only visible section in either list. Sections in neither list keep their visibility. |
| `Sections.OtherClickShowsMain` | assets/js/script.js:323-336 | After a click on any other non-empty link, all main sections are visible and both legal sections are hidden. Sections in neither list keep their visibility. |
| `Sections.EmptyClickChangesNothing` | assets/js/script.js:298-336 | A click on a link with an empty hash changes nothing. |
| `Sections.HashChangeMatchesClick` | assets/js/script.js:340-372 | For a non-empty hash, the hash-change handler gives the same result as the click handler. |
| `Sections.EmptyHashShowsMain` | assets/js/script.js:360-371 | An empty hash falls back to the main sections, as a click on a main link does. |
| `Sections.ClickIdempotent` | assets/js/script.js:294-337 | Clicking the same link a second time changes nothing more. |
| `Sections.LegalThenMain` | assets/js/script.js:294-337 | A legal click followed by a main-section click shows all eight main sections and hides both legal ones. |
| `Sections.Page.HideEach` | assets/js/script.js:305-308 | Hides exactly the listed sections. |
| `Sections.Page.ShowEach` | assets/js/script.js:332-335 | Shows exactly the listed sections. |
| `Sections.Page.ShowOnly` | assets/js/script.js:350-359 | In the list, shows the target and hides every other section. Sections outside the list keep their visibility. |
| `Sections.Page.OnLinkClick` | assets/js/script.js:294-337 | The new visible set is `AfterLinkClick(old, hash)`. |
| `Sections.Page.OnHashChange` | assets/js/script.js:340-372 | The new visible set is `AfterHashChange(old, hash)`. |
| `MobileMenu.Menu.OnToggleClick` | assets/js/script.js:263-265 | Flips the menu between hidden and shown. |
| `MobileMenu.Menu.OnLinkClick` | assets/js/script.js:268-273 | Choosing a link hides the menu. |
| `MobileMenu.Menu.OnDocumentClick` | assets/js/script.js:276-284 | A click outside both the menu and its toggle leaves the menu hidden. A click inside either changes nothing. |

## Left out

- The fetch, `response.json()` and `async`/`await` are I/O. Their outcome is the input `LoadResult`, and the `catch` branch is folded into `Fail`.
- A descriptor without a `path` string makes the source's `map` throw, which its `catch` turns into the "later" placeholder. The model's descriptors are path strings, so this cannot happen.
- Building the DOM is left out: `innerHTML` templates, CSS class names, `style.opacity`, `display` strings, the image `onerror` handler, `window.scrollTo` and `console.log`. These are rendering side effects and decide nothing. The model keeps only the visible states they encode.
- Listener registration, `DOMContentLoaded` wiring, `closest`/`contains` target tests and `preventDefault` are UI dispatch. Each handler's effect is modelled, and the target tests are boolean inputs.
- Null checks on missing elements are left out. All elements are assumed to be present.
- The regular expressions themselves are left out. Their effect is written as explicit recursive string functions.
- A hidden numbered button keeps its old CSS classes. The model tracks only what is visible: hidden, or shown and active or not. The classes are reset every time the button is shown again.
- GalleryController.Gallery.Load requires `allPhotos == []`. The script loads once at start-up into the empty initial list, so with `Valid()` the preview is closed and `totalPages == 1`.
- GalleryController.Gallery.RenderGalleryPage requires `page >= 1`. JavaScript's `slice` counts a negative start from the end, and this is not modelled. Every caller passes a page of at least 1.
- The preview modal's navigation controls start out hidden. Their real state in the static markup is not modelled, because the modal is hidden until the first open sets them.
