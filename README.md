# Image viewer: pagination, naming and gallery control

This project models the core of a small web image viewer for an Oracle
Cloud Object Storage bucket, and proves properties of that model.

The viewer has two parts:

- **The Flask server (`app.py`).** An `ImageViewer` object lists the bucket's image names. The list comes from the OCI SDK, a manifest behind a pre-authenticated request (PAR) URL, a local file, an environment variable, or a generated sample list. The SDK listing is filtered by extension and sorted; the manifest, local-file and `IMAGE_LIST` lists are used as given. The server caches the list, cuts it into pages of 20, and builds each image's URL. A login gate protects every route `app.py` declares, except `/login` and `/logout`; Flask's built-in `/static/<path:filename>` route, which serves the browser script, is not behind it.
- **The browser script (`static/js/app.js`).** It keeps the current page, the page count, the images of the page and the index of the image open in the full-screen modal. It draws the page-number controls, changes page, opens and steps through the modal, preloads neighbours, and reacts to keys and swipes.

Files:

- `wrappers.dfy`: `Option`.
- `text.dfy`: the string operations the source relies on: `str.split`, `in` on strings, ASCII lower-casing, decimal digits. `Text.Join` is not a source operation; it is the inverse that pins `Split` down.
- `url.dfy`: Python's `urllib.parse.urlparse`, used on the PAR URL.
- `api.dfy`: the JSON shapes of `/api/images` that server and browser share.
- `server.dfy`:
  - the `ImageViewer` class: constructor, PAR scan, list cache, page data loop;
  - the pure name, URL and page arithmetic;
  - `login_required` and `/login`.
- `layout.dfy`: `updatePagination`'s controls as a sequence of abstract items (`Prev`, `Active(n)`, `Link(n)`, `Ellipsis`, `Next`).
- `gallery.dfy`: the browser controller as the class `GalleryController`. Its fields are the script's module variables and the parts of the page the script writes and reads back.

Outside services are not computed; they are inputs:

- OCI SDK client, object listing, manifest request, `image_list.txt`, `IMAGE_LIST`: `Server.Backends`.
- `OCI_REGION`: `ImageViewer.regionEnv`.
- `OCI_NAMESPACE` and `OCI_BUCKET_NAME`: arguments of the `ImageViewer` constructor.
- Thumbnails: a function `thumbnailOf`.
- The `/api/images` answer: `Gallery.FetchOutcome`.
- Touch coordinates and key names: method parameters.

## Model

| member | source | states |
|---|---|---|
| Server.ImageFileExactly | app.py:233-240 | a name passes the image filter exactly when it is a stem whose last path component has a non-dot character, followed by one of the eight extensions in any letter case; so the empty name and a bare `.jpg` fail |
| Server.ImageFileIgnoresCase | app.py:239 | upper- or lower-casing a name never changes whether it is an image file |
| Server.SampleImagesAreImageFiles | app.py:141 | every generated sample name passes the image filter |
| Server.SortNames | app.py:165 | `list.sort()` yields an ordered permutation of the names |
| Server.ImageFilesOf | app.py:159-162 | the kept names are the listed names that pass the image filter, in listing order (a subsequence of the listing), each as many times as it is listed |
| Server.SdkImageList | app.py:159-167 | the SDK list is sorted and is a permutation of the filtered listing, duplicates kept; so it holds exactly the listed names that pass the filter |
| Server.NoSourceNoImages | app.py:175-179 | without a PAR URL and without an SDK listing the list is empty and nothing is cached |
| Server.ImageUrl | app.py:247-255 | an image's URL ends in `/` followed by its name, in both the PAR and the regional form |
| Server.ParImageUrl | app.py:242-252 | with a PAR URL, the image URL is the PAR URL's lower-cased scheme, `://`, host and path, then `/name`; query and fragment are dropped |
| Url.ParseComposed | app.py:244-245 | `urlparse` of `scheme://netloc path ?query #fragment` gives back each part, scheme lower-cased |
| Text.Split | app.py:91 | `str.split(sep)` gives at least one part, no part holds the separator, and joining the parts gives the string back |
| Text.Contains | app.py:43 | substring test: true exactly when the needle occurs at some index |
| Server.FirstMarker | app.py:94-99 | the first segment at or after a position that is the marker and has a successor, or the end |
| Server.ScanParResult | app.py:91-99 | the bucket becomes the segment after the first `b` with a successor, and the scan stops there; the namespace becomes the segment after the last such `n` before that point; each stays unchanged without its marker |
| Server.ImageViewer.constructor | app.py:72-84 | empty arguments fall back to the environment values; a PAR URL's path then overrides them as the scan decides; no list is cached |
| Server.ImageViewer.ExtractBucketInfoFromPar | app.py:86-99 | the loop leaves namespace and bucket as the scan over the PAR URL's path segments decides |
| Server.ImageViewer.GetImageList | app.py:126-142 | a cached list is returned unchanged unless a refresh is forced; otherwise the fetched list is returned and cached, except the uncached `[]` when there is no PAR URL to fall back on |
| Server.ImageViewer.BuildImageData | app.py:297-304 | one entry per page name, in order, same length |
| Server.ImageViewer.GetPaginatedImages | app.py:280-319 | the images are the entries of the Python slice `[(page-1)*per_page : page*per_page]` of the listed names, and the summary is that of the page; a cached list stays cached, and without one the fetched list becomes the cache (none for the uncached `[]`) |
| Server.PageWindow | app.py:289-292 | from page 1 on, a page holds the names from `(page-1)*per_page` on, in list order, at most `per_page`, cut at the end of the list |
| Server.ImageOnItsPage | app.py:289-292 | image `i` is entry `i % per_page` of page `i / per_page + 1` |
| Server.PageAfterLastIsEmpty | app.py:289-292 | a page after the last page is empty |
| Server.PagesBelowOne | app.py:289-292 | page 0 is empty; a negative page whose window fits in the list (`(1-page)*per_page <= len`) takes that window counted back from the end of the list |
| Server.TotalPagesIsCeiling | app.py:312 | `total_pages` is the least page count that holds every image, and 0 exactly for no images |
| Server.HasNextBeforeLastPage | app.py:313-314 | `has_prev` exactly from page 2 on; `has_next` exactly when `page*per_page < total_images`, which is exactly before the last page |
| Server.LoginRequired | app.py:36-48 | an authenticated request proceeds; otherwise an `/api…` path or an Accept header containing `application/json` gets 401, and anything else is redirected to login with the requested URL |
| Server.JsonRequestsGet401 | app.py:43-45 | unauthenticated `/api` paths and JSON-accepting requests never get the redirect |
| Server.CheckPassword | app.py:56-63 | no configured password is reported as such; a password is accepted exactly when it equals the non-empty configured one |
| Server.Session.Login | app.py:51-64 | a POST with the right non-empty password authenticates the session and redirects to `next` or `/`; an unset password or a wrong one shows the form with its error message; a GET shows the plain form; an empty configured password never authenticates |
| Server.Session.Logout | app.py:66-69 | the session is no longer authenticated and the browser goes to `/login` |
| Layout.ItemsAreSlotsOfPages | static/js/app.js:184-195 | the page-number items correspond one for one to the pages that emit one, each being that page's item |
| Layout.PagesIncrease | static/js/app.js:184 | the emitting pages lie in 1..total, in strictly increasing order |
| Layout.PagesComplete | static/js/app.js:184-195 | every page whose rule gives an item emits it |
| Layout.NumberItemsFollowPages | static/js/app.js:184-195 | together: one item per emitting page, in increasing page order, and no emitting page missed |
| Layout.ActivePresent | static/js/app.js:185-186 | a current page inside 1..total gets an Active item |
| Layout.ActiveAtMostOnce | static/js/app.js:185-186 | only the current page is Active, at most once, and never when it lies outside 1..total |
| Layout.ActiveExactlyOnce | static/js/app.js:185-186 | the current page is the one Active item when it lies in 1..total, and there is none otherwise |
| Layout.LinkExactlyWhenShown | static/js/app.js:187-189 | a page other than the current one has a Link item exactly when it is among the first three, the last three, or next to the current page |
| Layout.EllipsisExactlyInSlots | static/js/app.js:190-193 | an ellipsis stands only for a hidden page 4 or page `total-3` past its threshold, and every such page gets one |
| Layout.NumbersAreNotButtons | static/js/app.js:183-196 | the page numbers contain no Previous or Next item |
| Layout.PrevFirstNextLast | static/js/app.js:173-205 | Previous (to `current-1`) is first exactly when `has_prev`; Next (to `current+1`) is last exactly when `has_next`; neither appears elsewhere |
| Layout.EveryGapMarked | static/js/app.js:184-195 | with the corrected thresholds, every run of hidden pages between two shown pages holds exactly one ellipsis |
| Layout.AsWrittenLeavesGapUnmarked | static/js/app.js:190-192 | with the thresholds as written, current page 6 hides page 4 with no ellipsis, and current page `total-5` hides page `total-3` with none |
| Layout.TwentyFivePagesAtTen | static/js/app.js:167-208 | with the thresholds as written, 25 pages, page 10: Previous, 1 2 3 … 9 [10] 11 … 23 24 25, Next; page 22 is the ellipsis |
| Gallery.PageTextRoundTrip | static/js/app.js:61-66 | the stats text `Page X of Y` for natural X and Y is matched by the bootstrap regex and parsed back to X and Y |
| Gallery.NoMatchWithoutPrefix | static/js/app.js:62-64 | a text without `Page ` in it does not match |
| Gallery.DigitRun | static/js/app.js:62 | `\d+` is greedy: the run ends at the first non-digit or the end |
| Gallery.ButtonsMatchNavigation | static/js/app.js:388-398 | Previous is disabled exactly when navigating -1 is refused, and Next exactly when navigating +1 is, for every index from -1 to the image count |
| Gallery.SwipeStep | static/js/app.js:440-456 | a swipe navigates only when the horizontal distance exceeds the vertical one and 50; leftwards means next and rightwards previous |
| Gallery.SwipeMirror | static/js/app.js:447-455 | the mirrored swipe goes the other way |
| Gallery.IndexOf | static/js/app.js:258 | `findIndex` by name: the first position holding the name, or -1 when none does |
| Gallery.CardFound | static/js/app.js:46-52 | opening the modal by the name of a server-rendered card finds that card or an earlier card of the same name, never -1 |
| Gallery.Neighbours | static/js/app.js:460-477 | the preloaded indexes are exactly the neighbours `index-1`/`index+1` that lie on the page and have a non-empty URL; never the current index |
| Gallery.NeighboursOfCandidates | static/js/app.js:461-476 | filtering the candidates `preloadAdjacentImages` pushes gives exactly the preloadable neighbours |
| Gallery.GalleryController.constructor | static/js/app.js:2-6 | index 0, no images, page 1 of 1, modal closed |
| Gallery.GalleryController.InitializeCurrentPageImages | static/js/app.js:46-52 | the page's images become the server-rendered cards, one record per card in document order, with the card's name and URL and no thumbnail |
| Gallery.GalleryController.InitializePaginationFromServer | static/js/app.js:55-70 | a `Page X of Y` match in the span sets page X of Y; no span or no match changes nothing |
| Gallery.GalleryController.UpdatePagination | static/js/app.js:167-208 | the loop draws exactly the layout of the summary, with the ellipsis thresholds as written (`> 6`, `< total - 5`) |
| Gallery.GalleryController.UpdateStats | static/js/app.js:211-221 | the spans that exist are rewritten to `N images` and `Page X of Y` |
| Gallery.GalleryController.UpdateGallery | static/js/app.js:124-164 | the page's images and page count come from the answer; controls are redrawn with the thresholds as written; the stats spans that exist are rewritten and absent ones stay absent; the current page and everything the modal shows are left alone |
| Gallery.GalleryController.ChangePage | static/js/app.js:85-121 | a page outside 1..totalPages changes nothing; a failed fetch reloads `/?page=N` with the state unchanged; a successful one has exactly the effect of `updateGallery` on the answer and makes the page current |
| Gallery.GalleryController.UpdateNavigationButtons | static/js/app.js:388-398 | Previous disabled exactly at index ≤ 0, Next exactly at index ≥ count-1 |
| Gallery.GalleryController.PreloadAdjacentImages | static/js/app.js:460-477 | the loop preloads exactly the neighbours |
| Gallery.GalleryController.OpenModal | static/js/app.js:250-280 | the index is the first position of the name or -1; the modal shows name and URL; the counter reads `index+1 of count`; the buttons follow the index; the neighbours are preloaded; page state is untouched |
| Gallery.GalleryController.CloseModal | static/js/app.js:358-362 | the modal is hidden |
| Gallery.GalleryController.NavigateImage | static/js/app.js:365-385 | inside the page the index moves by the direction, and the modal shows that image with its counter and buttons; otherwise nothing changes, so the index never leaves the page |
| Gallery.GalleryController.HandleKeyboard | static/js/app.js:401-417 | with the modal open, Escape closes it and changes nothing else, ArrowLeft navigates -1, ArrowRight +1, other keys do nothing; with it closed nothing changes |
| Gallery.GalleryController.HandleSwipe | static/js/app.js:440-456 | a swipe navigates by its step, and changes nothing when the step is 0 |

## Left out

- The OCI SDK client and its authentication fallbacks (`_get_oci_client`) are not modelled; their results are inputs. The same goes for the `requests` calls (manifest, image download, HEAD) and `image_list.txt`.
- Server.ImageViewer.GetImageUrl: `OCI_REGION` is read on every call in the source (app.py:255); the model freezes it as the field `ImageViewer.regionEnv`. `IMAGE_LIST` is read on every fallback; the model takes it from the `Backends` of each call. `OCI_NAMESPACE` and `OCI_BUCKET_NAME` are read once at import and are constructor arguments.
- `get_image_thumbnail` (Pillow resize, JPEG, base64) is not modelled. Its result is the opaque optional string `thumbnailOf(name)`.
- `get_paginated_images` is not modelled for `per_page` ≤ 0. Division by zero raises for 0, and both callers (app.py:342, app.py:351) use the default 20.
- The Flask routes, templates, `redirect`/`url_for`, `send_file` and the session cookie are not modelled. The session is the boolean `Session.authenticated`. The redirect's `next` value is the requested URL, without its query-string encoding.
- `urlparse`'s `ValueError` paths (unbalanced IPv6 brackets, NFKC netloc checks) are not modelled. Neither are its caching and the `bytes` form.
- Server.IsImageFile: `str.lower()` is modelled on ASCII letters only. Python lower-cases all of Unicode.
- Server.IsImageFile: `os.path.splitext` is modelled as POSIX `posixpath.splitext`, where only `/` separates path components. On Windows `ntpath.splitext` also splits at `\`, so a name such as `dir\.jpg` is rejected there and accepted by the model.
- Server.FallbackImageList: `line.strip()` of the local file's lines is left to the input. `Lines` carries the already-stripped, non-empty lines.
- Server.SortNames: the order is by code point, as Python compares `str`. Locale collation does not apply to Python either.
- Gallery.GalleryController.InitializePaginationFromServer: `parseInt` is exact here. JavaScript numbers lose precision above 2^53.
- `loadModalImage`, its `onload`/`onerror` callbacks and `ensureImageFits`/`handleWindowResize` are not modelled. They are browser asynchrony and floating-point layout. The modal's shown name and URL stand for the image it loads.
- The `fetch` promise chain is not modelled as asynchronous. Each `changePage` sees its answer before the next event, so the race between overlapping fetches is not modelled. `history.pushState` and `window.location` are not modelled beyond the reload target. The loading indicator, `console` output and `smoothScrollToTop` are not modelled either.
- Gallery.GalleryController.ChangePage: when `updateGallery` throws halfway, the state it already changed stays changed in the browser. The model's failure outcome treats the whole fetch as failed, with no partial update.
- The HTML markup and event listeners are not modelled: `innerHTML`, `addViewButtonListeners`, `addTouchSupport`'s listener wiring. The unused `allImages` mirror is not modelled either.
- Gallery.GalleryController.InitializeCurrentPageImages: a card without a `data-image-name` or `data-image-url` attribute gives `undefined` in the script; the model's `Card` always carries both strings.
- Gallery.GalleryController.UpdateNavigationButtons: the script sets `disabled` only when the `prevBtn` or `nextBtn` element exists (app.js:392-397); the model assumes the page always has both buttons, unlike the stats spans, which are optional.
- `handleSwipe` compares JavaScript numbers. The model uses exact reals.
- Gallery.GalleryController.UpdatePagination: the early return when the page has no `.pagination` container (app.js:169) is not modelled; the model always redraws `controls`.
- The controller draws the ellipses with the thresholds as written (app.js:190-192); the corrected thresholds of the finding below are proved about the layout (`Layout.EveryGapMarked`) but are not what the script does.
- Three behaviours of the code the model keeps as they are:
  - with 25 pages and page 10 current, page 22 (`total-3`) is drawn as an ellipsis, not as a number;
  - neighbours are preloaded only when the modal opens (app.js:279), not when `navigateImage` steps;
  - closing the modal (app.js:358-362) keeps the image index.
- With an index of -1 (the name was not found), `preloadAdjacentImages` preloads image 0. `Neighbours` keeps that behaviour.

## Findings

| source | as written | input that shows it | evidently intended | confidence | as-written member | corrected member |
|---|---|---|---|---|---|---|
| static/js/app.js:190-192 | the ellipsis for page 4 needs `current_page > 6`, the one for page `total-3` needs `current_page < total_pages - 5` | 20 pages, current page 6: pages 1-3 and 5-7 are shown, page 4 is hidden and no ellipsis marks it; likewise current page 15 hides page 17 with no ellipsis | `current_page > 5` and `current_page < total_pages - 4`, so that every hidden run is marked | medium; not executed | Layout.AsWrittenLeavesGapUnmarked | Layout.EveryGapMarked |
