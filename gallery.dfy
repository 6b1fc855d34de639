/**
 * The browser-side gallery controller (static/js/app.js): the page the
 * gallery shows, the images of that page, the image open in the full-screen
 * view, and the decisions taken on clicks, keys and swipes.
 *
 * The module-level variables of the script are the fields of
 * `GalleryController`; the parts of the page the script writes and later
 * reads back (the modal's visibility, its buttons, name, image and counter,
 * the pagination controls) are fields too. HTTP answers, touch coordinates
 * and the text of the server-rendered "Page X of Y" span are inputs.
 */
module Gallery {
  import opened Wrappers
  import opened Text
  import opened Api
  import opened Layout

  // ---------------------------------------------------------------------------
  // "Page X of Y": the text the stats line shows and the bootstrap reads back
  // ---------------------------------------------------------------------------

  /** JavaScript `${i}` for an integer. */
  function IntToString(i: int): string {
    if i < 0 then "-" + NatToString(-i) else NatToString(i)
  }

  /** The stats text `Page ${current_page} of ${total_pages}` (app.js:219). */
  function PageText(current: int, total: int): string {
    "Page " + IntToString(current) + " of " + IntToString(total)
  }

  /** The end of the run of digits that starts at `from`. */
  function DigitRun(s: string, from: nat): (end: nat)
    requires from <= |s|
    ensures from <= end <= |s|
    ensures AllDigits(s[from..end])
    ensures end < |s| ==> !IsDigit(s[end])
    decreases |s| - from
  {
    if from < |s| && IsDigit(s[from]) then
      var end := DigitRun(s, from + 1);
      assert s[from..end] == [s[from]] + s[from + 1..end];
      end
    else from
  }

  lemma DigitRunUnique(s: string, from: nat, end: nat)
    requires from <= end <= |s|
    requires AllDigits(s[from..end])
    requires end < |s| ==> !IsDigit(s[end])
    ensures DigitRun(s, from) == end
    decreases end - from
  {
    if from < end {
      assert IsDigit(s[from..end][0]);
      assert s[from + 1..end] == s[from..end][1..];
      DigitRunUnique(s, from + 1, end);
    }
  }

  /** `/Page (\d+) of (\d+)/` anchored at index `i`, with `parseInt` of both groups. */
  function MatchAt(t: string, i: nat): Option<(nat, nat)>
    requires i <= |t|
  {
    if !OccursAt(t, "Page ", i) then None
    else
      var a := i + 5;
      var e1 := DigitRun(t, a);
      if e1 == a || !OccursAt(t, " of ", e1) then None
      else
        var b := e1 + 4;
        var e2 := DigitRun(t, b);
        if e2 == b then None
        else Some((DigitsValue(t[a..e1]), DigitsValue(t[b..e2])))
  }

  /** The leftmost match at or after `from`. */
  function FirstMatch(t: string, from: nat): Option<(nat, nat)>
    requires from <= |t|
    decreases |t| - from
  {
    var m := MatchAt(t, from);
    if m.Some? || from == |t| then m else FirstMatch(t, from + 1)
  }

  /** `text.match(/Page (\d+) of (\d+)/)`, as the two numbers. */
  function ParsePageText(t: string): Option<(nat, nat)> {
    FirstMatch(t, 0)
  }

  /** The stats text for natural numbers reads back as those numbers. */
  lemma PageTextRoundTrip(current: nat, total: nat)
    ensures ParsePageText(PageText(current, total)) == Some((current, total))
  {
    var sx := NatToString(current);
    var sy := NatToString(total);
    var t := PageText(current, total);
    assert t == "Page " + sx + " of " + sy;
    var e1 := 5 + |sx|;
    assert t[..5] == "Page ";
    assert t[5..e1] == sx;
    assert t[e1] == ' ';
    DigitRunUnique(t, 5, e1);
    assert t[e1..e1 + 4] == " of ";
    assert t[e1 + 4..] == sy;
    DigitRunUnique(t, e1 + 4, |t|);
    assert OccursAt(t, "Page ", 0) && OccursAt(t, " of ", e1);
    assert t[e1 + 4..|t|] == sy;
    assert DigitRun(t, 5) == e1 && DigitRun(t, e1 + 4) == |t|;
    DigitsValueOfNatToString(current);
    DigitsValueOfNatToString(total);
    assert DigitsValue(t[5..e1]) == current;
    assert DigitsValue(t[e1 + 4..|t|]) == total;
    assert MatchAt(t, 0) == Some((current, total));
  }

  /** A text without "Page " in it has no match. */
  lemma NoMatchWithoutPrefix(t: string, from: nat)
    requires from <= |t|
    requires forall i :: from <= i ==> !OccursAt(t, "Page ", i)
    ensures FirstMatch(t, from) == None
    decreases |t| - from
  {
    if from < |t| {
      NoMatchWithoutPrefix(t, from + 1);
    }
  }

  // ---------------------------------------------------------------------------
  // Decisions that only compare numbers
  // ---------------------------------------------------------------------------

  /** Moving by `direction` from `index` stays on the page. */
  predicate CanNavigate(index: int, count: int, direction: int) {
    0 <= index + direction < count
  }

  /**
   * The rule of `updateNavigationButtons` (Previous disabled at index 0 or
   * below, Next at the last index or above) agrees with what `navigateImage`
   * allows for every index from -1 (name not found) to the image count.
   */
  lemma ButtonsMatchNavigation(index: int, count: int)
    requires -1 <= index <= count
    ensures (index <= 0) <==> !CanNavigate(index, count, -1)
    ensures (index >= count - 1) <==> !CanNavigate(index, count, 1)
  {
  }

  function Abs(x: real): real {
    if x < 0.0 then -x else x
  }

  /** Minimum swipe distance (app.js:445). */
  const MIN_SWIPE_DISTANCE: real := 50.0

  /** The step of `handleSwipe`: +1 (next), -1 (previous) or 0 (no navigation). */
  function SwipeStep(startX: real, startY: real, endX: real, endY: real): (step: int)
    ensures step == -1 || step == 0 || step == 1
    ensures step != 0 <==> Abs(startX - endX) > Abs(startY - endY) && Abs(startX - endX) > MIN_SWIPE_DISTANCE
    ensures step == 1 <==> step != 0 && endX < startX
  {
    var dx := startX - endX;
    var dy := startY - endY;
    if Abs(dx) > Abs(dy) && Abs(dx) > MIN_SWIPE_DISTANCE then (if dx > 0.0 then 1 else -1) else 0
  }

  /** Swiping the same distance the other way goes the other way. */
  lemma SwipeMirror(startX: real, startY: real, endX: real, endY: real)
    ensures SwipeStep(endX, startY, startX, endY) == -SwipeStep(startX, startY, endX, endY)
  {
  }

  /** `currentPageImages.findIndex(img => img.name === name)`. */
  function IndexOf(images: seq<ImageRecord>, name: string): (r: int)
    ensures -1 <= r < |images|
    ensures r >= 0 ==> images[r].name == name
    ensures forall k :: 0 <= k < |images| && (r == -1 || k < r) ==> images[k].name != name
  {
    if |images| == 0 then -1
    else if images[0].name == name then 0
    else
      var r := IndexOf(images[1..], name);
      assert forall k :: 1 <= k < |images| ==> images[k] == images[1..][k - 1];
      if r == -1 then -1 else r + 1
  }

  /** An image at index `k` that can be preloaded: on the page and with a non-empty URL. */
  predicate Preloadable(images: seq<ImageRecord>, k: int) {
    0 <= k < |images| && images[k].url != ""
  }

  /** The images `preloadAdjacentImages` loads: the neighbours of `index` that can be, previous first. */
  function Neighbours(images: seq<ImageRecord>, index: int): (ks: seq<int>)
    ensures forall k <- ks :: (k == index - 1 || k == index + 1) && Preloadable(images, k)
    ensures Preloadable(images, index - 1) ==> index - 1 in ks
    ensures Preloadable(images, index + 1) ==> index + 1 in ks
    ensures index !in ks
  {
    (if Preloadable(images, index - 1) then [index - 1] else [])
    + (if Preloadable(images, index + 1) then [index + 1] else [])
  }

  /** The candidates of `ks` that can be preloaded, in order. */
  function LoadableOf(images: seq<ImageRecord>, ks: seq<int>): seq<int>
    decreases |ks|
  {
    if |ks| == 0 then []
    else
      LoadableOf(images, ks[..|ks| - 1])
      + (if Preloadable(images, ks[|ks| - 1]) then [ks[|ks| - 1]] else [])
  }

  // ---------------------------------------------------------------------------
  // The controller
  // ---------------------------------------------------------------------------

  /** The modal's counter, "position of count". */
  datatype Counter = Counter(position: int, count: int)

  /** How the `/api/images` request of `changePage` ends. */
  datatype FetchOutcome = Fetched(data: PageResponse) | FetchFailed

  /** What `changePage` does to the page as a whole. */
  datatype PageChange =
    | Ignored                   // out-of-range page: nothing happens
    | Rendered                  // the gallery was redrawn in place
    | Reloaded(location: string) // the browser is sent to `location`

  /** The data attributes of one server-rendered `.image-card`. */
  datatype Card = Card(imageName: string, imageUrl: string)

  /** The records `initializeCurrentPageImages` maps the cards to, in document order. */
  function CardRecords(cards: seq<Card>): (r: seq<ImageRecord>)
    ensures |r| == |cards|
    ensures forall i :: 0 <= i < |cards| ==> r[i] == ImageRecord(cards[i].imageName, cards[i].imageUrl, None)
  {
    if |cards| == 0 then []
    else [ImageRecord(cards[0].imageName, cards[0].imageUrl, None)] + CardRecords(cards[1..])
  }

  /** Opening the modal by a card's name finds that card or an earlier one of the same name. */
  lemma CardFound(cards: seq<Card>, i: int)
    requires 0 <= i < |cards|
    ensures var k := IndexOf(CardRecords(cards), cards[i].imageName);
            0 <= k <= i && cards[k].imageName == cards[i].imageName
  {
  }

  class GalleryController {
    var currentPage: int
    var totalPages: int
    var currentPageImages: seq<ImageRecord>
    var currentImageIndex: int
    /** The modal is displayed. */
    var modalOpen: bool
    var prevDisabled: bool
    var nextDisabled: bool
    /** The name, URL and counter the modal shows. */
    var shownName: string
    var shownUrl: string
    var counter: Counter
    /** The pagination controls, once the script has drawn them. */
    var controls: seq<PageItem>
    /** The text of the `current-page` and `total-images` spans; None when the page has no such span. */
    var pageSpan: Option<string>
    var imagesSpan: Option<string>

    /**
     * The initial values of the script's variables (app.js:2-6), on a page
     * whose stats spans hold the server-rendered texts given.
     */
    constructor (pageSpan: Option<string>, imagesSpan: Option<string>)
      ensures currentImageIndex == 0 && currentPageImages == [] && currentPage == 1 && totalPages == 1
      ensures !modalOpen && controls == []
      ensures this.pageSpan == pageSpan && this.imagesSpan == imagesSpan
    {
      this.pageSpan := pageSpan;
      this.imagesSpan := imagesSpan;
      currentImageIndex := 0;
      currentPageImages := [];
      currentPage := 1;
      totalPages := 1;
      modalOpen := false;
      prevDisabled := false;
      nextDisabled := false;
      shownName := "";
      shownUrl := "";
      counter := Counter(0, 0);
      controls := [];
    }

    /**
     * `initializeCurrentPageImages`: the page's images are the server-rendered
     * cards, in document order, each with the name and URL of its data
     * attributes and no thumbnail.
     */
    method InitializeCurrentPageImages(cards: seq<Card>)
      modifies this`currentPageImages
      ensures currentPageImages == CardRecords(cards)
    {
      currentPageImages := CardRecords(cards);
    }

    /** Only the open image (index, name, URL, counter, buttons) differs from the old state. */
    twostate predicate OnlyModalImageChanged()
      reads this
    {
      && currentPage == old(currentPage) && totalPages == old(totalPages)
      && currentPageImages == old(currentPageImages)
      && modalOpen == old(modalOpen) && controls == old(controls)
      && pageSpan == old(pageSpan) && imagesSpan == old(imagesSpan)
    }

    /**
     * The effect of `updateGallery(data)` on everything but the current page:
     * the page's images and page count come from the answer, the controls and
     * the stats that exist are redrawn, and the modal is left as it was.
     */
    twostate predicate Redrawn(data: PageResponse)
      reads this
    {
      && currentPageImages == data.images && totalPages == data.pagination.totalPages
      && controls == Controls(data.pagination, AS_WRITTEN_HEAD, AS_WRITTEN_TAIL)
      && pageSpan == (if old(pageSpan).Some? then Some(PageText(data.pagination.currentPage, data.pagination.totalPages)) else None)
      && imagesSpan == (if old(imagesSpan).Some? then Some(IntToString(data.pagination.totalImages) + " images") else None)
      && currentImageIndex == old(currentImageIndex) && modalOpen == old(modalOpen)
      && shownName == old(shownName) && shownUrl == old(shownUrl) && counter == old(counter)
      && prevDisabled == old(prevDisabled) && nextDisabled == old(nextDisabled)
    }

    /**
     * The outcome of `navigateImage(direction)`: inside the page, the image
     * `direction` steps away is shown with its counter and buttons; otherwise
     * nothing changes.
     */
    twostate predicate NavigatedBy(direction: int)
      reads this
    {
      var target := old(currentImageIndex) + direction;
      var images := old(currentPageImages);
      if CanNavigate(old(currentImageIndex), |images|, direction) then
        && OnlyModalImageChanged()
        && currentImageIndex == target
        && shownName == images[target].name && shownUrl == images[target].url
        && counter == Counter(target + 1, |images|)
        && prevDisabled == (target <= 0) && nextDisabled == (target >= |images| - 1)
      else
        && OnlyModalImageChanged()
        && currentImageIndex == old(currentImageIndex)
        && shownName == old(shownName) && shownUrl == old(shownUrl) && counter == old(counter)
        && prevDisabled == old(prevDisabled) && nextDisabled == old(nextDisabled)
    }

    /**
     * `initializePaginationFromServer`: a "Page X of Y" in the `current-page`
     * span sets the current page and the page count; no span or no match
     * changes nothing.
     */
    method InitializePaginationFromServer()
      modifies this`currentPage, this`totalPages
      ensures pageSpan.Some? && ParsePageText(pageSpan.value).Some? ==>
                var m := ParsePageText(pageSpan.value).value;
                currentPage == m.0 && totalPages == m.1
      ensures pageSpan.None? || ParsePageText(pageSpan.value).None? ==>
                currentPage == old(currentPage) && totalPages == old(totalPages)
    {
      if pageSpan.Some? {
        var pageMatch := ParsePageText(pageSpan.value);
        if pageMatch.Some? {
          currentPage := pageMatch.value.0;
          totalPages := pageMatch.value.1;
        }
      }
    }

    /** `updatePagination`: the controls are the layout of the summary. */
    method UpdatePagination(p: Pagination)
      modifies this`controls
      ensures controls == Controls(p, AS_WRITTEN_HEAD, AS_WRITTEN_TAIL)
    {
      var current, total := p.currentPage, p.totalPages;
      var prefix: seq<PageItem> := if p.hasPrev then [Prev(current - 1)] else [];
      var numbers: seq<PageItem> := [];
      var pageNum := 1;
      while pageNum <= total
        invariant 1 <= pageNum <= (if total >= 1 then total + 1 else 1)
        invariant numbers == NumberItems(current, total, AS_WRITTEN_HEAD, AS_WRITTEN_TAIL, pageNum - 1)
      {
        var added: seq<PageItem> := [];
        if pageNum == current {
          added := [Active(pageNum)];
        } else if pageNum <= 3 || pageNum > total - 3 || (pageNum >= current - 1 && pageNum <= current + 1) {
          added := [Link(pageNum)];
        } else if pageNum == 4 && current > AS_WRITTEN_HEAD {
          added := [Ellipsis];
        } else if pageNum == total - 3 && current < total - AS_WRITTEN_TAIL {
          added := [Ellipsis];
        }
        assert added == SlotItems(pageNum, current, total, AS_WRITTEN_HEAD, AS_WRITTEN_TAIL);
        numbers := numbers + added;
        pageNum := pageNum + 1;
      }
      assert numbers == NumberItems(current, total, AS_WRITTEN_HEAD, AS_WRITTEN_TAIL, total) by {
        if total < 1 {
          assert pageNum == 1;
        }
      }
      var suffix: seq<PageItem> := if p.hasNext then [Next(current + 1)] else [];
      controls := prefix + numbers + suffix;
    }

    /** `updateStats`: the spans that exist are rewritten from the summary. */
    method UpdateStats(p: Pagination)
      modifies this`pageSpan, this`imagesSpan
      ensures imagesSpan == if old(imagesSpan).Some? then Some(IntToString(p.totalImages) + " images") else None
      ensures pageSpan == if old(pageSpan).Some? then Some(PageText(p.currentPage, p.totalPages)) else None
    {
      if imagesSpan.Some? {
        imagesSpan := Some(IntToString(p.totalImages) + " images");
      }
      if pageSpan.Some? {
        pageSpan := Some(PageText(p.currentPage, p.totalPages));
      }
    }

    /**
     * `updateGallery`: the page's images and the page count come from the
     * answer, the controls and the stats are redrawn; the open image is left
     * alone.
     */
    method UpdateGallery(data: PageResponse)
      modifies this
      ensures Redrawn(data)
      ensures currentPage == old(currentPage)
    {
      currentPageImages := data.images;
      totalPages := data.pagination.totalPages;
      UpdatePagination(data.pagination);
      UpdateStats(data.pagination);
    }

    /**
     * `changePage(page)`: a page outside 1..totalPages is ignored; otherwise
     * a successful answer replaces the page's images, the page count and the
     * controls and makes `page` current, and a failed one sends the browser
     * to `/?page=<page>`.
     */
    method ChangePage(page: int, outcome: FetchOutcome) returns (effect: PageChange)
      modifies this
      ensures page < 1 || page > old(totalPages) ==> effect == Ignored && unchanged(this)
      ensures 1 <= page <= old(totalPages) && outcome.FetchFailed? ==>
                effect == Reloaded("/?page=" + NatToString(page)) && unchanged(this)
      ensures 1 <= page <= old(totalPages) && outcome.Fetched? ==>
                effect == Rendered && currentPage == page && Redrawn(outcome.data)
    {
      if page < 1 || page > totalPages {
        return Ignored;
      }
      match outcome
      case FetchFailed =>
        effect := Reloaded("/?page=" + NatToString(page));
      case Fetched(data) =>
        UpdateGallery(data);
        currentPage := page;
        effect := Rendered;
    }

    /** `updateNavigationButtons`. */
    method UpdateNavigationButtons()
      modifies this`prevDisabled, this`nextDisabled
      ensures prevDisabled == (currentImageIndex <= 0)
      ensures nextDisabled == (currentImageIndex >= |currentPageImages| - 1)
    {
      prevDisabled := currentImageIndex <= 0;
      nextDisabled := currentImageIndex >= |currentPageImages| - 1;
    }

    /** `preloadAdjacentImages`: the indexes whose images are fetched ahead. */
    method PreloadAdjacentImages() returns (preloaded: seq<int>)
      ensures preloaded == Neighbours(currentPageImages, currentImageIndex)
    {
      var images, index := currentPageImages, currentImageIndex;
      var candidates: seq<int> := [];
      if index > 0 {
        candidates := candidates + [index - 1];
      }
      if index < |images| - 1 {
        candidates := candidates + [index + 1];
      }
      preloaded := [];
      for i := 0 to |candidates|
        invariant preloaded == LoadableOf(images, candidates[..i])
      {
        assert candidates[..i + 1][..i] == candidates[..i];
        if Preloadable(images, candidates[i]) {
          preloaded := preloaded + [candidates[i]];
        }
      }
      assert candidates[..|candidates|] == candidates;
      NeighboursOfCandidates(images, index, candidates);
    }

    /**
     * `openModal(name, url)`: the modal opens on `name` and `url`; the index
     * is the first image of the page with that name, or -1; the counter reads
     * `index + 1 of count`; the buttons follow the index; the neighbours are
     * preloaded.
     */
    method OpenModal(name: string, url: string) returns (preloaded: seq<int>)
      modifies this`currentImageIndex, this`modalOpen, this`prevDisabled, this`nextDisabled
      modifies this`shownUrl, this`shownName, this`counter
      ensures currentImageIndex == IndexOf(currentPageImages, name)
      ensures modalOpen && shownName == name && shownUrl == url
      ensures counter == Counter(currentImageIndex + 1, |currentPageImages|)
      ensures prevDisabled == (currentImageIndex <= 0)
      ensures nextDisabled == (currentImageIndex >= |currentPageImages| - 1)
      ensures preloaded == Neighbours(currentPageImages, currentImageIndex)
      ensures currentPageImages == old(currentPageImages) && controls == old(controls)
      ensures currentPage == old(currentPage) && totalPages == old(totalPages)
    {
      var images := currentPageImages;
      var index := IndexOf(images, name);
      currentImageIndex := index;
      modalOpen := true;
      UpdateNavigationButtons();
      shownUrl := url;
      shownName := name;
      counter := Counter(index + 1, |images|);
      assert currentPageImages == images && currentImageIndex == index;
      preloaded := PreloadAdjacentImages();
      assert preloaded == Neighbours(images, index);
    }

    /** `closeModal`: the modal is hidden; the index is kept. */
    method CloseModal()
      modifies this`modalOpen
      ensures !modalOpen
    {
      modalOpen := false;
    }

    /** `navigateImage(direction)`. */
    method NavigateImage(direction: int)
      modifies this
      ensures NavigatedBy(direction)
      ensures CanNavigate(old(currentImageIndex), |currentPageImages|, direction) ==>
                currentImageIndex == old(currentImageIndex) + direction
      ensures !CanNavigate(old(currentImageIndex), |currentPageImages|, direction) ==> unchanged(this)
    {
      var newIndex := currentImageIndex + direction;
      if 0 <= newIndex < |currentPageImages| {
        currentImageIndex := newIndex;
        var image := currentPageImages[currentImageIndex];
        shownName := image.name;
        counter := Counter(currentImageIndex + 1, |currentPageImages|);
        shownUrl := image.url;
        UpdateNavigationButtons();
      }
    }

    /**
     * `handleKeyboardNavigation`: with the modal open, Escape closes it and
     * the arrow keys step back and forth; otherwise nothing changes.
     */
    method HandleKeyboard(key: string)
      modifies this
      ensures !old(modalOpen) ==> unchanged(this)
      ensures old(modalOpen) && key == "Escape" ==>
                && !modalOpen
                && currentPage == old(currentPage) && totalPages == old(totalPages)
                && currentPageImages == old(currentPageImages) && currentImageIndex == old(currentImageIndex)
                && shownName == old(shownName) && shownUrl == old(shownUrl) && counter == old(counter)
                && prevDisabled == old(prevDisabled) && nextDisabled == old(nextDisabled)
                && controls == old(controls) && pageSpan == old(pageSpan) && imagesSpan == old(imagesSpan)
      ensures old(modalOpen) && key == "ArrowLeft" ==> NavigatedBy(-1)
      ensures old(modalOpen) && key == "ArrowRight" ==> NavigatedBy(1)
      ensures old(modalOpen) && key != "Escape" && key != "ArrowLeft" && key != "ArrowRight" ==> unchanged(this)
    {
      if modalOpen {
        if key == "Escape" {
          CloseModal();
        } else if key == "ArrowLeft" {
          NavigateImage(-1);
        } else if key == "ArrowRight" {
          NavigateImage(1);
        }
      }
    }

    /** `handleSwipe` at the end of a touch from (startX, startY) to (endX, endY). */
    method HandleSwipe(startX: real, startY: real, endX: real, endY: real)
      modifies this
      ensures SwipeStep(startX, startY, endX, endY) == 0 ==> unchanged(this)
      ensures SwipeStep(startX, startY, endX, endY) != 0 ==> NavigatedBy(SwipeStep(startX, startY, endX, endY))
    {
      var diffX := startX - endX;
      var diffY := startY - endY;
      if Abs(diffX) > Abs(diffY) && Abs(diffX) > MIN_SWIPE_DISTANCE {
        if diffX > 0.0 {
          NavigateImage(1);
        } else {
          NavigateImage(-1);
        }
      }
    }
  }

  /** Filtering the candidates `preloadAdjacentImages` collects gives the preloadable neighbours. */
  lemma NeighboursOfCandidates(images: seq<ImageRecord>, index: int, candidates: seq<int>)
    requires candidates == (if index > 0 then [index - 1] else []) + (if index < |images| - 1 then [index + 1] else [])
    ensures LoadableOf(images, candidates) == Neighbours(images, index)
  {
    if index > 0 && index < |images| - 1 {
      assert candidates[..1] == [index - 1];
      assert candidates[..1][..0] == [];
      assert LoadableOf(images, candidates[..1]) == (if Preloadable(images, index - 1) then [index - 1] else []);
    } else if index > 0 {
      assert candidates[..0] == [];
    } else if index < |images| - 1 {
      assert candidates[..0] == [];
    }
  }
}
