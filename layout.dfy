/**
 * The pagination controls the browser draws (`updatePagination`,
 * static/js/app.js:167-208), as a sequence of abstract items instead of HTML:
 * an optional Previous button, one item per page number that is shown or
 * stands for a run of hidden pages, and an optional Next button.
 *
 * Pages 1-3, the last three pages and the pages next to the current one are
 * always shown. Two slots, page 4 and page `total - 3`, may show an ellipsis.
 * Whether they do depends on two thresholds on the current page: the code
 * uses `current > 6` and `current < total - 5` (`AS_WRITTEN_HEAD`,
 * `AS_WRITTEN_TAIL`), and so does the controller; they leave a run of hidden
 * pages unmarked when `current` is 6 or `total - 5`. `current > 5` and
 * `current < total - 4` (`HEAD`, `TAIL`) mark every run (`EveryGapMarked`).
 */
module Layout {
  import opened Wrappers
  import opened Api

  datatype PageItem =
    | Prev(target: int)   // "Previous" button, going to `target`
    | Active(page: int)   // the current page, not a link
    | Link(page: int)     // a button for page `page`
    | Ellipsis            // "..." standing for hidden pages
    | Next(target: int)   // "Next" button, going to `target`

  /** The ellipsis thresholds as written (app.js:190, app.js:192). */
  const AS_WRITTEN_HEAD := 6
  const AS_WRITTEN_TAIL := 5

  /** The thresholds that put an ellipsis in every run of hidden pages. */
  const HEAD := 5
  const TAIL := 4

  /** A page that always gets its own number: the first three, the last three, the current page's neighbours. */
  predicate InWindow(n: int, current: int, total: int) {
    n <= 3 || n > total - 3 || (current - 1 <= n <= current + 1)
  }

  /** A page that appears as a number, active or not. */
  predicate Shown(n: int, current: int, total: int) {
    n == current || InWindow(n, current, total)
  }

  /** What page `n` contributes, for the given ellipsis thresholds (app.js:185-194). */
  function Slot(n: int, current: int, total: int, head: int, tail: int): Option<PageItem> {
    if n == current then Some(Active(n))
    else if InWindow(n, current, total) then Some(Link(n))
    else if n == 4 && current > head then Some(Ellipsis)
    else if n == total - 3 && current < total - tail then Some(Ellipsis)
    else None
  }

  function SlotItems(n: int, current: int, total: int, head: int, tail: int): seq<PageItem> {
    var s := Slot(n, current, total, head, tail);
    if s.Some? then [s.value] else []
  }

  /** The items of pages 1..upto, in page order. */
  function NumberItems(current: int, total: int, head: int, tail: int, upto: int): seq<PageItem>
    decreases upto
  {
    if upto < 1 then []
    else NumberItems(current, total, head, tail, upto - 1) + SlotItems(upto, current, total, head, tail)
  }

  /** The pages among 1..upto that contribute an item, in page order. */
  function EmittingPages(current: int, total: int, head: int, tail: int, upto: int): seq<int>
    decreases upto
  {
    if upto < 1 then []
    else
      EmittingPages(current, total, head, tail, upto - 1)
      + (if Slot(upto, current, total, head, tail).Some? then [upto] else [])
  }

  /** The whole control: Previous, page numbers, Next (app.js:174-205). */
  function Controls(p: Pagination, head: int, tail: int): seq<PageItem> {
    (if p.hasPrev then [Prev(p.currentPage - 1)] else [])
    + NumberItems(p.currentPage, p.totalPages, head, tail, p.totalPages)
    + (if p.hasNext then [Next(p.currentPage + 1)] else [])
  }

  /** One page number, one item: the items are the slots of the emitting pages. */
  lemma {:induction false} ItemsAreSlotsOfPages(current: int, total: int, head: int, tail: int, upto: int)
    ensures var items := NumberItems(current, total, head, tail, upto);
            var pages := EmittingPages(current, total, head, tail, upto);
            && |items| == |pages|
            && forall i :: 0 <= i < |pages| ==> Slot(pages[i], current, total, head, tail) == Some(items[i])
    decreases upto
  {
    if upto >= 1 {
      ItemsAreSlotsOfPages(current, total, head, tail, upto - 1);
    }
  }

  /** Pages within 1..upto, in strictly increasing order. */
  predicate IncreasingWithin(pages: seq<int>, upto: int) {
    && (forall i :: 0 <= i < |pages| ==> 1 <= pages[i] <= upto)
    && (forall i, j :: 0 <= i < j < |pages| ==> pages[i] < pages[j])
  }

  /** The emitting pages lie in 1..upto and strictly increase. */
  lemma {:induction false} PagesIncrease(current: int, total: int, head: int, tail: int, upto: int)
    ensures IncreasingWithin(EmittingPages(current, total, head, tail, upto), upto)
    decreases upto
  {
    if upto >= 1 {
      var prev := EmittingPages(current, total, head, tail, upto - 1);
      PagesIncrease(current, total, head, tail, upto - 1);
      if Slot(upto, current, total, head, tail).Some? {
        var pages := prev + [upto];
        assert EmittingPages(current, total, head, tail, upto) == pages;
        assert forall i :: 0 <= i < |prev| ==> pages[i] == prev[i] < upto;
      } else {
        assert EmittingPages(current, total, head, tail, upto) == prev;
      }
    }
  }

  /** Every page of 1..upto whose slot holds an item emits it. */
  lemma {:induction false} PagesComplete(current: int, total: int, head: int, tail: int, upto: int)
    ensures forall n :: 1 <= n <= upto && Slot(n, current, total, head, tail).Some?
              ==> n in EmittingPages(current, total, head, tail, upto)
    decreases upto
  {
    if upto >= 1 {
      PagesComplete(current, total, head, tail, upto - 1);
    }
  }

  /**
   * The page-number items are, one for one, the items of the pages 1..upto
   * that contribute one, in strictly increasing page order.
   */
  lemma NumberItemsFollowPages(current: int, total: int, head: int, tail: int, upto: int)
    ensures var items := NumberItems(current, total, head, tail, upto);
            var pages := EmittingPages(current, total, head, tail, upto);
            && |items| == |pages|
            && (forall i :: 0 <= i < |pages| ==>
                  1 <= pages[i] <= upto && Slot(pages[i], current, total, head, tail) == Some(items[i]))
            && (forall i, j :: 0 <= i < j < |pages| ==> pages[i] < pages[j])
            && (forall n :: 1 <= n <= upto && Slot(n, current, total, head, tail).Some? ==> n in pages)
  {
    ItemsAreSlotsOfPages(current, total, head, tail, upto);
    PagesIncrease(current, total, head, tail, upto);
    PagesComplete(current, total, head, tail, upto);
  }

  /** Inside 1..total, page `current` has an Active item. */
  lemma ActivePresent(current: int, total: int, head: int, tail: int)
    requires 1 <= current <= total
    ensures var items := NumberItems(current, total, head, tail, total);
            exists i :: 0 <= i < |items| && items[i] == Active(current)
  {
    var items := NumberItems(current, total, head, tail, total);
    var pages := EmittingPages(current, total, head, tail, total);
    ItemsAreSlotsOfPages(current, total, head, tail, total);
    PagesComplete(current, total, head, tail, total);
    assert Slot(current, current, total, head, tail).Some?;
    assert current in pages;
    var i :| 0 <= i < |pages| && pages[i] == current;
    assert items[i] == Active(current);
  }

  /** Only page `current` gives an Active item, and only once. */
  lemma ActiveAtMostOnce(current: int, total: int, head: int, tail: int)
    ensures var items := NumberItems(current, total, head, tail, total);
            && (forall i :: 0 <= i < |items| && items[i].Active? ==> items[i] == Active(current))
            && (forall i, j :: 0 <= i < |items| && 0 <= j < |items| && items[i].Active? && items[j].Active? ==> i == j)
            && (current < 1 || current > total ==> forall i :: 0 <= i < |items| ==> !items[i].Active?)
  {
    var items := NumberItems(current, total, head, tail, total);
    var pages := EmittingPages(current, total, head, tail, total);
    ItemsAreSlotsOfPages(current, total, head, tail, total);
    PagesIncrease(current, total, head, tail, total);
    forall i, j | 0 <= i < |items| && 0 <= j < |items| && items[i].Active? && items[j].Active?
      ensures i == j
    {
      assert pages[i] == current && pages[j] == current;
    }
  }

  /** Inside 1..total, page `current` is the one Active item; outside it there is none. */
  lemma ActiveExactlyOnce(current: int, total: int, head: int, tail: int)
    ensures var items := NumberItems(current, total, head, tail, total);
            && (1 <= current <= total ==> exists i :: 0 <= i < |items| && items[i] == Active(current))
            && (forall i :: 0 <= i < |items| && items[i].Active? ==> items[i] == Active(current))
            && (forall i, j :: 0 <= i < |items| && 0 <= j < |items| && items[i].Active? && items[j].Active? ==> i == j)
            && (current < 1 || current > total ==> forall i :: 0 <= i < |items| ==> !items[i].Active?)
  {
    if 1 <= current <= total {
      ActivePresent(current, total, head, tail);
    }
    ActiveAtMostOnce(current, total, head, tail);
  }

  /** A page other than the current one has a Link item exactly when it is in 1..total and in the window. */
  lemma LinkExactlyWhenShown(current: int, total: int, head: int, tail: int, n: int)
    ensures Link(n) in NumberItems(current, total, head, tail, total)
            <==> 1 <= n <= total && n != current && InWindow(n, current, total)
  {
    var items := NumberItems(current, total, head, tail, total);
    var pages := EmittingPages(current, total, head, tail, total);
    NumberItemsFollowPages(current, total, head, tail, total);
    if Link(n) in items {
      var i :| 0 <= i < |items| && items[i] == Link(n);
      assert pages[i] == n;
    }
    if 1 <= n <= total && n != current && InWindow(n, current, total) {
      assert n in pages;
      var i :| 0 <= i < |pages| && pages[i] == n;
      assert items[i] == Link(n);
    }
  }

  /** Page numbers never produce Previous or Next buttons. */
  lemma NumbersAreNotButtons(current: int, total: int, head: int, tail: int)
    ensures forall it <- NumberItems(current, total, head, tail, total) :: !it.Prev? && !it.Next?
  {
    NumberItemsFollowPages(current, total, head, tail, total);
  }

  /**
   * Previous comes first exactly when `has_prev`, Next comes last exactly when
   * `has_next`, and neither appears anywhere else.
   */
  lemma PrevFirstNextLast(p: Pagination, head: int, tail: int)
    ensures var c := Controls(p, head, tail);
            && (p.hasPrev <==> |c| > 0 && c[0] == Prev(p.currentPage - 1))
            && (p.hasNext <==> |c| > 0 && c[|c| - 1] == Next(p.currentPage + 1))
            && (forall i :: 0 <= i < |c| && c[i].Prev? ==> i == 0)
            && (forall i :: 0 <= i < |c| && c[i].Next? ==> i == |c| - 1)
  {
    var pre: seq<PageItem> := if p.hasPrev then [Prev(p.currentPage - 1)] else [];
    var nums := NumberItems(p.currentPage, p.totalPages, head, tail, p.totalPages);
    var post: seq<PageItem> := if p.hasNext then [Next(p.currentPage + 1)] else [];
    var c := Controls(p, head, tail);
    NumbersAreNotButtons(p.currentPage, p.totalPages, head, tail);
    assert c == pre + nums + post;
    assert forall i :: |pre| <= i < |pre| + |nums| ==> c[i] == nums[i - |pre|];
    assert forall i :: 0 <= i < |nums| ==> nums[i] in nums;
  }

  /** A hidden page that may carry an ellipsis under the given thresholds. */
  predicate EllipsisSlot(n: int, current: int, total: int, head: int, tail: int) {
    && 1 <= n <= total && !Shown(n, current, total)
    && ((n == 4 && current > head) || (n == total - 3 && current < total - tail))
  }

  /**
   * An ellipsis stands for page 4 or page `total - 3`, hidden and past its
   * threshold; every such page gets one.
   */
  lemma EllipsisExactlyInSlots(current: int, total: int, head: int, tail: int)
    ensures var items := NumberItems(current, total, head, tail, total);
            var pages := EmittingPages(current, total, head, tail, total);
            && |items| == |pages|
            && (forall i :: 0 <= i < |items| && items[i] == Ellipsis ==> EllipsisSlot(pages[i], current, total, head, tail))
            && (forall n :: EllipsisSlot(n, current, total, head, tail) ==>
                  exists i :: 0 <= i < |items| && pages[i] == n && items[i] == Ellipsis)
  {
    var items := NumberItems(current, total, head, tail, total);
    var pages := EmittingPages(current, total, head, tail, total);
    NumberItemsFollowPages(current, total, head, tail, total);
    forall n | EllipsisSlot(n, current, total, head, tail)
      ensures exists i :: 0 <= i < |items| && pages[i] == n && items[i] == Ellipsis
    {
      assert Slot(n, current, total, head, tail) == Some(Ellipsis);
      assert n in pages;
      var i :| 0 <= i < |pages| && pages[i] == n;
      assert items[i] == Ellipsis;
    }
  }

  /**
   * With the corrected thresholds every run of hidden pages between two shown
   * pages gets exactly one ellipsis.
   */
  lemma EveryGapMarked(current: int, total: int, m: int, n: int)
    requires 1 <= m && m + 1 < n <= total
    requires Shown(m, current, total) && Shown(n, current, total)
    requires forall k :: m < k < n ==> !Shown(k, current, total)
    ensures exists k :: m < k < n && Slot(k, current, total, HEAD, TAIL) == Some(Ellipsis)
    ensures forall k1, k2 :: m < k1 < k2 < n
              && Slot(k1, current, total, HEAD, TAIL) == Some(Ellipsis)
              ==> Slot(k2, current, total, HEAD, TAIL) != Some(Ellipsis)
  {
    assert !Shown(m + 1, current, total);
    if m == 3 && current >= 6 {
      assert Slot(4, current, total, HEAD, TAIL) == Some(Ellipsis);
      assert Shown(current - 1, current, total);
      assert n <= current - 1;
    } else {
      assert n > total - 3 by {
        if m == 3 {
          assert !Shown(4, current, total);
          assert !(current - 1 <= n <= current + 1);
        } else {
          assert current == m - 1;
        }
      }
      assert !Shown(total - 3, current, total);
      assert Slot(total - 3, current, total, HEAD, TAIL) == Some(Ellipsis);
    }
  }

  /**
   * As written, the run of hidden pages between 3 and 5 gets no ellipsis when
   * the current page is 6, and likewise the run around `total - 3` when the
   * current page is `total - 5`.
   */
  lemma AsWrittenLeavesGapUnmarked(total: int)
    requires total >= 10
    ensures Shown(3, 6, total) && Shown(5, 6, total) && !Shown(4, 6, total)
    ensures Slot(4, 6, total, AS_WRITTEN_HEAD, AS_WRITTEN_TAIL) == None
    ensures Shown(total - 4, total - 5, total) && Shown(total - 2, total - 5, total) && !Shown(total - 3, total - 5, total)
    ensures Slot(total - 3, total - 5, total, AS_WRITTEN_HEAD, AS_WRITTEN_TAIL) == None
  {
  }

  /** A run of pages none of which contributes an item adds nothing. */
  lemma {:induction false} HiddenRunAddsNothing(current: int, total: int, head: int, tail: int, lo: int, hi: int)
    requires 0 <= lo <= hi
    requires forall n :: lo < n <= hi ==> Slot(n, current, total, head, tail).None?
    ensures NumberItems(current, total, head, tail, hi) == NumberItems(current, total, head, tail, lo)
    decreases hi - lo
  {
    if lo < hi {
      HiddenRunAddsNothing(current, total, head, tail, lo, hi - 1);
      assert SlotItems(hi, current, total, head, tail) == [];
    }
  }

  /** With 25 pages and page 10 current: Previous, 1 2 3 … 9 [10] 11 … 23 24 25, Next. */
  lemma TwentyFivePagesAtTen()
    ensures Controls(Pagination(10, 20, 500, 25, true, true), AS_WRITTEN_HEAD, AS_WRITTEN_TAIL)
         == [Prev(9), Link(1), Link(2), Link(3), Ellipsis, Link(9), Active(10), Link(11),
             Ellipsis, Link(23), Link(24), Link(25), Next(11)]
  {
    assert NumberItems(10, 25, AS_WRITTEN_HEAD, AS_WRITTEN_TAIL, 4) == [Link(1), Link(2), Link(3), Ellipsis];
    HiddenRunAddsNothing(10, 25, AS_WRITTEN_HEAD, AS_WRITTEN_TAIL, 4, 8);
    assert NumberItems(10, 25, AS_WRITTEN_HEAD, AS_WRITTEN_TAIL, 11) == [Link(1), Link(2), Link(3), Ellipsis, Link(9), Active(10), Link(11)];
    HiddenRunAddsNothing(10, 25, AS_WRITTEN_HEAD, AS_WRITTEN_TAIL, 11, 21);
  }
}
