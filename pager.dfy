/**
 * Client-side pagination of the filtered catalog view: the page window
 * (a clamped slice of the view), the page count, the previous / next /
 * page-number navigation rules and the list of pagination controls.
 */
module Pager {

  /** Number of cards shown on one page (`itemsPerPage`). */
  const ITEMS_PER_PAGE: nat := 24

  function Min(a: int, b: int): int { if a <= b then a else b }

  function Max(a: int, b: int): int { if a >= b then a else b }

  /**
   * `Math.ceil(length / itemsPerPage)`: the least number of pages that
   * holds `length` entries.
   */
  function TotalPages(length: nat): (r: nat)
    ensures r * ITEMS_PER_PAGE >= length
    ensures r == 0 || (r - 1) * ITEMS_PER_PAGE < length
    ensures r == 0 <==> length == 0
  {
    (length + ITEMS_PER_PAGE - 1) / ITEMS_PER_PAGE
  }

  /**
   * `Array.prototype.slice(start, end)` for non-negative arguments: the end
   * is clamped to the length and a start at or past the end gives nothing.
   */
  function Slice<T>(s: seq<T>, start: nat, end: nat): (r: seq<T>)
    ensures |r| == if start < Min(end, |s|) then Min(end, |s|) - start else 0
    ensures forall i :: 0 <= i < |r| ==> start + i < |s| && r[i] == s[start + i]
  {
    var e := Min(end, |s|);
    if start < e then s[start..e] else []
  }

  /** Index just past the last entry of pages 1..page in a view of `length` entries. */
  function WindowEnd(length: nat, page: nat): nat
  {
    Min(page * ITEMS_PER_PAGE, length)
  }

  /** Index of the first entry of `page` (clamped to the length). */
  function WindowStart(length: nat, page: nat): nat
    requires page >= 1
  {
    WindowEnd(length, page - 1)
  }

  /**
   * The entries shown on `page`: `view.slice((page-1)*24, page*24)`. It is
   * the view from index (page-1)*24 up to min(page*24, |view|), so it never
   * holds more than 24 entries.
   */
  function Window<T>(view: seq<T>, page: nat): (w: seq<T>)
    requires page >= 1
    ensures |w| <= ITEMS_PER_PAGE
    ensures WindowStart(|view|, page) <= WindowEnd(|view|, page)
    ensures w == view[WindowStart(|view|, page)..WindowEnd(|view|, page)]
  {
    Slice(view, (page - 1) * ITEMS_PER_PAGE, page * ITEMS_PER_PAGE)
  }

  /** The windows of pages 1..count, one after another. */
  function Pages<T>(view: seq<T>, count: nat): seq<T>
  {
    if count == 0 then [] else Pages(view, count - 1) + Window(view, count)
  }

  /** The windows of pages 1..count together are the prefix of the view up to page `count`'s end. */
  lemma {:induction false} PagesArePrefix<T>(view: seq<T>, count: nat)
    ensures Pages(view, count) == view[..WindowEnd(|view|, count)]
  {
    if count > 0 {
      PagesArePrefix(view, count - 1);
      var a, b := WindowStart(|view|, count), WindowEnd(|view|, count);
      assert view[..a] + view[a..b] == view[..b];
    }
  }

  /** The windows of pages 1..TotalPages(|view|) concatenate exactly to the view. */
  lemma WindowsCoverView<T>(view: seq<T>)
    ensures Pages(view, TotalPages(|view|)) == view
  {
    PagesArePrefix(view, TotalPages(|view|));
  }

  /** Windows of distinct pages occupy non-overlapping index ranges, in page order. */
  lemma WindowsDisjoint(length: nat, p: nat, q: nat)
    requires 1 <= p < q
    ensures WindowEnd(length, p) <= WindowStart(length, q)
  {
  }

  /**
   * Every index of the view lies in the window of exactly one page, the page
   * `i / 24 + 1`.
   */
  lemma IndexInExactlyOneWindow(length: nat, i: nat, p: nat)
    requires i < length && p >= 1
    ensures WindowStart(length, p) <= i < WindowEnd(length, p) <==> p == i / ITEMS_PER_PAGE + 1
  {
  }

  /** Pages 1..TotalPages are non-empty; every later page is empty. */
  lemma WindowNonEmptyExactlyOnPages<T>(view: seq<T>, page: nat)
    requires page >= 1
    ensures |Window(view, page)| > 0 <==> page <= TotalPages(|view|)
  {
  }

  // ---------------------------------------------------------------------
  // Navigation

  /** A click on a pagination control. */
  datatype Nav = Previous | Next | GoTo(target: int)

  /** A page number control is only rendered for the pages 1..total. */
  predicate Available(nav: Nav, total: nat)
  {
    nav.GoTo? ==> 1 <= nav.target <= total
  }

  /** The page range the viewer keeps: 1..max(1, total) (no pages still shows page 1). */
  predicate InRange(page: int, total: nat)
  {
    1 <= page <= Max(1, total)
  }

  /**
   * The page after a click: "<" steps back unless on page 1, ">" steps forward
   * unless on the last page or beyond (so also when there are no pages), and a
   * number jumps to that page.
   */
  function Navigate(page: int, total: nat, nav: Nav): int
  {
    match nav
    case Previous => if page > 1 then page - 1 else page
    case Next => if page < total then page + 1 else page
    case GoTo(i) => i
  }

  /** Does the click re-render the page (the handler calls `displayPokemon`)? */
  predicate Renders(page: int, total: nat, nav: Nav)
  {
    match nav
    case Previous => page > 1
    case Next => page < total
    case GoTo(_) => true
  }

  /** Navigation keeps the page in range, and a click that does not re-render leaves the page alone. */
  lemma NavigateInRange(page: int, total: nat, nav: Nav)
    requires InRange(page, total) && Available(nav, total)
    ensures InRange(Navigate(page, total, nav), total)
    ensures !Renders(page, total, nav) ==> Navigate(page, total, nav) == page
    ensures nav.Previous? && page == 1 ==> Navigate(page, total, nav) == 1
    ensures nav.Next? && page >= total ==> Navigate(page, total, nav) == page
  {
  }

  /** The page after `count` identical clicks. */
  function Repeat(page: int, total: nat, nav: Nav, count: nat): int
    decreases count
  {
    if count == 0 then page else Repeat(Navigate(page, total, nav), total, nav, count - 1)
  }

  /** Clicking ">" `count` times from any page in range reaches min(page + count, max(1, total)). */
  lemma {:induction false} RepeatNext(page: int, total: nat, count: nat)
    requires InRange(page, total)
    ensures Repeat(page, total, Next, count) == Min(page + count, Max(1, total))
    decreases count
  {
    if count > 0 {
      NavigateInRange(page, total, Next);
      RepeatNext(Navigate(page, total, Next), total, count - 1);
    }
  }

  /** Clicking "<" `count` times from page `page` reaches max(1, page - count). */
  lemma {:induction false} RepeatPrevious(page: int, total: nat, count: nat)
    requires page >= 1
    ensures Repeat(page, total, Previous, count) == Max(1, page - count)
    decreases count
  {
    if count > 0 {
      RepeatPrevious(Navigate(page, total, Previous), total, count - 1);
    }
  }

  // ---------------------------------------------------------------------
  // Pagination controls

  datatype Label = PrevLabel | PageLabel(number: nat) | NextLabel

  /** One pagination button: its label and whether it carries the `active` class. */
  datatype Control = Control(caption: Label, active: bool)

  /** The controls `displayPagination(current)` renders when there are `total` pages. */
  function Controls(current: int, total: nat): seq<Control>
  {
    [Control(PrevLabel, false)]
    + seq(total, i requires 0 <= i < total => Control(PageLabel(i + 1), i + 1 == current))
    + [Control(NextLabel, false)]
  }

  /**
   * "<", then the numbers 1..total ascending, then ">"; exactly the number
   * equal to the current page is active, and none is when the current page
   * is not among them.
   */
  lemma ControlsShape(current: int, total: nat)
    ensures var c := Controls(current, total);
      && |c| == total + 2
      && c[0] == Control(PrevLabel, false)
      && c[total + 1] == Control(NextLabel, false)
      && (forall j :: 1 <= j <= total ==> c[j].caption == PageLabel(j))
      && (forall j :: 0 <= j < |c| ==> (c[j].active <==> 1 <= current <= total && j == current))
  {
  }

  /** At most one control is active, and one is exactly when the page is among 1..total. */
  lemma ExactlyOneActive(current: int, total: nat)
    ensures var c := Controls(current, total);
      && (forall j, k :: 0 <= j < |c| && 0 <= k < |c| && c[j].active && c[k].active ==> j == k)
      && ((exists j :: 0 <= j < |c| && c[j].active) <==> 1 <= current <= total)
  {
    ControlsShape(current, total);
    var c := Controls(current, total);
    if 1 <= current <= total {
      assert c[current].active;
    }
  }

  /**
   * The loop of `displayPagination`: append "<", then one button per page
   * 1..total marking the current one active, then ">".
   */
  method BuildControls(current: int, total: nat) returns (controls: seq<Control>)
    ensures controls == Controls(current, total)
  {
    controls := [Control(PrevLabel, false)];
    var i := 1;
    while i <= total
      invariant 1 <= i <= total + 1
      invariant |controls| == i
      invariant controls[0] == Control(PrevLabel, false)
      invariant forall j :: 1 <= j < i ==> controls[j] == Control(PageLabel(j), j == current)
    {
      controls := controls + [Control(PageLabel(i), i == current)];
      i := i + 1;
    }
    controls := controls + [Control(NextLabel, false)];
  }
}
