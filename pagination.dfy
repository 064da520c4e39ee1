/** The page-number buttons of components/Pagination.tsx: a window of at most
    `maxVisible` consecutive page numbers around the current page, shifted back when it
    would run past the last page, and no buttons at all when there is at most one page. */
module Pagination {

  function Max(a: int, b: int): int { if a < b then b else a }
  function Min(a: int, b: int): int { if a < b then a else b }

  /** The first and last page of the window. `maxVisible / 2` is `Math.floor` of the
      half: Dafny's division by a positive divisor rounds down. */
  function Window(current: int, total: int, maxVisible: int): (w: (int, int))
    ensures 1 <= w.0 && w.1 <= total
  {
    var half := maxVisible / 2;
    var start := Max(1, current - half);
    var end := Min(total, start + maxVisible - 1);
    if end - start + 1 < maxVisible then (Max(1, end - maxVisible + 1), end) else (start, end)
  }

  /** The consecutive numbers from `start` to `end`, empty when `end < start`. */
  function Span(start: int, end: int): seq<int>
  {
    seq(Max(0, end - start + 1), i => start + i)
  }

  /** The page numbers shown: none when `totalPages <= 1` (the component renders
      nothing), else the window. */
  function Pages(current: int, total: int, maxVisible: int): (pages: seq<int>)
    ensures |pages| <= Max(0, total)
    ensures forall i :: 0 <= i < |pages| ==> 1 <= pages[i] <= total
  {
    if total <= 1 then [] else Span(Window(current, total, maxVisible).0, Window(current, total, maxVisible).1)
  }

  /** getPageNumbers, behind the component's early exit: push start..end one by one. */
  method PageNumbers(current: int, total: int, maxVisible: int) returns (pages: seq<int>)
    ensures pages == Pages(current, total, maxVisible)
  {
    if total <= 1 {
      return [];
    }
    var half := maxVisible / 2;
    var start := Max(1, current - half);
    var end := Min(total, start + maxVisible - 1);
    if end - start + 1 < maxVisible {
      start := Max(1, end - maxVisible + 1);
    }
    pages := [];
    var i := start;
    while i <= end
      invariant start <= i <= Max(start, end + 1)
      invariant |pages| == i - start
      invariant forall k :: 0 <= k < |pages| ==> pages[k] == start + k
    {
      pages := pages + [i];
      i := i + 1;
    }
    assert (start, end) == Window(current, total, maxVisible);
    assert |pages| == Max(0, end - start + 1);
  }

  /** Every page shown is a page that exists, and they are consecutive and increasing. */
  lemma {:induction false} PagesInRange(current: int, total: int, maxVisible: int)
    ensures var pages := Pages(current, total, maxVisible);
            forall i :: 0 <= i < |pages| ==> 1 <= pages[i] <= total && pages[i] == pages[0] + i
  {
  }

  /** With at least two pages and a positive window size, exactly min(maxVisible, total)
      pages are shown, wherever the current page is; with at most one page none are. */
  lemma {:induction false} PagesCount(current: int, total: int, maxVisible: int)
    ensures total <= 1 || maxVisible <= 0 ==> Pages(current, total, maxVisible) == []
    ensures total >= 2 && maxVisible >= 1 ==> |Pages(current, total, maxVisible)| == Min(maxVisible, total)
  {
    if total >= 2 {
      var half := maxVisible / 2;
      var start := Max(1, current - half);
      var end := Min(total, start + maxVisible - 1);
      if maxVisible <= 0 {
        assert end - start + 1 <= maxVisible;
      }
    }
  }

  /** A current page that exists is among the pages shown. */
  lemma {:induction false} PagesShowCurrent(current: int, total: int, maxVisible: int)
    requires total >= 2 && maxVisible >= 1 && 1 <= current <= total
    ensures current in Pages(current, total, maxVisible)
  {
    var (start, end) := Window(current, total, maxVisible);
    assert start <= current <= end;
    assert Pages(current, total, maxVisible)[current - start] == current;
  }

  /** Away from both ends the window is centred: it starts `floor(maxVisible / 2)`
      pages before the current one. */
  lemma {:induction false} PagesCentred(current: int, total: int, maxVisible: int)
    requires total >= 2 && maxVisible >= 1
    requires current - maxVisible / 2 >= 1 && current - maxVisible / 2 + maxVisible - 1 <= total
    ensures Pages(current, total, maxVisible)[0] == current - maxVisible / 2
  {
  }
}
