/**
 * The page-number strips of the two pagination widgets,
 * Ophimcc/src/components/Pagination.tsx (a window of one page either side
 * of the current page) and the `PaginationControls` of
 * src/page/Movie/Home.tsx (two pages either side). Both build the same
 * list: page 1 and an ellipsis before the window when it does not reach
 * them, the window itself, then an ellipsis and the last page when the
 * window stops short of them.
 */
module PageWindow {

  /** One entry of the strip: a page button or the `'...'` marker. */
  datatype Entry = Number(page: int) | Ellipsis

  function WindowStart(currentPage: int, radius: nat): int
  {
    if currentPage - radius > 1 then currentPage - radius else 1
  }

  function WindowEnd(currentPage: int, totalPages: int, radius: nat): int
  {
    if totalPages < currentPage + radius then totalPages else currentPage + radius
  }

  /** The buttons lo, lo + 1, ..., hi; empty when lo > hi. */
  function Run(lo: int, hi: int): (r: seq<Entry>)
    ensures |r| == if lo <= hi then hi - lo + 1 else 0
    ensures forall i :: 0 <= i < |r| ==> r[i] == Number(lo + i)
  {
    seq(if lo <= hi then hi - lo + 1 else 0, i => Number(lo + i))
  }

  /** What precedes the window: page 1, and an ellipsis if page 2 is also outside it. */
  function Lead(startPage: int): seq<Entry>
  {
    if startPage > 1 then [Number(1)] + (if startPage > 2 then [Ellipsis] else []) else []
  }

  /** What follows the window: an ellipsis if the last page but one is outside it, then the last page. */
  function Trail(endPage: int, totalPages: int): seq<Entry>
  {
    if endPage < totalPages then (if endPage < totalPages - 1 then [Ellipsis] else []) + [Number(totalPages)] else []
  }

  /** The strip for the given current page, page count and window radius. */
  function Layout(currentPage: int, totalPages: int, radius: nat): seq<Entry>
  {
    var s := WindowStart(currentPage, radius);
    var e := WindowEnd(currentPage, totalPages, radius);
    Lead(s) + Run(s, e) + Trail(e, totalPages)
  }

  /** `renderPageNumbers`: the pushes before, in and after the `for` loop over the window. */
  method RenderPageNumbers(currentPage: int, totalPages: int, radius: nat) returns (pages: seq<Entry>)
    ensures pages == Layout(currentPage, totalPages, radius)
  {
    pages := [];
    var startPage := if currentPage - radius > 1 then currentPage - radius else 1;
    var endPage := if totalPages < currentPage + radius then totalPages else currentPage + radius;
    if startPage > 1 {
      pages := pages + [Number(1)];
      if startPage > 2 {
        pages := pages + [Ellipsis];
      }
    }
    var i := startPage;
    while i <= endPage
      invariant startPage <= i && (startPage <= endPage ==> i <= endPage + 1) && (startPage > endPage ==> i == startPage)
      invariant pages == Lead(startPage) + Run(startPage, i - 1)
      decreases endPage - i
    {
      pages := pages + [Number(i)];
      i := i + 1;
    }
    assert Run(startPage, i - 1) == Run(startPage, endPage);
    if endPage < totalPages {
      if endPage < totalPages - 1 {
        pages := pages + [Ellipsis];
      }
      pages := pages + [Number(totalPages)];
    }
  }

  /** The strip of Ophimcc/src/components/Pagination.tsx: at most seven entries. */
  method OphimPageNumbers(currentPage: int, totalPages: int) returns (pages: seq<Entry>)
    ensures pages == Layout(currentPage, totalPages, 1)
    ensures 1 <= currentPage <= totalPages ==> |pages| <= 7
  {
    pages := RenderPageNumbers(currentPage, totalPages, 1);
    if 1 <= currentPage <= totalPages {
      LayoutLength(currentPage, totalPages, 1);
    }
  }

  /** The strip of `PaginationControls` in src/page/Movie/Home.tsx: at most nine entries. */
  method HomePageNumbers(currentPage: int, totalPages: int) returns (pages: seq<Entry>)
    ensures pages == Layout(currentPage, totalPages, 2)
    ensures 1 <= currentPage <= totalPages ==> |pages| <= 9
  {
    pages := RenderPageNumbers(currentPage, totalPages, 2);
    if 1 <= currentPage <= totalPages {
      LayoutLength(currentPage, totalPages, 2);
    }
  }

  /** The strip's entry at index i, read off its three parts. */
  lemma LayoutAt(currentPage: int, totalPages: int, radius: nat, i: int)
    requires 1 <= currentPage <= totalPages
    requires 0 <= i < |Layout(currentPage, totalPages, radius)|
    ensures var s := WindowStart(currentPage, radius);
            var e := WindowEnd(currentPage, totalPages, radius);
            var n := |Lead(s)|;
            Layout(currentPage, totalPages, radius)[i] ==
              if i < n then Lead(s)[i]
              else if i < n + (e - s + 1) then Number(s + i - n)
              else Trail(e, totalPages)[i - n - (e - s + 1)]
  {
  }

  /** The strip is 1 ... T with every gap of more than one page marked by one ellipsis. */
  ghost predicate WellFormed(entries: seq<Entry>, totalPages: int)
  {
    && |entries| > 0
    && entries[0] == Number(1)
    && entries[|entries| - 1] == Number(totalPages)
    && (forall i :: 0 <= i < |entries| - 1 && entries[i].Number? && entries[i + 1].Number? ==>
          entries[i + 1].page == entries[i].page + 1)
    && (forall i :: 0 <= i < |entries| && entries[i].Ellipsis? ==>
          && 0 < i < |entries| - 1
          && entries[i - 1].Number? && entries[i + 1].Number?
          && entries[i + 1].page > entries[i - 1].page + 1)
  }

  /** For a current page within 1 ... T, the strip starts at 1, ends at T and marks exactly the gaps. */
  lemma LayoutWellFormed(currentPage: int, totalPages: int, radius: nat)
    requires 1 <= currentPage <= totalPages
    ensures WellFormed(Layout(currentPage, totalPages, radius), totalPages)
  {
    var entries := Layout(currentPage, totalPages, radius);
    LayoutAt(currentPage, totalPages, radius, 0);
    LayoutAt(currentPage, totalPages, radius, |entries| - 1);
    forall i | 0 <= i < |entries| - 1 && entries[i].Number? && entries[i + 1].Number?
      ensures entries[i + 1].page == entries[i].page + 1
    {
      LayoutAdjacent(currentPage, totalPages, radius, i);
    }
    forall i | 0 <= i < |entries| && entries[i].Ellipsis?
      ensures 0 < i < |entries| - 1
      ensures entries[i - 1].Number? && entries[i + 1].Number?
      ensures entries[i + 1].page > entries[i - 1].page + 1
    {
      LayoutGap(currentPage, totalPages, radius, i);
    }
  }

  /** Two page buttons side by side are consecutive pages. */
  lemma LayoutAdjacent(currentPage: int, totalPages: int, radius: nat, i: int)
    requires 1 <= currentPage <= totalPages
    requires 0 <= i < |Layout(currentPage, totalPages, radius)| - 1
    requires Layout(currentPage, totalPages, radius)[i].Number? && Layout(currentPage, totalPages, radius)[i + 1].Number?
    ensures Layout(currentPage, totalPages, radius)[i + 1].page == Layout(currentPage, totalPages, radius)[i].page + 1
  {
    LayoutAt(currentPage, totalPages, radius, i);
    LayoutAt(currentPage, totalPages, radius, i + 1);
  }

  /** An ellipsis sits between two page buttons more than one page apart. */
  lemma LayoutGap(currentPage: int, totalPages: int, radius: nat, i: int)
    requires 1 <= currentPage <= totalPages
    requires 0 <= i < |Layout(currentPage, totalPages, radius)| && Layout(currentPage, totalPages, radius)[i].Ellipsis?
    ensures var entries := Layout(currentPage, totalPages, radius);
            && 0 < i < |entries| - 1
            && entries[i - 1].Number? && entries[i + 1].Number?
            && entries[i + 1].page > entries[i - 1].page + 1
  {
    var s := WindowStart(currentPage, radius);
    var e := WindowEnd(currentPage, totalPages, radius);
    LayoutAt(currentPage, totalPages, radius, i);
    if i < |Lead(s)| {
      LayoutAt(currentPage, totalPages, radius, 0);
      LayoutAt(currentPage, totalPages, radius, 2);
    } else {
      LayoutAt(currentPage, totalPages, radius, i - 1);
      LayoutAt(currentPage, totalPages, radius, i + 1);
    }
  }

  /** In a well-formed strip every page number exceeds the one before it. */
  lemma {:induction false} WellFormedIncreasingStep(entries: seq<Entry>, totalPages: int, i: int, j: int)
    requires WellFormed(entries, totalPages)
    requires 0 <= i < j < |entries| && entries[i].Number? && entries[j].Number?
    ensures entries[i].page < entries[j].page
    decreases j - i
  {
    if entries[i + 1].Number? {
      if i + 1 < j {
        WellFormedIncreasingStep(entries, totalPages, i + 1, j);
      }
    } else {
      if i + 2 < j {
        WellFormedIncreasingStep(entries, totalPages, i + 2, j);
      }
    }
  }

  /** Page numbers are strictly increasing and lie within 1 ... T. */
  lemma LayoutIncreasing(currentPage: int, totalPages: int, radius: nat)
    requires 1 <= currentPage <= totalPages
    ensures var entries := Layout(currentPage, totalPages, radius);
            && (forall i, j :: 0 <= i < j < |entries| && entries[i].Number? && entries[j].Number? ==>
                  entries[i].page < entries[j].page)
            && (forall i :: 0 <= i < |entries| && entries[i].Number? ==> 1 <= entries[i].page <= totalPages)
  {
    var entries := Layout(currentPage, totalPages, radius);
    LayoutWellFormed(currentPage, totalPages, radius);
    forall i, j | 0 <= i < j < |entries| && entries[i].Number? && entries[j].Number?
      ensures entries[i].page < entries[j].page
    {
      WellFormedIncreasingStep(entries, totalPages, i, j);
    }
    forall i | 0 <= i < |entries| && entries[i].Number?
      ensures 1 <= entries[i].page <= totalPages
    {
      if 0 < i {
        WellFormedIncreasingStep(entries, totalPages, 0, i);
      }
      if i < |entries| - 1 {
        WellFormedIncreasingStep(entries, totalPages, i, |entries| - 1);
      }
    }
  }

  /** The buttons shown are exactly page 1, page T and the window around the current page. */
  lemma LayoutPages(currentPage: int, totalPages: int, radius: nat, p: int)
    requires 1 <= currentPage <= totalPages
    ensures Number(p) in Layout(currentPage, totalPages, radius) <==>
              p == 1 || p == totalPages ||
              WindowStart(currentPage, radius) <= p <= WindowEnd(currentPage, totalPages, radius)
  {
    var s := WindowStart(currentPage, radius);
    var e := WindowEnd(currentPage, totalPages, radius);
    var entries := Layout(currentPage, totalPages, radius);
    if s <= p <= e {
      assert Run(s, e)[p - s] == Number(p);
    } else if p == 1 {
      assert Lead(s)[0] == Number(1);
    } else if p == totalPages {
      assert Trail(e, totalPages)[|Trail(e, totalPages)| - 1] == Number(p);
    }
  }

  /** A strip never has more than the window, two end pages and two ellipses. */
  lemma LayoutLength(currentPage: int, totalPages: int, radius: nat)
    requires 1 <= currentPage <= totalPages
    ensures |Layout(currentPage, totalPages, radius)| <= 2 * radius + 5
  {
  }

  /** With no pages at all and a current page near the start, nothing is shown. */
  lemma LayoutEmpty(currentPage: int, radius: nat)
    requires 1 <= currentPage <= radius + 1
    ensures Layout(currentPage, 0, radius) == []
  {
  }

  /**
   * `disabled={currentPage === 1}` on the previous-page button: from page 1
   * on, it is disabled exactly when no page lies before the current one.
   */
  function PrevDisabled(currentPage: int): (r: bool)
    ensures 1 <= currentPage ==> (r <==> currentPage - 1 < 1)
  {
    currentPage == 1
  }

  /**
   * `disabled={currentPage === totalPages}` on the next-page button: up to
   * the last page, it is disabled exactly when no page lies after the
   * current one; past the last page (e.g. page 1 of 0 pages) it is enabled.
   */
  function NextDisabled(currentPage: int, totalPages: int): (r: bool)
    ensures currentPage <= totalPages ==> (r <==> currentPage + 1 > totalPages)
    ensures currentPage > totalPages ==> !r
  {
    currentPage == totalPages
  }
}
