/**
 * The page selector under a table: first and last page buttons, a window of
 * at most three middle pages around the current page, an ellipsis on each side
 * where pages are skipped, and previous/next buttons.
 */
module Pagination {
  import opened JsValues

  /** `goToPage`: the page handed to `setPage`, if any. */
  function GoToPage(page: int, totalPages: int): (r: Option<int>)
    ensures r.Some? <==> 1 <= page <= totalPages
    ensures r.Some? ==> r.value == page
  {
    if page >= 1 && page <= totalPages then Some(page) else None
  }

  /** The component renders nothing for zero or one page. */
  predicate Rendered(totalPages: int)
  {
    totalPages > 1
  }

  /** The filter deciding whether `page` gets a middle button. */
  predicate KeepPage(page: int, current: int, total: int)
  {
    if page == 1 || page == total then false
    else if current <= 3 then page <= 4
    else if current >= total - 2 then page >= total - 3
    else -1 <= page - current <= 1
  }

  /** `Array.from({length: total}, (_, i) => i + 1).filter(...)`, from page `p` on. */
  function FilterPages(p: int, current: int, total: int): seq<int>
    decreases total - p
  {
    if p > total then []
    else (if KeepPage(p, current, total) then [p] else []) + FilterPages(p + 1, current, total)
  }

  /** The middle page buttons, in the order they are rendered. */
  function MiddlePages(current: int, total: int): seq<int>
  {
    FilterPages(1, current, total)
  }

  /** The consecutive pages `lo..hi`, empty when `hi < lo`. */
  function Range(lo: int, hi: int): (r: seq<int>)
    ensures |r| == if hi >= lo then hi - lo + 1 else 0
    ensures forall i :: 0 <= i < |r| ==> r[i] == lo + i
  {
    seq(if hi >= lo then hi - lo + 1 else 0, i => lo + i)
  }

  function WindowLo(current: int, total: int): int
  {
    if current <= 3 then 2
    else if current >= total - 2 then (if total - 3 >= 2 then total - 3 else 2)
    else current - 1
  }

  function WindowHi(current: int, total: int): int
  {
    if current <= 3 then (if total - 1 <= 4 then total - 1 else 4)
    else if current >= total - 2 then total - 1
    else current + 1
  }

  /** The filter keeps exactly the pages of one window that lies strictly between the first and last page. */
  lemma KeepIsWindow(page: int, current: int, total: int)
    requires 1 <= page <= total
    ensures KeepPage(page, current, total) <==> WindowLo(current, total) <= page <= WindowHi(current, total)
    ensures 2 <= WindowLo(current, total) && WindowHi(current, total) <= total - 1
    ensures WindowHi(current, total) - WindowLo(current, total) <= 2
  {
  }

  lemma {:induction false} FilterIsWindow(p: int, current: int, total: int)
    requires p >= 1
    ensures var lo := WindowLo(current, total);
      FilterPages(p, current, total) == Range(if p > lo then p else lo, WindowHi(current, total))
    decreases total - p
  {
    var lo, hi := WindowLo(current, total), WindowHi(current, total);
    if p <= total {
      KeepIsWindow(p, current, total);
      FilterIsWindow(p + 1, current, total);
      var from := if p > lo then p else lo;
      if KeepPage(p, current, total) {
        assert Range(from, hi) == [p] + Range(p + 1, hi);
      }
    }
  }

  /** The middle buttons are the consecutive pages of the window, ascending. */
  lemma MiddleIsWindow(current: int, total: int)
    ensures MiddlePages(current, total) == Range(WindowLo(current, total), WindowHi(current, total))
  {
    FilterIsWindow(1, current, total);
    if total >= 1 {
      KeepIsWindow(1, current, total);
    }
  }

  /** At most three middle buttons, ascending by one, never the first or the last page. */
  lemma MiddlePagesShape(current: int, total: int)
    ensures var m := MiddlePages(current, total);
      |m| <= 3
      && (forall i :: 0 <= i < |m| ==> 2 <= m[i] <= total - 1)
      && (forall i :: 0 <= i < |m| - 1 ==> m[i + 1] == m[i] + 1)
  {
    MiddleIsWindow(current, total);
    if total >= 1 {
      KeepIsWindow(1, current, total);
    }
  }

  /** Every valid current page has a button: the first, the last, or a middle one. */
  lemma CurrentPageShown(current: int, total: int)
    requires 1 <= current <= total
    ensures current == 1 || current == total || current in MiddlePages(current, total)
  {
    MiddleIsWindow(current, total);
    KeepIsWindow(current, current, total);
    if 1 < current < total {
      assert MiddlePages(current, total)[current - WindowLo(current, total)] == current;
    }
  }

  predicate LeftEllipsis(current: int, total: int)
  {
    total > 5 && current > 3
  }

  predicate RightEllipsis(current: int, total: int)
  {
    total > 5 && current < total - 2
  }

  /**
   * An ellipsis is drawn exactly where pages are skipped: the left one iff
   * page 2 has no button, the right one iff page `total - 1` has none.
   */
  lemma EllipsesMarkGaps(current: int, total: int)
    requires total >= 3
    ensures LeftEllipsis(current, total) <==> 2 !in MiddlePages(current, total)
    ensures RightEllipsis(current, total) <==> total - 1 !in MiddlePages(current, total)
  {
    MiddleIsWindow(current, total);
    var m := MiddlePages(current, total);
    var lo, hi := WindowLo(current, total), WindowHi(current, total);
    KeepIsWindow(2, current, total);
    KeepIsWindow(total - 1, current, total);
    if lo <= 2 <= hi {
      assert m[2 - lo] == 2;
    }
    if lo <= total - 1 <= hi {
      assert m[total - 1 - lo] == total - 1;
    }
  }

  predicate PrevDisabled(current: int)
  {
    current == 1
  }

  predicate NextDisabled(current: int, total: int)
  {
    current == total
  }

  /**
   * The pager is drawn exactly when a step button can leave the current
   * page: with one page or none there is nowhere to go.
   */
  lemma RenderedIffStepPossible(current: int, total: int)
    requires 1 <= current <= total
    ensures Rendered(total) <==> GoToPage(current - 1, total).Some? || GoToPage(current + 1, total).Some?
  {
  }

  /** On a valid page, a step button is disabled exactly when the step would leave `1..total`. */
  lemma StepButtonsMatchGoToPage(current: int, total: int)
    requires 1 <= current <= total
    ensures PrevDisabled(current) <==> GoToPage(current - 1, total).None?
    ensures NextDisabled(current, total) <==> GoToPage(current + 1, total).None?
  {
  }
}
