/**
 * The page bar component (frontend/src/components/Pagination.jsx): in keyset
 * mode, when no page count is known, Prev/Next buttons only; otherwise a
 * window of at most five numbered buttons around the current page.
 */
module PageBar {
  import opened Common

  const MaxButtons := 5

  /** A rendered button: the page it requests and whether it is disabled. */
  datatype Button = Button(target: int, disabled: bool)

  datatype View =
    | Hidden
    | KeysetBar(page: int, prev: Button, next: Button)
    | NumberedBar(prev: Button, numbers: seq<int>, active: int, next: Button)

  function Max(a: int, b: int): (r: int) { if a >= b then a else b }
  function Min(a: int, b: int): (r: int) { if a <= b then a else b }

  /** `Array.from({length: end - start + 1}, (_, idx) => start + idx)`; a negative length gives no pages. */
  function Range(start: int, end: int): (r: seq<int>)
    ensures |r| == Max(0, end - start + 1)
  {
    if end < start then [] else seq(end - start + 1, idx => start + idx)
  }

  /** The window's first and last page numbers. */
  function WindowStart(page: int): (r: int) { Max(1, page - MaxButtons / 2) }
  function WindowEnd(page: int, totalPages: int): (r: int) { Min(totalPages, WindowStart(page) + MaxButtons - 1) }

  /**
   * What the component renders. `totalPages` is `None` for null or undefined;
   * in keyset mode the Prev/Next targets stand for the `onPrev`/`onNext`
   * callbacks, written here as page - 1 and page + 1.
   */
  function Render(page: int, totalPages: Option<int>, hasNext: bool, hasPrev: bool): (r: View) {
    if totalPages.None? then
      if !hasNext && !hasPrev then Hidden
      else KeysetBar(page, Button(page - 1, !hasPrev), Button(page + 1, !hasNext))
    else
      var t := totalPages.value;
      if t == 0 || t <= 1 then Hidden
      else NumberedBar(Button(page - 1, page <= 1), Range(WindowStart(page), WindowEnd(page, t)), page, Button(page + 1, page >= t))
  }

  // ---------------------------------------------------------------------------
  // Properties

  /** When the bar is hidden: in keyset mode exactly when there is neither a next nor a previous page, otherwise when there are at most one page. */
  lemma HiddenIff(page: int, totalPages: Option<int>, hasNext: bool, hasPrev: bool)
    ensures Render(page, totalPages, hasNext, hasPrev).Hidden? <==>
      if totalPages.None? then !hasNext && !hasPrev else totalPages.value <= 1
  {
  }

  /** The numbered buttons run consecutively from max(1, page - 2), at most five of them, all within 1..totalPages. */
  lemma WindowBounds(page: int, totalPages: int)
    ensures var ns := Range(WindowStart(page), WindowEnd(page, totalPages));
      && |ns| <= MaxButtons
      && (forall i :: 0 <= i < |ns| ==> ns[i] == Max(1, page - 2) + i)
      && (forall i :: 0 <= i < |ns| ==> 1 <= ns[i] <= totalPages)
  {
  }

  /** The current page has a button whenever it is a real page. */
  lemma CurrentPageShown(page: int, totalPages: int)
    requires 1 <= page <= totalPages
    ensures page in Range(WindowStart(page), WindowEnd(page, totalPages))
  {
    var ns := Range(WindowStart(page), WindowEnd(page, totalPages));
    assert ns[page - WindowStart(page)] == page;
  }

  /** Prev asks for page - 1 and is disabled on the first page; Next asks for page + 1 and is disabled from the last page on. */
  lemma NumberedButtons(page: int, totalPages: int, hasNext: bool, hasPrev: bool)
    requires totalPages > 1
    ensures var v := Render(page, Some(totalPages), hasNext, hasPrev);
      && v.NumberedBar?
      && v.prev == Button(page - 1, page <= 1)
      && v.next == Button(page + 1, page >= totalPages)
      && v.active == page
      && (|v.numbers| == 0 <==> page > totalPages + 2)
  {
  }
}
