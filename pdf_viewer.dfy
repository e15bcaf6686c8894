/** The page state of the PDF viewer: the page count the document reported,
    the page shown and the loading flag. */
module PdfViewer {
  import opened Wrappers

  function Min(a: int, b: int): int { if a <= b then a else b }
  function Max(a: int, b: int): int { if a >= b then a else b }

  /** The updater `changePage(offset)` passes: the new page, raised to at
      least 1 and then capped at the page count. */
  function Clamped(page: int, offset: int, numPages: nat): int
  {
    Min(Max(1, page + offset), numPages)
  }

  /** Once the document has pages the result stays within them; before that
      (no pages) it is always page 0. */
  lemma ClampedBounds(page: int, offset: int, numPages: nat)
    ensures numPages >= 1 ==> 1 <= Clamped(page, offset, numPages) <= numPages
    ensures numPages == 0 ==> Clamped(page, offset, numPages) == 0
    ensures 1 <= page + offset <= numPages ==> Clamped(page, offset, numPages) == page + offset
  {
  }

  /** Clamping twice by the same count changes nothing more. */
  lemma ClampedIdempotent(page: int, offset: int, numPages: nat)
    requires numPages >= 1
    ensures Clamped(Clamped(page, offset, numPages), 0, numPages) == Clamped(page, offset, numPages)
  {
  }

  /** "Previous" is a no-op on the first page and "next" on the last. */
  lemma EndsAreFixed(numPages: nat)
    requires numPages >= 1
    ensures Clamped(1, -1, numPages) == 1
    ensures Clamped(numPages, 1, numPages) == numPages
  {
  }

  /** What the page counter shows after the slash: the count, or "?" (`None`)
      while it is 0. */
  function CountShown(numPages: nat): (r: Option<nat>)
    ensures r.None? <==> numPages == 0
    ensures r.Some? ==> r.value == numPages
  {
    if numPages == 0 then None else Some(numPages)
  }

  class Viewer {
    var numPages: nat
    var pageNumber: int
    var isLoading: bool

    /** The page shown is one of the document's pages once it has any, and
        page 0 or 1 before. */
    ghost predicate Valid()
      reads this
    {
      if numPages == 0 then pageNumber == 0 || pageNumber == 1 else 1 <= pageNumber <= numPages
    }

    /** Initial state: no pages, page 1, loading. */
    constructor ()
      ensures numPages == 0 && pageNumber == 1 && isLoading
      ensures Valid()
    {
      numPages := 0;
      pageNumber := 1;
      isLoading := true;
    }

    /** `disabled={pageNumber <= 1}` on the "previous" button. */
    function PreviousDisabled(): bool reads this { pageNumber <= 1 }

    /** `disabled={pageNumber >= numPages}` on the "next" button. */
    function NextDisabled(): bool reads this { pageNumber >= numPages }

    /** `onDocumentLoadSuccess({ numPages })`. */
    method OnLoadSuccess(n: nat)
      modifies this
      ensures numPages == n && pageNumber == 1 && !isLoading
      ensures Valid()
    {
      numPages := n;
      pageNumber := 1;
      isLoading := false;
    }

    /** `onDocumentLoadError`: only the loading flag changes. */
    method OnLoadError()
      modifies this
      ensures numPages == old(numPages) && pageNumber == old(pageNumber) && !isLoading
      ensures old(Valid()) ==> Valid()
    {
      isLoading := false;
    }

    /** `changePage(offset)`. */
    method ChangePage(offset: int)
      modifies this
      ensures pageNumber == Clamped(old(pageNumber), offset, numPages)
      ensures numPages == old(numPages) && isLoading == old(isLoading)
      ensures Valid()
    {
      var newPage := pageNumber + offset;
      pageNumber := Min(Max(1, newPage), numPages);
    }

    /** `previousPage()`. */
    method PreviousPage()
      modifies this
      ensures pageNumber == Clamped(old(pageNumber), -1, numPages)
      ensures numPages == old(numPages) && isLoading == old(isLoading)
      ensures Valid()
    {
      ChangePage(-1);
    }

    /** `nextPage()`. */
    method NextPage()
      modifies this
      ensures pageNumber == Clamped(old(pageNumber), 1, numPages)
      ensures numPages == old(numPages) && isLoading == old(isLoading)
      ensures Valid()
    {
      ChangePage(1);
    }
  }

  /** On a loaded document the buttons agree with the clamp: an enabled
      button moves exactly one page, and the action of a disabled one would
      leave the page where it is. */
  lemma ButtonsAgreeWithClamp(page: int, numPages: nat)
    requires 1 <= page <= numPages
    ensures !(page <= 1) ==> Clamped(page, -1, numPages) == page - 1
    ensures page <= 1 ==> Clamped(page, -1, numPages) == page
    ensures !(page >= numPages) ==> Clamped(page, 1, numPages) == page + 1
    ensures page >= numPages ==> Clamped(page, 1, numPages) == page
  {
  }

  /** Before any document has loaded both buttons are disabled, and a page
      change moves to page 0. */
  lemma BeforeLoad(v: Viewer, offset: int)
    requires v.Valid() && v.numPages == 0
    ensures v.PreviousDisabled() && v.NextDisabled()
    ensures Clamped(v.pageNumber, offset, v.numPages) == 0
  {
  }

  /** On a loaded document in range, "next" is disabled exactly on the last
      page and "previous" exactly on the first. */
  lemma LoadedButtons(v: Viewer)
    requires v.Valid() && v.numPages >= 1
    ensures v.PreviousDisabled() <==> v.pageNumber == 1
    ensures v.NextDisabled() <==> v.pageNumber == v.numPages
  {
  }
}
