/**
 * The page-button strip: one numbered button per page, the current one
 * marked active, nothing at all when there is at most one page. The home page
 * draws the same strip inline.
 */
module Pagination {
  import opened Base
  import Decimal

  /** One button: its caption, whether it is marked active (and `aria-current`), the page its click requests. */
  datatype PageButton = PageButton(caption: string, active: bool, target: int)

  predicate IsPage(totalPages: int, p: int) { 1 <= p <= totalPages }

  function Buttons(currentPage: int, totalPages: int): (r: Option<seq<PageButton>>)
    ensures r.None? <==> totalPages <= 1
    ensures r.Some? ==> |r.value| == totalPages
  {
    if totalPages <= 1 then None
    else Some(seq(totalPages, i requires 0 <= i < totalPages =>
      PageButton(Decimal.IntToString(i + 1), currentPage == i + 1, i + 1)))
  }

  /** The buttons request the pages 1 to `totalPages`, each once, in ascending order. */
  lemma ButtonsCoverPages(currentPage: int, totalPages: int)
    requires totalPages > 1
    ensures var b := Buttons(currentPage, totalPages).value;
      && (forall i, j :: 0 <= i < j < |b| ==> b[i].target < b[j].target)
      && (forall p :: IsPage(totalPages, p) <==> exists i :: 0 <= i < |b| && b[i].target == p)
  {
    var b := Buttons(currentPage, totalPages).value;
    forall p | IsPage(totalPages, p)
      ensures exists i :: 0 <= i < |b| && b[i].target == p
    {
      assert b[p - 1].target == p;
    }
  }

  /**
   * A button is active exactly when it requests the current page, so at most
   * one is active, and one is active exactly when the current page exists.
   */
  lemma ActiveButton(currentPage: int, totalPages: int)
    requires totalPages > 1
    ensures var b := Buttons(currentPage, totalPages).value;
      && (forall i :: 0 <= i < |b| ==> (b[i].active <==> b[i].target == currentPage))
      && (forall i, j :: 0 <= i < |b| && 0 <= j < |b| && b[i].active && b[j].active ==> i == j)
      && ((exists i :: 0 <= i < |b| && b[i].active) <==> 1 <= currentPage <= totalPages)
  {
    var b := Buttons(currentPage, totalPages).value;
    if 1 <= currentPage <= totalPages {
      assert b[currentPage - 1].active;
    }
  }

  /** Each button shows the number of the page its click requests. */
  lemma CaptionIsTarget(currentPage: int, totalPages: int, i: int)
    requires totalPages > 1 && 0 <= i < totalPages
    ensures var b := Buttons(currentPage, totalPages).value[i];
      Decimal.ToNumber(b.caption) == Some(b.target)
  {
    Decimal.ToNumberOfIntToString(i + 1);
  }
}
