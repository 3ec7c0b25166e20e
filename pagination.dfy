/** client/src/components/Pagination.tsx: the page count and the page the
    previous and next buttons ask for. */
module Pagination {
  import opened Wrappers

  /** `Math.ceil(totalItems / itemsPerPage)`: the fewest pages of
      `itemsPerPage` items that hold `totalItems` items. */
  function TotalPages(totalItems: nat, itemsPerPage: nat): (pages: nat)
    requires itemsPerPage > 0
    ensures pages * itemsPerPage >= totalItems
    ensures pages > 0 ==> (pages - 1) * itemsPerPage < totalItems
    ensures pages == 0 <==> totalItems == 0
  {
    (totalItems + itemsPerPage - 1) / itemsPerPage
  }

  /** The component renders nothing unless there are at least two pages. */
  predicate Rendered(totalPages: nat) {
    totalPages > 1
  }

  /** The page `handlePrev` passes to `onPageChange`, if it calls it. */
  function PrevPage(currentPage: int): Option<int> {
    if currentPage > 1 then Some(currentPage - 1) else None
  }

  /** The page `handleNext` passes to `onPageChange`, if it calls it. */
  function NextPage(currentPage: int, totalPages: nat): Option<int> {
    if currentPage < totalPages then Some(currentPage + 1) else None
  }

  predicate PrevDisabled(currentPage: int) {
    currentPage == 1
  }

  predicate NextDisabled(currentPage: int, totalPages: nat) {
    currentPage == totalPages
  }

  predicate InRange(page: int, totalPages: nat) {
    1 <= page <= totalPages
  }

  /** From a page in range, both buttons move by one page and stay in range;
      each one emits nothing exactly when it is disabled. */
  lemma MovesStayInRange(currentPage: int, totalPages: nat)
    requires InRange(currentPage, totalPages)
    ensures PrevPage(currentPage).Some? ==> PrevPage(currentPage).value == currentPage - 1 &&
                                             InRange(PrevPage(currentPage).value, totalPages)
    ensures NextPage(currentPage, totalPages).Some? ==> NextPage(currentPage, totalPages).value == currentPage + 1 &&
                                                        InRange(NextPage(currentPage, totalPages).value, totalPages)
    ensures PrevPage(currentPage).None? <==> PrevDisabled(currentPage)
    ensures NextPage(currentPage, totalPages).None? <==> NextDisabled(currentPage, totalPages)
  {
  }

  /** When the component is rendered, a page in range can be left in at least
      one direction. */
  lemma SomeMoveWhenRendered(currentPage: int, totalPages: nat)
    requires Rendered(totalPages) && InRange(currentPage, totalPages)
    ensures PrevPage(currentPage).Some? || NextPage(currentPage, totalPages).Some?
  {
  }
}
