/**
 * The paged portfolio grid of the public site (`PortfolioSection`): eight
 * items a page, wrap-around previous/next buttons, and the "see more"
 * button that asks the page for more items once.
 */
module PortfolioSection {
  import opened Base
  import opened PortfolioItems
  import opened Text

  const ItemsPerPage: nat := 8
  const InitialItems: nat := 4

  /** `Math.ceil(n / itemsPerPage)`. */
  function TotalPages(n: nat): (r: nat)
    ensures r * ItemsPerPage >= n
    ensures r > 0 ==> (r - 1) * ItemsPerPage < n
  {
    (n + ItemsPerPage - 1) / ItemsPerPage
  }

  /** `slice(start, start + 8)` with `start = (page - 1) * 8`; `slice` clamps to the list. */
  function Slice<T>(items: seq<T>, page: nat): (r: seq<T>)
    requires page >= 1
    ensures |r| <= ItemsPerPage
    ensures (page - 1) * ItemsPerPage < |items| ==> r != []
    ensures r != [] ==> (page - 1) * ItemsPerPage + |r| <= |items|
    ensures forall i | 0 <= i < |r| :: r[i] == items[(page - 1) * ItemsPerPage + i]
  {
    var start := (page - 1) * ItemsPerPage;
    var lo := if start < |items| then start else |items|;
    var hi := if start + ItemsPerPage < |items| then start + ItemsPerPage else |items|;
    items[lo..hi]
  }

  /** The slices of pages 1 to k, one after another. */
  function Pages<T>(items: seq<T>, k: nat): seq<T> {
    if k == 0 then [] else Pages(items, k - 1) + Slice(items, k)
  }

  /** The first k pages are the first 8k items (or all of them). */
  lemma {:induction false} PagesArePrefix<T>(items: seq<T>, k: nat)
    ensures Pages(items, k) == items[..if k * ItemsPerPage < |items| then k * ItemsPerPage else |items|]
  {
    if k > 0 {
      PagesArePrefix(items, k - 1);
      var start := (k - 1) * ItemsPerPage;
      var lo := if start < |items| then start else |items|;
      var hi := if start + ItemsPerPage < |items| then start + ItemsPerPage else |items|;
      assert k * ItemsPerPage == start + ItemsPerPage;
      assert items[..lo] + items[lo..hi] == items[..hi];
    }
  }

  /** Paging through every page shows every item once, in order. */
  lemma AllPagesAreTheList<T>(items: seq<T>)
    ensures Pages(items, TotalPages(|items|)) == items
  {
    PagesArePrefix(items, TotalPages(|items|));
  }

  /** `goToPreviousPage`: from the first page to the last, else one back. */
  function Previous(page: int, totalPages: int): int {
    if page == 1 then totalPages else page - 1
  }

  /** `goToNextPage`: from the last page to the first, else one on. */
  function Next(page: int, totalPages: int): int {
    if page == totalPages then 1 else page + 1
  }

  /** Both buttons keep the page in range, and each undoes the other. */
  lemma NavigationStaysInRange(page: int, totalPages: int)
    requires 1 <= page <= totalPages
    ensures 1 <= Previous(page, totalPages) <= totalPages
    ensures 1 <= Next(page, totalPages) <= totalPages
    ensures Previous(Next(page, totalPages), totalPages) == page
    ensures Next(Previous(page, totalPages), totalPages) == page
  {
  }

  /** The pager is shown only when there is more than one page, i.e. more than 8 items. */
  predicate ShowControls(n: nat) {
    TotalPages(n) > 1
  }

  lemma ShowControlsExactly(n: nat)
    ensures ShowControls(n) <==> n > ItemsPerPage
  {
  }

  /** The state the section keeps. */
  datatype State = State(currentPage: nat, showAll: bool, selected: Option<PortfolioItem>)

  const Initial := State(1, false, None)

  /** "See more" is offered while the page has more, it was not yet pressed, and at most 4 items show. */
  predicate LoadMoreVisible(s: State, hasMore: bool, n: nat) {
    hasMore && !s.showAll && n <= InitialItems
  }

  /**
   * `handleFetchMore`: remembers that more was asked for; the page then
   * fetches. Afterwards the button is hidden whatever arrives.
   */
  function FetchMore(s: State): (r: State)
    ensures r.showAll && r.currentPage == s.currentPage && r.selected == s.selected
    ensures forall hasMore: bool, n: nat :: !LoadMoreVisible(r, hasMore, n)
  {
    s.(showAll := true)
  }

  /** `openModal` and `closeModal`. */
  function Open(s: State, item: PortfolioItem): (r: State)
    ensures r.selected == Some(item) && r.currentPage == s.currentPage && r.showAll == s.showAll
  {
    s.(selected := Some(item))
  }

  function Close(s: State): (r: State)
    ensures r.selected.None? && r.currentPage == s.currentPage && r.showAll == s.showAll
  {
    s.(selected := None)
  }
}
