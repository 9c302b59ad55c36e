/** The home page's list state: the page, the chosen category and the search
    query; the handlers that change them; which request the page makes; and
    when the page control is shown. */
module Home {
  import opened Web
  import ServerPosts
  import PostContext

  const PAGE_SIZE := 10

  /** The request the effect makes for a state. */
  datatype FetchCall = SearchCall(query: string) | ListCall(page: int, limit: int, category: Option<Id>)

  /** The effect on `[currentPage, selectedCategory, searchQuery]`: a
      non-empty query searches, otherwise the chosen page is listed. */
  function FetchFor(page: int, category: Option<Id>, query: string): (r: FetchCall)
    ensures query != "" <==> r == SearchCall(query)
    ensures query == "" <==> r == ListCall(page, PAGE_SIZE, category)
  {
    if query != "" then SearchCall(query) else ListCall(page, PAGE_SIZE, category)
  }

  /** The page control is rendered only under a non-empty post list, with no
      query, and when there is more than one page. */
  function ShowPagination(postCount: nat, query: string, pages: int): (r: bool)
    ensures r <==> postCount > 0 && query == "" && pages > 1
    ensures r ==> forall page, category :: FetchFor(page, category, query).ListCall?
  {
    if postCount == 0 then false else query == "" && pages > 1
  }

  /** A user action on the page. */
  datatype HomeEvent = Search(query: string) | ChooseCategory(category: Option<Id>) | ChoosePage(page: int)

  class HomeState {
    var currentPage: int
    var selectedCategory: Option<Id>
    var searchQuery: string

    /** A category filter and a search never apply together. */
    predicate Valid()
      reads this
    {
      !(selectedCategory.Some? && searchQuery != "")
    }

    /** Whether the page control is rendered in this state, for a post list
        of `postCount` entries and a pagination claiming `pages` pages. */
    predicate PaginationShown(postCount: nat, pages: int)
      reads this
    {
      ShowPagination(postCount, searchQuery, pages)
    }

    /** The request the page makes in this state. */
    function Fetch(): FetchCall
      reads this
    {
      FetchFor(currentPage, selectedCategory, searchQuery)
    }

    constructor ()
      ensures currentPage == 1 && selectedCategory.None? && searchQuery == ""
      ensures Valid()
    {
      currentPage := 1;
      selectedCategory := None;
      searchQuery := "";
    }

    /** `handleSearch`: a search starts on page 1 and clears the category. */
    method HandleSearch(query: string)
      modifies this
      ensures searchQuery == query && currentPage == 1 && selectedCategory.None?
      ensures Valid()
      ensures query != "" ==> Fetch() == SearchCall(query)
      ensures query != "" ==> forall n: nat, pages: int :: !PaginationShown(n, pages)
    {
      searchQuery := query;
      currentPage := 1;
      selectedCategory := None;
    }

    /** `handleCategoryChange`: a category starts on page 1 and clears the query. */
    method HandleCategoryChange(category: Option<Id>)
      modifies this
      ensures selectedCategory == category && currentPage == 1 && searchQuery == ""
      ensures Valid()
      ensures Fetch() == ListCall(1, PAGE_SIZE, category)
      ensures forall n: nat, pages: int :: PaginationShown(n, pages) <==> n > 0 && pages > 1
    {
      selectedCategory := category;
      currentPage := 1;
      searchQuery := "";
    }

    /** `handlePageChange`: only the page changes. */
    method HandlePageChange(page: int)
      modifies this
      ensures currentPage == page
      ensures selectedCategory == old(selectedCategory) && searchQuery == old(searchQuery)
      ensures old(Valid()) ==> Valid()
    {
      currentPage := page;
    }

    method Dispatch(e: HomeEvent)
      modifies this
      ensures old(Valid()) ==> Valid()
    {
      match e
      case Search(q) => HandleSearch(q);
      case ChooseCategory(c) => HandleCategoryChange(c);
      case ChoosePage(p) => HandlePageChange(p);
    }
  }

  /** Whatever the user does, in any order, a category filter and a search
      are never in force together. */
  method RunEvents(h: HomeState, events: seq<HomeEvent>)
    requires h.Valid()
    modifies h
    ensures h.Valid()
  {
    for i := 0 to |events|
      invariant h.Valid()
    {
      h.Dispatch(events[i]);
    }
  }

  /** A search typed while a listing is on screen, and the effect's search
      branch that follows it (`searchPosts`, taken only for a non-empty
      query). `searchPosts` leaves the listing's pagination in the provider,
      so `pagination.pages` may still claim several pages; the page control
      stays hidden all the same, whatever the search returns. */
  method SearchOverListing(h: HomeState, ctx: PostContext.PostProvider, query: string,
                           response: PostContext.ApiResult<ServerPosts.Found>)
    requires query != ""
    modifies h, ctx
    ensures ctx.pagination == old(ctx.pagination)
    ensures h.Fetch() == SearchCall(query) && h.Valid()
    ensures response.Resolved? ==> ctx.posts == response.value.data
    ensures !h.PaginationShown(|ctx.posts|, ctx.pagination.pages)
  {
    h.HandleSearch(query);
    var _ := ctx.SearchPosts(response);
  }
}
