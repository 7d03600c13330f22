/**
 * The users list page: its query state (page, page size, sort, filters),
 * the rows and total of the last response, the loading flag and the error.
 * Every handler is a method; `requests` records, in order, the request of
 * each fetch the page issues (one whenever a value the fetch depends on
 * changes), and a fetch outcome is applied the moment it arrives.
 */
module UsersPage {
  import opened Wrappers
  import opened Paging
  import GlobalFilter

  datatype User = User(id: int, name: string, email: string)

  /** The error text a failed fetch stores. */
  const FetchError: string := "Failed to fetch users"

  /** The query string of fetchUsers for a given state. */
  function RequestParams(page: int, pageSize: int, filters: Filters, sort: SortState): (r: Params)
    requires page >= 1 && pageSize > 0
    ensures "skip" in r && "limit" in r
    ensures r["skip"] == Num(Skip(page, pageSize)) && r["limit"] == Num(pageSize)
    ensures "search" in r <==> Truthy(Lookup(filters, "search"))
    ensures "search" in r ==> r["search"] == Text(Lookup(filters, "search").value)
    ensures "email" in r <==> Truthy(Lookup(filters, "email"))
    ensures "email" in r ==> r["email"] == Text(Lookup(filters, "email").value)
    ensures ("sort_by" in r) == ("sort_order" in r) == Truthy(sort.sortBy)
    ensures "sort_by" in r ==> r["sort_by"] == Text(sort.sortBy.value) && r["sort_order"] == Text(OrderName(sort.order))
    ensures r.Keys <= {"skip", "limit", "search", "email", "sort_by", "sort_order"}
  {
    var base := map["skip" := Num(Skip(page, pageSize)), "limit" := Num(pageSize)];
    var withSearch := if Truthy(Lookup(filters, "search")) then base["search" := Text(filters["search"].value)] else base;
    var withEmail := if Truthy(Lookup(filters, "email")) then withSearch["email" := Text(filters["email"].value)] else withSearch;
    if Truthy(sort.sortBy) then
      withEmail["sort_by" := Text(sort.sortBy.value)]["sort_order" := Text(OrderName(sort.order))]
    else withEmail
  }

  /** The values fetchUsers is recomputed from; a change to any of them issues a new fetch. */
  datatype Deps = Deps(page: int, pageSize: int, sortBy: Option<string>, sortOrder: SortOrder,
                       search: Option<string>, email: Option<string>)

  class Page {
    var users: seq<User>
    var page: int
    var pageSize: int
    var total: nat
    var loading: bool
    var error: Option<string>
    var filters: Filters
    var sortBy: Option<string>
    var sortOrder: SortOrder
    /** The request of every fetch issued so far, oldest first. */
    var requests: seq<Params>

    ghost predicate Valid()
      reads this
    {
      page >= 1 && pageSize in PageSizes
    }

    function CurrentDeps(): Deps
      reads this
    {
      Deps(page, pageSize, sortBy, sortOrder, Lookup(filters, "search"), Lookup(filters, "email"))
    }

    /** The request a fetch issued now would send. */
    function CurrentRequest(): Params
      reads this
      requires Valid()
    {
      RequestParams(page, pageSize, filters, SortState(sortBy, sortOrder))
    }

    /** `Math.ceil(total / pageSize)`. */
    function TotalPages(): nat
      reads this
      requires Valid()
    {
      Paging.TotalPages(total, pageSize)
    }

    function Render(): View<User>
      reads this
    {
      if error.Some? then ErrorView(error.value)
      else if loading then Spinner
      else Table(users)
    }

    /** Mount: the initial state, and the first fetch (page 1, ten rows, no filter, no sort). */
    constructor ()
      ensures Valid()
      ensures users == [] && page == 1 && pageSize == 10 && total == 0 && error == None
      ensures filters == map[] && sortBy == None && sortOrder == Asc
      ensures loading && requests == [CurrentRequest()]
    {
      users, page, pageSize, total := [], 1, 10, 0;
      error, filters, sortBy, sortOrder := None, map[], None, Asc;
      loading := true;
      requests := [RequestParams(1, 10, map[], SortState(None, Asc))];
    }

    /** The effect: if a dependency changed, fetchUsers runs again (setLoading(true), then the GET). */
    method Refetch(before: Deps)
      requires Valid()
      modifies this`loading, this`requests
      ensures before != CurrentDeps() ==> loading && requests == old(requests) + [CurrentRequest()]
      ensures before == CurrentDeps() ==> loading == old(loading) && requests == old(requests)
    {
      if before != CurrentDeps() {
        loading := true;
        requests := requests + [CurrentRequest()];
      }
    }

    /** A click on a sortable header. */
    method HandleSortChange(columnKey: string)
      requires Valid()
      modifies this`sortBy, this`sortOrder, this`loading, this`requests
      ensures Valid()
      ensures SortState(sortBy, sortOrder) == ToggleSort(SortState(old(sortBy), old(sortOrder)), columnKey)
      ensures loading && requests == old(requests) + [CurrentRequest()]
    {
      var before := CurrentDeps();
      if sortBy == Some(columnKey) {
        sortOrder := if sortOrder == Asc then Desc else Asc;
      } else {
        sortBy := Some(columnKey);
        sortOrder := Asc;
      }
      Refetch(before);
    }

    /** onApply: overwrite one filter key, back to page 1. */
    method ApplyFilter(p: GlobalFilter.Payload)
      requires Valid()
      modifies this`filters, this`page, this`loading, this`requests
      ensures Valid()
      ensures filters == old(filters)[p.field := p.value] && page == 1
      ensures old(CurrentDeps()) != CurrentDeps() ==> loading && requests == old(requests) + [CurrentRequest()]
      ensures old(CurrentDeps()) == CurrentDeps() ==> loading == old(loading) && requests == old(requests)
    {
      var before := CurrentDeps();
      filters := filters[p.field := p.value];
      page := 1;
      Refetch(before);
    }

    /** onReset: no filter at all, back to page 1. */
    method ResetFilters()
      requires Valid()
      modifies this`filters, this`page, this`loading, this`requests
      ensures Valid()
      ensures filters == map[] && page == 1
      ensures old(CurrentDeps()) != CurrentDeps() ==> loading && requests == old(requests) + [CurrentRequest()]
      ensures old(CurrentDeps()) == CurrentDeps() ==> loading == old(loading) && requests == old(requests)
    {
      var before := CurrentDeps();
      filters := map[];
      page := 1;
      Refetch(before);
    }

    /** The filter form's Apply button wired to onApply. */
    method ApplyClicked(form: GlobalFilter.FilterForm)
      requires Valid()
      modifies this`filters, this`page, this`loading, this`requests
      ensures Valid() && page == 1
      ensures form.IsDateFilter() ==> filters == old(filters)[form.field := None]
      ensures !form.IsDateFilter() ==> filters == old(filters)[form.field := Some(form.value)]
      ensures old(CurrentDeps()) != CurrentDeps() ==> loading && requests == old(requests) + [CurrentRequest()]
      ensures old(CurrentDeps()) == CurrentDeps() ==> loading == old(loading) && requests == old(requests)
    {
      var p := form.Apply();
      ApplyFilter(p);
    }

    /** The filter form's Reset button: the form clears itself, then onReset runs once. */
    method ResetClicked(form: GlobalFilter.FilterForm)
      requires Valid() && form.Valid()
      modifies form, this`filters, this`page, this`loading, this`requests
      ensures Valid() && form.Valid()
      ensures form.field == form.options[0].value && form.value == "" && form.startDate == "" && form.endDate == ""
      ensures filters == map[] && page == 1
      ensures old(CurrentDeps()) != CurrentDeps() ==> loading && requests == old(requests) + [CurrentRequest()]
      ensures old(CurrentDeps()) == CurrentDeps() ==> loading == old(loading) && requests == old(requests)
    {
      form.Reset();
      ResetFilters();
    }

    /** The page-size select: only the size changes; the page is kept. */
    method ChangePageSize(size: int)
      requires Valid() && size in PageSizes
      modifies this`pageSize, this`loading, this`requests
      ensures Valid() && pageSize == size
      ensures old(pageSize) != size ==> loading && requests == old(requests) + [CurrentRequest()]
      ensures old(pageSize) == size ==> loading == old(loading) && requests == old(requests)
    {
      var before := CurrentDeps();
      pageSize := size;
      Refetch(before);
    }

    /** The Prev button; a disabled button ignores the click. */
    method Prev()
      requires Valid()
      modifies this`page, this`loading, this`requests
      ensures Valid() && page == ClickPrev(old(page))
      ensures old(page) > 1 ==> loading && requests == old(requests) + [CurrentRequest()]
      ensures old(page) <= 1 ==> loading == old(loading) && requests == old(requests)
    {
      var before := CurrentDeps();
      if !PrevDisabled(page) {
        page := if page - 1 > 1 then page - 1 else 1;
      }
      Refetch(before);
    }

    /** The Next button; a disabled button ignores the click. */
    method Next()
      requires Valid()
      modifies this`page, this`loading, this`requests
      ensures Valid() && page == ClickNext(old(page), TotalPages())
      ensures old(page) < TotalPages() ==> loading && requests == old(requests) + [CurrentRequest()]
      ensures old(page) >= TotalPages() ==> loading == old(loading) && requests == old(requests)
    {
      var before := CurrentDeps();
      var totalPages := TotalPages();
      if !NextDisabled(page, totalPages) {
        page := if totalPages < page + 1 then totalPages else page + 1;
      }
      Refetch(before);
    }

    /** A response arrives (whichever request it answers): rows and total are replaced wholesale. */
    method FetchSucceeded(items: seq<User>, newTotal: nat)
      modifies this`users, this`total, this`loading
      ensures users == items && total == newTotal && !loading
    {
      users := items;
      total := newTotal;
      loading := false;
    }

    /** A request fails: the error is set and rows and total keep their values. */
    method FetchFailed()
      modifies this`error, this`loading
      ensures error == Some(FetchError) && !loading
      ensures Render() == ErrorView(FetchError)
    {
      error := Some(FetchError);
      loading := false;
    }
  }
}
