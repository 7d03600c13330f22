/**
 * The order transactions list page. Same query state as the users page,
 * plus date-range filters merged from the filter form, and each row's
 * `created_at` cut down to its date part when a response is applied.
 */
module TransactionsPage {
  import opened Wrappers
  import opened Paging
  import GlobalFilter

  /** A row as the orders endpoint sends it. */
  datatype Transaction = Transaction(id: int, userId: int, username: Option<string>, createdAt: string)

  /** The error text a failed fetch stores (singular, as the page spells it). */
  const FetchError: string := "Failed to fetch transaction"

  /** `s.split("T")[0]`: the text before the first "T", or all of `s` when it has none. */
  function BeforeFirstT(s: string): (r: string)
    ensures r <= s
    ensures 'T' !in r
    ensures |r| < |s| ==> s[|r|] == 'T'
  {
    if s == [] || s[0] == 'T' then [] else [s[0]] + BeforeFirstT(s[1..])
  }

  /** Cutting a date that has already been cut changes nothing. */
  lemma {:induction false} BeforeFirstTIdempotent(s: string)
    ensures BeforeFirstT(BeforeFirstT(s)) == BeforeFirstT(s)
  {
    var r := BeforeFirstT(s);
    if r != [] {
      assert r[0] != 'T';
      assert r[1..] == BeforeFirstT(s[1..]);
      BeforeFirstTIdempotent(s[1..]);
    }
  }

  /** The row mapping applied to a response: only `created_at` changes, row by row, in order. */
  function TruncateDates(items: seq<Transaction>): (r: seq<Transaction>)
    ensures |r| == |items|
    ensures forall i :: 0 <= i < |items| ==>
              r[i].id == items[i].id && r[i].userId == items[i].userId &&
              r[i].username == items[i].username && r[i].createdAt == BeforeFirstT(items[i].createdAt)
  {
    seq(|items|, i requires 0 <= i < |items| => items[i].(createdAt := BeforeFirstT(items[i].createdAt)))
  }

  /** The query string of fetchTransactions for a given state. */
  function RequestParams(page: int, pageSize: int, filters: Filters, sort: SortState): (r: Params)
    requires page >= 1 && pageSize > 0
    ensures "skip" in r && "limit" in r
    ensures r["skip"] == Num(Skip(page, pageSize)) && r["limit"] == Num(pageSize)
    ensures "username" in r <==> Truthy(Lookup(filters, "username"))
    ensures "username" in r ==> r["username"] == Text(Lookup(filters, "username").value)
    ensures "search" in r <==> Truthy(Lookup(filters, "search"))
    ensures "search" in r ==> r["search"] == Text(Lookup(filters, "search").value)
    ensures "start_date" in r <==> Truthy(Lookup(filters, "startDate"))
    ensures "start_date" in r ==> r["start_date"] == Text(Lookup(filters, "startDate").value)
    ensures "end_date" in r <==> Truthy(Lookup(filters, "endDate"))
    ensures "end_date" in r ==> r["end_date"] == Text(Lookup(filters, "endDate").value)
    ensures ("sort_by" in r) == ("sort_order" in r) == Truthy(sort.sortBy)
    ensures "sort_by" in r ==> r["sort_by"] == Text(sort.sortBy.value) && r["sort_order"] == Text(OrderName(sort.order))
    ensures r.Keys <= {"skip", "limit", "username", "search", "start_date", "end_date", "sort_by", "sort_order"}
  {
    var p0 := map["skip" := Num(Skip(page, pageSize)), "limit" := Num(pageSize)];
    var p1 := if Truthy(Lookup(filters, "username")) then p0["username" := Text(filters["username"].value)] else p0;
    var p2 := if Truthy(Lookup(filters, "search")) then p1["search" := Text(filters["search"].value)] else p1;
    var p3 := if Truthy(Lookup(filters, "startDate")) then p2["start_date" := Text(filters["startDate"].value)] else p2;
    var p4 := if Truthy(Lookup(filters, "endDate")) then p3["end_date" := Text(filters["endDate"].value)] else p3;
    if Truthy(sort.sortBy) then
      p4["sort_by" := Text(sort.sortBy.value)]["sort_order" := Text(OrderName(sort.order))]
    else p4
  }

  /**
   * onApply's merge: `{...prev, [field]: value, ...(startDate && {startDate}), ...(endDate && {endDate})}`.
   * The chosen field is overwritten; a date key is overwritten only by a non-empty date.
   */
  function MergeFilter(prev: Filters, p: GlobalFilter.Payload): (r: Filters)
    ensures r.Keys == prev.Keys + {p.field}
                      + (if Truthy(p.startDate) then {"startDate"} else {})
                      + (if Truthy(p.endDate) then {"endDate"} else {})
    ensures Truthy(p.startDate) ==> r["startDate"] == p.startDate
    ensures Truthy(p.endDate) ==> r["endDate"] == p.endDate
    ensures p.field != "startDate" && p.field != "endDate" ==> r[p.field] == p.value
    ensures !Truthy(p.startDate) && p.field != "startDate" ==> Lookup(r, "startDate") == Lookup(prev, "startDate")
    ensures !Truthy(p.endDate) && p.field != "endDate" ==> Lookup(r, "endDate") == Lookup(prev, "endDate")
    ensures forall k :: k in prev && k != p.field && k != "startDate" && k != "endDate" ==> r[k] == prev[k]
  {
    var withField := prev[p.field := p.value];
    var withStart := if Truthy(p.startDate) then withField["startDate" := p.startDate] else withField;
    if Truthy(p.endDate) then withStart["endDate" := p.endDate] else withStart
  }

  /** The values fetchTransactions is recomputed from, except the filter object, which is new after every apply or reset. */
  datatype Deps = Deps(page: int, pageSize: int, sortBy: Option<string>, sortOrder: SortOrder)

  class Page {
    var transactions: seq<Transaction>
    var page: int
    var pageSize: int
    var total: nat
    var loading: bool
    var error: Option<string>
    var filters: Filters
    var sortBy: Option<string>
    var sortOrder: SortOrder
    /** The request of every fetch issued so far, oldest first. */
    var requests: seq<Params>

    ghost predicate Valid()
      reads this
    {
      page >= 1 && pageSize in PageSizes
    }

    function CurrentDeps(): Deps
      reads this
    {
      Deps(page, pageSize, sortBy, sortOrder)
    }

    function CurrentRequest(): Params
      reads this
      requires Valid()
    {
      RequestParams(page, pageSize, filters, SortState(sortBy, sortOrder))
    }

    function TotalPages(): nat
      reads this
      requires Valid()
    {
      Paging.TotalPages(total, pageSize)
    }

    function Render(): View<Transaction>
      reads this
    {
      if error.Some? then ErrorView(error.value)
      else if loading then Spinner
      else Table(transactions)
    }

    /** Mount: the initial state and the first fetch. */
    constructor ()
      ensures Valid()
      ensures transactions == [] && page == 1 && pageSize == 10 && total == 0 && error == None
      ensures filters == map[] && sortBy == None && sortOrder == Asc
      ensures loading && requests == [CurrentRequest()]
    {
      transactions, page, pageSize, total := [], 1, 10, 0;
      error, filters, sortBy, sortOrder := None, map[], None, Asc;
      loading := true;
      requests := [RequestParams(1, 10, map[], SortState(None, Asc))];
    }

    /** Issue fetchTransactions for the current state. */
    method Issue()
      requires Valid()
      modifies this`loading, this`requests
      ensures loading && requests == old(requests) + [CurrentRequest()]
    {
      loading := true;
      requests := requests + [CurrentRequest()];
    }

    /** The effect: fetch again only if a dependency changed. */
    method Refetch(before: Deps)
      requires Valid()
      modifies this`loading, this`requests
      ensures before != CurrentDeps() ==> loading && requests == old(requests) + [CurrentRequest()]
      ensures before == CurrentDeps() ==> loading == old(loading) && requests == old(requests)
    {
      if before != CurrentDeps() {
        Issue();
      }
    }

    method HandleSortChange(columnKey: string)
      requires Valid()
      modifies this`sortBy, this`sortOrder, this`loading, this`requests
      ensures Valid()
      ensures SortState(sortBy, sortOrder) == ToggleSort(SortState(old(sortBy), old(sortOrder)), columnKey)
      ensures loading && requests == old(requests) + [CurrentRequest()]
    {
      var before := CurrentDeps();
      if sortBy == Some(columnKey) {
        sortOrder := if sortOrder == Asc then Desc else Asc;
      } else {
        sortBy := Some(columnKey);
        sortOrder := Asc;
      }
      Refetch(before);
    }

    /** onApply: merge the payload into the filters, back to page 1; the new filter object always refetches. */
    method ApplyFilter(p: GlobalFilter.Payload)
      requires Valid()
      modifies this`filters, this`page, this`loading, this`requests
      ensures Valid()
      ensures filters == MergeFilter(old(filters), p) && page == 1
      ensures loading && requests == old(requests) + [CurrentRequest()]
    {
      var merged := filters[p.field := p.value];
      if Truthy(p.startDate) {
        merged := merged["startDate" := p.startDate];
      }
      if Truthy(p.endDate) {
        merged := merged["endDate" := p.endDate];
      }
      filters := merged;
      page := 1;
      Issue();
    }

    /** onReset: no filter at all, back to page 1. */
    method ResetFilters()
      requires Valid()
      modifies this`filters, this`page, this`loading, this`requests
      ensures Valid()
      ensures filters == map[] && page == 1
      ensures loading && requests == old(requests) + [CurrentRequest()]
    {
      filters := map[];
      page := 1;
      Issue();
    }

    /** The filter form's Apply button wired to onApply. */
    method ApplyClicked(form: GlobalFilter.FilterForm)
      requires Valid()
      modifies this`filters, this`page, this`loading, this`requests
      ensures Valid() && page == 1
      ensures form.IsDateFilter() ==>
                filters == MergeFilter(old(filters), GlobalFilter.Payload(form.field, None, Some(form.startDate), Some(form.endDate)))
      ensures !form.IsDateFilter() ==>
                filters == old(filters)[form.field := Some(form.value)]
      ensures loading && requests == old(requests) + [CurrentRequest()]
    {
      var p := form.Apply();
      ApplyFilter(p);
    }

    /** The filter form's Reset button: the form clears itself, then onReset runs once. */
    method ResetClicked(form: GlobalFilter.FilterForm)
      requires Valid() && form.Valid()
      modifies form, this`filters, this`page, this`loading, this`requests
      ensures Valid() && form.Valid()
      ensures form.field == form.options[0].value && form.value == "" && form.startDate == "" && form.endDate == ""
      ensures filters == map[] && page == 1
      ensures loading && requests == old(requests) + [CurrentRequest()]
    {
      form.Reset();
      ResetFilters();
    }

    /** The page-size select: only the size changes; the page is kept. */
    method ChangePageSize(size: int)
      requires Valid() && size in PageSizes
      modifies this`pageSize, this`loading, this`requests
      ensures Valid() && pageSize == size
      ensures old(pageSize) != size ==> loading && requests == old(requests) + [CurrentRequest()]
      ensures old(pageSize) == size ==> loading == old(loading) && requests == old(requests)
    {
      var before := CurrentDeps();
      pageSize := size;
      Refetch(before);
    }

    method Prev()
      requires Valid()
      modifies this`page, this`loading, this`requests
      ensures Valid() && page == ClickPrev(old(page))
      ensures old(page) > 1 ==> loading && requests == old(requests) + [CurrentRequest()]
      ensures old(page) <= 1 ==> loading == old(loading) && requests == old(requests)
    {
      var before := CurrentDeps();
      if !PrevDisabled(page) {
        page := if page - 1 > 1 then page - 1 else 1;
      }
      Refetch(before);
    }

    method Next()
      requires Valid()
      modifies this`page, this`loading, this`requests
      ensures Valid() && page == ClickNext(old(page), TotalPages())
      ensures old(page) < TotalPages() ==> loading && requests == old(requests) + [CurrentRequest()]
      ensures old(page) >= TotalPages() ==> loading == old(loading) && requests == old(requests)
    {
      var before := CurrentDeps();
      var totalPages := TotalPages();
      if !NextDisabled(page, totalPages) {
        page := if totalPages < page + 1 then totalPages else page + 1;
      }
      Refetch(before);
    }

    /** A response arrives (whichever request it answers): rows, with dates cut, and total replaced. */
    method FetchSucceeded(items: seq<Transaction>, newTotal: nat)
      modifies this`transactions, this`total, this`loading
      ensures transactions == TruncateDates(items) && total == newTotal && !loading
    {
      transactions := TruncateDates(items);
      total := newTotal;
      loading := false;
    }

    /** A request fails: the error is set and rows and total keep their values. */
    method FetchFailed()
      modifies this`error, this`loading
      ensures error == Some(FetchError) && !loading
      ensures Render() == ErrorView(FetchError)
    {
      error := Some(FetchError);
      loading := false;
    }
  }
}
