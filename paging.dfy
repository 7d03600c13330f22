/**
 * Rules that the users, transactions and products pages share: the sort
 * toggle, the page count and the Prev/Next buttons. Each page writes these
 * inline; here each is defined once and every page class uses it.
 */
module Paging {
  import opened Wrappers

  datatype SortOrder = Asc | Desc

  /** The wire spelling of a sort order. */
  function OrderName(o: SortOrder): string {
    match o
    case Asc => "asc"
    case Desc => "desc"
  }

  /** The page sizes the page-size select offers. */
  const PageSizes: seq<int> := [10, 20, 50, 100]

  /** A value of a request's query string: a number or a text. */
  datatype ParamValue = Num(n: int) | Text(s: string)

  type Params = map<string, ParamValue>

  /** JavaScript truthiness of an optional string: defined and not empty. */
  predicate Truthy(s: Option<string>) {
    s.Some? && s.value != ""
  }

  /** A page's filter object: absent keys are missing, keys set to `undefined` map to None. */
  type Filters = map<string, Option<string>>

  /** `filters[key]`, None when the key is missing. */
  function Lookup(f: Filters, key: string): Option<string> {
    if key in f then f[key] else None
  }

  /** What a list page shows: the error view replaces everything once an error is set. */
  datatype View<R> = ErrorView(message: string) | Spinner | Table(rows: seq<R>)

  /** The sort column (null when unset) and the sort direction. */
  datatype SortState = SortState(sortBy: Option<string>, order: SortOrder)

  function Flip(o: SortOrder): SortOrder {
    if o == Asc then Desc else Asc
  }

  /** handleSortChange: the active column flips its order, another column becomes active ascending. */
  function ToggleSort(s: SortState, key: string): (r: SortState)
    ensures r.sortBy == Some(key)
    ensures s.sortBy == Some(key) ==> r.order != s.order
    ensures s.sortBy != Some(key) ==> r.order == Asc
  {
    if s.sortBy == Some(key) then SortState(s.sortBy, Flip(s.order))
    else SortState(Some(key), Asc)
  }

  /** Toggling the active column twice restores its order; toggling a new column twice leaves it descending. */
  lemma ToggleTwice(s: SortState, key: string)
    ensures ToggleSort(ToggleSort(s, key), key).sortBy == Some(key)
    ensures s.sortBy == Some(key) ==> ToggleSort(ToggleSort(s, key), key) == s
    ensures s.sortBy != Some(key) ==> ToggleSort(ToggleSort(s, key), key).order == Desc
  {
    var once := ToggleSort(s, key);
    assert once.sortBy == Some(key);
  }

  /** Math.ceil(total / pageSize). */
  function TotalPages(total: nat, pageSize: int): (r: nat)
    requires pageSize > 0
    ensures r * pageSize >= total
    ensures total > 0 ==> (r - 1) * pageSize < total
    ensures total == 0 <==> r == 0
  {
    var r := (total + pageSize - 1) / pageSize;
    DivBounds(total + pageSize - 1, pageSize);
    r
  }

  lemma DivBounds(n: nat, d: int)
    requires d > 0
    ensures (n / d) * d <= n < (n / d) * d + d
  {
  }

  /** The Prev button is disabled at page 1 or below. */
  predicate PrevDisabled(page: int) {
    page <= 1
  }

  /** The Next button is disabled once the page reaches the page count. */
  predicate NextDisabled(page: int, totalPages: int) {
    page >= totalPages
  }

  /** A click on Prev: `Math.max(1, page - 1)` when enabled, nothing when disabled. */
  function ClickPrev(page: int): (r: int)
    ensures PrevDisabled(page) ==> r == page
    ensures !PrevDisabled(page) ==> r == page - 1 && r >= 1
  {
    if PrevDisabled(page) then page
    else if page - 1 > 1 then page - 1 else 1
  }

  /** A click on Next: `Math.min(totalPages, page + 1)` when enabled, nothing when disabled. */
  function ClickNext(page: int, totalPages: int): (r: int)
    ensures NextDisabled(page, totalPages) ==> r == page
    ensures !NextDisabled(page, totalPages) ==> r == page + 1 && r <= totalPages
  {
    if NextDisabled(page, totalPages) then page
    else if totalPages < page + 1 then totalPages else page + 1
  }

  /** Enabled clicks keep the page at 1 or above, and never past the page count unless it was already. */
  lemma ClicksStayInRange(page: int, totalPages: int)
    requires page >= 1
    ensures ClickPrev(page) >= 1 && ClickNext(page, totalPages) >= 1
    ensures page <= totalPages ==> ClickPrev(page) <= totalPages && ClickNext(page, totalPages) <= totalPages
    ensures ClickNext(page, totalPages) != page <==> page < totalPages
    ensures ClickPrev(page) != page <==> page > 1
  {
  }

  /** The request offset of a page: (page - 1) * pageSize, a non-negative multiple of pageSize. */
  function Skip(page: int, pageSize: int): (r: int)
    requires page >= 1 && pageSize > 0
    ensures r >= 0 && r % pageSize == 0 && r / pageSize == page - 1
  {
    MultipleOf(page - 1, pageSize);
    (page - 1) * pageSize
  }

  lemma MultipleOf(k: nat, d: int)
    requires d > 0
    ensures k * d >= 0 && (k * d) % d == 0 && (k * d) / d == k
  {
    var n := k * d;
    var q, r := n / d, n % d;
    assert n == q * d + r;
    assert (k - q) * d == r;
    if k - q >= 1 {
      assert false;
    } else if k - q <= -1 {
      assert false;
    }
  }
}
