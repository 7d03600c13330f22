/**
 * The products list page: a fixed page size of ten, no filters and no
 * sort. A fetch runs on mount and whenever the page changes; a failed
 * fetch only logs, so the rows and total of the last success remain.
 */
module ProductsPage {
  import opened Paging

  /** A product row; its price is kept as an exact number (the float is not modelled). */
  datatype Product = Product(id: int, name: string, price: real, category: string, description: string)

  const PageSize: int := 10

  /** What one fetch asks for: the offset and the row count. */
  datatype Request = Request(skip: int, limit: int)

  /** The request of fetchProducts on a given page. */
  function RequestFor(page: int): (r: Request)
    requires page >= 1
    ensures r.limit == PageSize
    ensures r.skip >= 0 && r.skip % PageSize == 0 && r.skip / PageSize == page - 1
  {
    Request(Skip(page, PageSize), PageSize)
  }

  /** What the page shows: "Loading..." or the table of rows. */
  datatype PageView = Loading | ProductTable(rows: seq<Product>)

  class Page {
    var products: seq<Product>
    var page: int
    var total: nat
    var loading: bool
    /** The request of every fetch issued so far, oldest first. */
    var requests: seq<Request>

    ghost predicate Valid()
      reads this
    {
      page >= 1
    }

    /** `Math.ceil(total / PAGE_SIZE)`. */
    function TotalPages(): nat
      reads this
    {
      Paging.TotalPages(total, PageSize)
    }

    function Render(): PageView
      reads this
    {
      if loading then Loading else ProductTable(products)
    }

    /** Mount: page 1, no rows, and the first fetch. */
    constructor ()
      ensures Valid()
      ensures products == [] && page == 1 && total == 0
      ensures loading && requests == [RequestFor(1)]
    {
      products, page, total := [], 1, 0;
      loading := true;
      requests := [RequestFor(1)];
    }

    /** The Prev button: an enabled click moves back one page and fetches it. */
    method Prev()
      requires Valid()
      modifies this`page, this`loading, this`requests
      ensures Valid() && page == ClickPrev(old(page))
      ensures old(page) > 1 ==> loading && requests == old(requests) + [RequestFor(page)]
      ensures old(page) <= 1 ==> loading == old(loading) && requests == old(requests)
    {
      if !PrevDisabled(page) {
        page := if page - 1 > 1 then page - 1 else 1;
        loading := true;
        requests := requests + [RequestFor(page)];
      }
    }

    /** The Next button: an enabled click moves on one page and fetches it. */
    method Next()
      requires Valid()
      modifies this`page, this`loading, this`requests
      ensures Valid() && page == ClickNext(old(page), TotalPages())
      ensures old(page) < TotalPages() ==> loading && requests == old(requests) + [RequestFor(page)]
      ensures old(page) >= TotalPages() ==> loading == old(loading) && requests == old(requests)
    {
      var totalPages := TotalPages();
      if !NextDisabled(page, totalPages) {
        page := if totalPages < page + 1 then totalPages else page + 1;
        loading := true;
        requests := requests + [RequestFor(page)];
      }
    }

    /** A response arrives: rows and total are replaced wholesale. */
    method FetchSucceeded(items: seq<Product>, newTotal: nat)
      modifies this`products, this`total, this`loading
      ensures products == items && total == newTotal && !loading
    {
      products := items;
      total := newTotal;
      loading := false;
    }

    /** A request fails: the failure is only logged; rows and total stay as they were. */
    method FetchFailed()
      modifies this`loading
      ensures !loading && Render() == ProductTable(products)
    {
      loading := false;
    }
  }
}
