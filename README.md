# Paged list views and their API handlers, in Dafny

This project models the core of a small admin dashboard. It has a Next.js
front end and a FastAPI back end.

**Front end.** There are three list pages.
- The users page and the transactions (orders) page each keep a query state: page, page size, sort column and direction, and filters. A pure function turns that state into the request's query string. Every handler that changes a dependency of the fetch issues a new request.
- The products page has a fixed page size of ten.
- The shared `DataTable` component derives a header row and a virtualised body from its props.
- The `GlobalFilter` form holds a field select, a text box or two date inputs, and Apply/Reset buttons.
- `ErrorMessage` shows a banner. It fires an error toast at most once until Retry clears its flag.

**Back end.** `GET /products/`, `GET /users/` and `GET /orders/` all follow one pipeline:
1. Look up a Redis entry under a hashed key of the query parameters.
2. On a miss, apply the `ilike` filters.
3. Order by a whitelisted column.
4. Count the total before paging.
5. Slice with `offset`/`limit`.
6. Serialise the rows.
7. Store the answer with a 60-second ttl.

`GET /orders/{id}` returns an order with its transactions.

How the model represents these:
- Pages, the filter form, the toast guard and the Redis client are classes whose methods update fields.
- A page's `requests` field records every request it has issued, in order.
- The tables are sequences of rows.
- The hash is a function-typed parameter, idealised as collision-free where a property needs that.
- `order_by` is a stable sort. It is proved sorted on the column and a permutation of its input.

## Model

| member | source | states |
|---|---|---|
| `Paging.ToggleSort` | frontend/src/app/users/page.tsx:75-82 | the clicked column becomes the sort column; if it already was, the direction flips, otherwise it starts ascending |
| `Paging.ToggleTwice` | frontend/src/app/users/page.tsx:75-82 | two clicks on the active column restore the sort state; two clicks on a new column leave it descending |
| `Paging.TotalPages` | frontend/src/app/users/page.tsx:72 | the page count is the ceiling of total / pageSize: enough pages for every row, no empty last page, and zero exactly when there are no rows |
| `Paging.ClickPrev` | frontend/src/app/users/page.tsx:153-159 | a disabled Prev (page 1 or below) changes nothing; an enabled click moves back exactly one page and never below 1 |
| `Paging.ClickNext` | frontend/src/app/users/page.tsx:161-167 | a disabled Next (page at or past the count) changes nothing; an enabled click moves on exactly one page and never past the count |
| `Paging.ClicksStayInRange` | frontend/src/app/users/page.tsx:153-167 | from any page at or above 1, clicks keep the page at or above 1 and within the count; a click moves the page exactly when its button is enabled |
| `Paging.Skip` | frontend/src/app/users/page.tsx:43 | the request offset is a non-negative multiple of the page size whose quotient is the zero-based page index |
| `GlobalFilter.FindOption` | frontend/src/components/GlobalFilter.tsx:23 | None exactly when no option has the selected value; otherwise the first option with that value |
| `GlobalFilter.DateModeIffFirstMatchIsDate` | frontend/src/components/GlobalFilter.tsx:23-24 | date mode holds exactly when the first option with the selected value carries the date flag |
| `GlobalFilter.TrimIsInfix` | frontend/src/components/GlobalFilter.tsx:51 | the typed text is the trimmed text with only JavaScript white space before and after it |
| `GlobalFilter.TrimEnds` | frontend/src/components/GlobalFilter.tsx:51 | the trimmed text is empty or neither starts nor ends with white space |
| `GlobalFilter.TrimIdempotent` | frontend/src/components/GlobalFilter.tsx:51 | trimming a trimmed text changes nothing |
| `GlobalFilter.FilterForm.constructor` | frontend/src/components/GlobalFilter.tsx:17-21 | the form starts on the first option with every input empty |
| `GlobalFilter.FilterForm.SelectField` | frontend/src/components/GlobalFilter.tsx:33 | choosing a field changes only the field |
| `GlobalFilter.FilterForm.TypeValue` | frontend/src/components/GlobalFilter.tsx:51 | typing stores the trimmed text and changes nothing else |
| `GlobalFilter.FilterForm.PickStartDate` | frontend/src/components/GlobalFilter.tsx:63 | picking a start date stores it and changes nothing else |
| `GlobalFilter.FilterForm.PickEndDate` | frontend/src/components/GlobalFilter.tsx:72 | picking an end date stores it and changes nothing else |
| `GlobalFilter.FilterForm.Apply` | frontend/src/components/GlobalFilter.tsx:82-88 | the payload names the field; in date mode it carries both dates and no value, in text mode the value and no dates |
| `GlobalFilter.FilterForm.Reset` | frontend/src/components/GlobalFilter.tsx:94-100 | the form returns to the first option with every input empty |
| `UsersPage.RequestParams` | frontend/src/app/users/page.tsx:43-52 | skip and limit are always sent; search and email are sent exactly when truthy, with their values; sort_by and sort_order are sent together exactly when a sort column is set; no other key appears |
| `UsersPage.Page.constructor` | frontend/src/app/users/page.tsx:20-32 | the initial state (page 1, ten rows, no filter, no sort, ascending) and exactly one request for it |
| `UsersPage.Page.Refetch` | frontend/src/app/users/page.tsx:64-70 | a new request for the current state is issued exactly when one of page, pageSize, sortBy, sortOrder, search or email changed |
| `UsersPage.Page.HandleSortChange` | frontend/src/app/users/page.tsx:75-82 | the sort state becomes the toggle of the old one and a request for the new state is issued |
| `UsersPage.Page.ApplyFilter` | frontend/src/app/users/page.tsx:106-109 | one filter key is overwritten with the payload value, the page returns to 1, and a request is issued exactly when a dependency changed |
| `UsersPage.Page.ResetFilters` | frontend/src/app/users/page.tsx:110-113 | every filter is cleared, the page returns to 1, and a request is issued exactly when a dependency changed |
| `UsersPage.Page.ApplyClicked` | frontend/src/app/users/page.tsx:101-109 | the form's Apply sets the selected field's filter to the typed value, or to undefined in date mode, and returns to page 1; a request for the new state is issued exactly when search, email or the page changed |
| `UsersPage.Page.ResetClicked` | frontend/src/app/users/page.tsx:110-113 | Reset clears both the form and the page's filters and returns to page 1; a request for the new state is issued exactly when search, email or the page changed |
| `UsersPage.Page.ChangePageSize` | frontend/src/app/users/page.tsx:121 | only the page size changes (the page is kept), with a request exactly when the size differs |
| `UsersPage.Page.Prev` | frontend/src/app/users/page.tsx:153-159 | the page becomes `ClickPrev` of the old page, with a request exactly when it moved |
| `UsersPage.Page.Next` | frontend/src/app/users/page.tsx:161-167 | the page becomes `ClickNext` of the old page under the current count, with a request exactly when it moved |
| `UsersPage.Page.FetchSucceeded` | frontend/src/app/users/page.tsx:56-62 | rows and total are replaced by the response and loading ends |
| `UsersPage.Page.FetchFailed` | frontend/src/app/users/page.tsx:58-62 | the error "Failed to fetch users" is set, loading ends, and the page renders the error view |
| `TransactionsPage.BeforeFirstT` | frontend/src/app/transactions/page.tsx:64 | the result is the prefix of the timestamp before its first "T": it has no "T" and is followed by one unless it is the whole text |
| `TransactionsPage.BeforeFirstTIdempotent` | frontend/src/app/transactions/page.tsx:64 | cutting an already cut date changes nothing |
| `TransactionsPage.TruncateDates` | frontend/src/app/transactions/page.tsx:61-66 | the rows keep their number, order and every field except created_at, which is cut to its date part |
| `TransactionsPage.RequestParams` | frontend/src/app/transactions/page.tsx:44-56 | skip and limit are always sent; username, search, start_date and end_date are sent exactly when truthy, with their values; the sort pair is sent together exactly when a sort column is set; no other key appears |
| `TransactionsPage.MergeFilter` | frontend/src/app/transactions/page.tsx:121-127 | the chosen field is overwritten; a date key is overwritten only by a non-empty date and otherwise kept; every other key is kept |
| `TransactionsPage.Page.constructor` | frontend/src/app/transactions/page.tsx:23-35 | the initial state and exactly one request for it |
| `TransactionsPage.Page.Issue` | frontend/src/app/transactions/page.tsx:42-46 | loading starts and the request for the current state is appended |
| `TransactionsPage.Page.Refetch` | frontend/src/app/transactions/page.tsx:74-80 | a new request is issued exactly when page, pageSize, sortBy or sortOrder changed |
| `TransactionsPage.Page.HandleSortChange` | frontend/src/app/transactions/page.tsx:86-93 | the sort state becomes the toggle of the old one and a request is issued |
| `TransactionsPage.Page.ApplyFilter` | frontend/src/app/transactions/page.tsx:121-129 | the filters become the merge of the old filters with the payload, the page returns to 1, and a request is always issued (the filter object is new) |
| `TransactionsPage.Page.ResetFilters` | frontend/src/app/transactions/page.tsx:130-133 | every filter is cleared, the page returns to 1, and a request is always issued |
| `TransactionsPage.Page.ApplyClicked` | frontend/src/app/transactions/page.tsx:116-129 | the form's Apply merges either both dates (date mode) or the typed value into the filters and returns to page 1; a request for the new state is always issued, since the filters object is new |
| `TransactionsPage.Page.ResetClicked` | frontend/src/app/transactions/page.tsx:130-133 | Reset clears both the form and the page's filters and returns to page 1; a request for the new state is always issued |
| `TransactionsPage.Page.ChangePageSize` | frontend/src/app/transactions/page.tsx:141 | only the page size changes, with a request exactly when it differs |
| `TransactionsPage.Page.Prev` | frontend/src/app/transactions/page.tsx:194-200 | the page becomes `ClickPrev` of the old page, with a request exactly when it moved |
| `TransactionsPage.Page.Next` | frontend/src/app/transactions/page.tsx:202-208 | the page becomes `ClickNext` of the old page, with a request exactly when it moved |
| `TransactionsPage.Page.FetchSucceeded` | frontend/src/app/transactions/page.tsx:61-67 | the rows become the response rows with dates cut, and the total is replaced |
| `TransactionsPage.Page.FetchFailed` | frontend/src/app/transactions/page.tsx:68-73 | the error "Failed to fetch transaction" is set and the page renders the error view |
| `ProductsPage.RequestFor` | frontend/src/app/products/page.tsx:24-30 | a page's request asks for ten rows from offset (page - 1) * 10 |
| `ProductsPage.Page.constructor` | frontend/src/app/products/page.tsx:40-42 | the page starts at 1 with no rows and issues the request for page 1 |
| `ProductsPage.Page.Prev` | frontend/src/app/products/page.tsx:77-83 | the page becomes `ClickPrev` of the old page; the request for the new page is issued exactly when it moved |
| `ProductsPage.Page.Next` | frontend/src/app/products/page.tsx:85-91 | the page becomes `ClickNext` of the old page; the request for the new page is issued exactly when it moved |
| `ProductsPage.Page.FetchSucceeded` | frontend/src/app/products/page.tsx:31-32 | rows and total are replaced by the response |
| `ProductsPage.Page.FetchFailed` | frontend/src/app/products/page.tsx:33-37 | a failure only ends loading; rows and total remain and the table shows them |
| `DataTable.AlignClass` | frontend/src/components/DataTable.tsx:70 | right and center map to their classes; anything else, including no alignment, is left |
| `DataTable.HeaderClick` | frontend/src/components/DataTable.tsx:72 | a header click dispatches the column key exactly when the column is sortable and a handler is given |
| `DataTable.SortIndicator` | frontend/src/components/DataTable.tsx:76-83 | no arrow on unsortable columns; on the sorted column an up arrow for ascending and a down arrow otherwise; a faded up arrow elsewhere |
| `DataTable.CellContent` | frontend/src/components/DataTable.tsx:117 | a cell shows its renderer's output on the field and the row, or the raw field when there is no renderer |
| `DataTable.Header` | frontend/src/components/DataTable.tsx:66-87 | one header cell per column, in column order, with its key, label, alignment class and arrow |
| `DataTable.RenderRow` | frontend/src/components/DataTable.tsx:100-119 | a body row is keyed by the row's id and holds one cell per column, in column order |
| `DataTable.VirtualCount` | frontend/src/components/DataTable.tsx:54-55 | the virtualiser counts exactly the rows of the data |
| `DataTable.Body` | frontend/src/components/DataTable.tsx:97-98 | one rendered row per virtual index, showing the data row at that index |
| `DataTable.HeaderMatchesBody` | frontend/src/components/DataTable.tsx:66-119 | body cells line up with header cells column by column (same key, same alignment class), and each body row shows and is keyed by the data row at its index |
| `ErrorMessage.RenderBanner` | frontend/src/components/ErrorMessage.tsx:22-39 | nothing renders exactly when the message is empty; otherwise the message, with a Retry button exactly when onRetry is given |
| `ErrorMessage.ErrorToast.ToastOnce` | frontend/src/components/ErrorMessage.tsx:15-20 | a toast fires exactly when there is a message and the flag is clear, and then sets the flag; at most one toast since the last retry |
| `ErrorMessage.ErrorToast.constructor` | frontend/src/components/ErrorMessage.tsx:13-20 | on mount a non-empty message toasts once and sets the flag; an empty one does nothing |
| `ErrorMessage.ErrorToast.Rerender` | frontend/src/components/ErrorMessage.tsx:15-20 | a re-render toasts only when the message changed, is non-empty and the flag is clear; at most one toast since the last retry |
| `ErrorMessage.ErrorToast.Retry` | frontend/src/components/ErrorMessage.tsx:30-33 | Retry clears the flag, so the next changed message may toast again |
| `Query.ContainsAt` | backend/app/api/v1/products.py:42 | an occurrence of the pattern at any position makes the substring match hold |
| `Query.ContainsHasPosition` | backend/app/api/v1/products.py:42 | the substring match holds only through an occurrence at some position |
| `Query.ILikeIgnoresCase` | backend/app/api/v1/products.py:42 | `ilike` gives the same answer on case-folded value and pattern |
| `Query.ILikeIsCaselessInfix` | backend/app/api/v1/products.py:42 | `ilike` holds exactly when some stretch of the value equals the pattern letter by letter up to ASCII case |
| `Query.Filter` | backend/app/api/v1/products.py:41-44 | a filter keeps only passing rows, drops no passing row, and adds none |
| `Query.FilterMember` | backend/app/api/v1/products.py:41-44 | a row is kept exactly when it is in the table and passes |
| `Query.FilterIsSubsequence` | backend/app/api/v1/products.py:41-44 | filtering keeps the table order of the rows it keeps |
| `Query.FilterTwice` | backend/app/api/v1/products.py:41-44 | two filters in a row keep exactly the rows that pass both |
| `Query.FilterAll` | backend/app/api/v1/products.py:41-44 | a filter every row passes changes nothing |
| `Query.FilterCongruent` | backend/app/api/v1/products.py:41-44 | filters that agree on every row keep the same rows |
| `Query.Sort` | backend/app/api/v1/products.py:48-52 | ordering keeps exactly the same rows (as a multiset) |
| `Query.OrderByIsSortedPermutation` | backend/app/api/v1/products.py:48-52 | ordering on a whitelisted column keeps the same rows and sorts them on that column, descending only when asked; any other column keeps table order |
| `Query.SortSorted` | backend/app/api/v1/products.py:48-52 | ordering sorts the rows on the column in the requested direction |
| `Query.InOrderTotal` | backend/app/api/v1/products.py:48-52 | any two rows are comparable in the column order |
| `Query.InOrderTransitive` | backend/app/api/v1/products.py:48-52 | the column order is transitive |
| `Query.Paginate` | backend/app/api/v1/products.py:55 | offset/limit gives at most `limit` rows, exactly the rows from position `skip` on, as many as remain up to `limit` |
| `Query.PaginateSplit` | backend/app/api/v1/products.py:55 | a page of `a` rows followed by the page right after it equals one page of `a + b` rows |
| `CacheKey.DecimalInjective` | backend/app/api/v1/products.py:29 | different numbers print differently, so skip and limit are told apart in a key |
| `CacheKey.DecodeFieldRoundTrip` | backend/app/api/v1/products.py:29 | the key encoding of one parameter decodes back to that parameter and leaves the rest of the key untouched |
| `CacheKey.EncodeFieldsInjective` | backend/app/api/v1/products.py:29 | different parameter lists encode to different query keys |
| `CacheKey.CacheKeyInjective` | backend/app/api/v1/products.py:30 | with a collision-free hash, different query keys give different cache keys under one prefix |
| `CacheKey.EncodedKeyInjective` | backend/app/api/v1/products.py:29-30 | with a collision-free hash, the corrected key under one prefix determines the parameter list |
| `CacheKey.AsWrittenCacheKey` | backend/app/api/v1/products.py:29-30 | the key as written is the prefix followed by the digest of the dash-joined parameters |
| `Dates.ParseDate` | backend/app/api/v1/orders.py:49-50 | a parsed date is always a real calendar date |
| `Dates.ParseFormatRoundTrip` | backend/app/api/v1/orders.py:49-50 | every date parses back from its YYYY-MM-DD text |
| `RedisCache.Redis.GetCached` | backend/app/cache/redis.py:8-9 | a lookup finds a payload exactly when the key is stored, and it is the stored payload |
| `RedisCache.Redis.SetCached` | backend/app/cache/redis.py:11-12 | a store sets that key's payload and ttl and leaves every other key alone |
| `ProductsApi.QueryFieldsInjective` | backend/app/api/v1/products.py:29 | the parameter list of the key determines the query |
| `ProductsApi.KeyInjective` | backend/app/api/v1/products.py:29-30 | with a collision-free hash, different product queries get different cache keys |
| `ProductsApi.FilteredIsMatching` | backend/app/api/v1/products.py:41-44 | the category filter then the name filter, each applied only when given, keep exactly the rows matching every given parameter |
| `ProductsApi.FilteredMembers` | backend/app/api/v1/products.py:41-44 | a product is listed exactly when it is in the table and matches; table order is kept |
| `ProductsApi.OrderedIsSortedPermutation` | backend/app/api/v1/products.py:48-52 | ordering keeps the same rows; on name, price or id it sorts them, descending only for "desc"; any other column keeps table order |
| `ProductsApi.TotalCountsMatches` | backend/app/api/v1/products.py:54 | the total counts every matching product, before paging |
| `ProductsApi.PageListsMatches` | backend/app/api/v1/products.py:55-65 | the page holds as many items as remain from `skip`, at most `limit`, each a matching product with its fields carried over |
| `ProductsApi.TotalIgnoresPaging` | backend/app/api/v1/products.py:54-55 | skip and limit do not change the total |
| `ProductsApi.PagesTile` | backend/app/api/v1/products.py:55 | consecutive pages list, together, what one larger page lists |
| `ProductsApi.StoreKeepsCoherent` | backend/app/api/v1/products.py:68 | storing a fresh answer under its own key keeps every products entry equal to what a miss would answer |
| `ProductsApi.ForeignStoreKeepsCoherent` | backend/app/api/v1/products.py:30 | a store under another prefix leaves the products entries coherent |
| `ProductsApi.GetProducts` | backend/app/api/v1/products.py:19-69 | with the corrected key: a hit answers the stored payload and changes nothing; a miss answers the fresh response and stores it under the key with ttl 60; on a coherent cache the answer is always the fresh one |
| `ProductsApi.AsWrittenKeyCollides` | backend/app/api/v1/products.py:29-30 | two queries with different answers share one key as written |
| `ProductsApi.AsWrittenKey` | backend/app/api/v1/products.py:29-30 | the key as written is the prefix followed by the hash of the dash-joined parameters |
| `ProductsApi.AsWrittenGetProducts` | backend/app/api/v1/products.py:19-69 | the handler as written: a hit on the dash-joined key answers the stored payload and changes nothing; a miss answers the fresh response and stores it under that key with ttl 60 |
| `ProductsApi.AsWrittenAnswersOtherQuery` | backend/app/api/v1/products.py:29-33 | after the request for category "x" and search "y-z" is stored, the request for "x-y" and "z" finds that entry and its total of 1, though its own total is 0 |
| `UsersApi.QueryFieldsInjective` | backend/app/api/v1/users.py:29 | the parameter list of the key determines the query |
| `UsersApi.KeyInjective` | backend/app/api/v1/users.py:29-30 | with a collision-free hash, different user queries get different cache keys |
| `UsersApi.FilteredIsMatching` | backend/app/api/v1/users.py:42-46 | the name filter then the email filter, each applied only when given, keep exactly the matching users |
| `UsersApi.FilteredMembers` | backend/app/api/v1/users.py:42-46 | a user is listed exactly when it is in the table and matches; table order is kept |
| `UsersApi.OrderedIsSortedPermutation` | backend/app/api/v1/users.py:49-53 | ordering keeps the same rows; on name, email or id it sorts them, descending only for "desc"; any other column keeps table order |
| `UsersApi.TotalCountsMatches` | backend/app/api/v1/users.py:55 | the total counts every matching user, before paging |
| `UsersApi.PageListsMatches` | backend/app/api/v1/users.py:57-65 | the page holds as many items as remain from `skip`, at most `limit`, each a matching user with its fields carried over |
| `UsersApi.TotalIgnoresPaging` | backend/app/api/v1/users.py:55-57 | skip and limit do not change the total |
| `UsersApi.PagesTile` | backend/app/api/v1/users.py:57 | consecutive pages list, together, what one larger page lists |
| `UsersApi.StoreKeepsCoherent` | backend/app/api/v1/users.py:68 | storing a fresh answer under its own key keeps every users entry equal to what a miss would answer |
| `UsersApi.ForeignStoreKeepsCoherent` | backend/app/api/v1/users.py:30 | a store under another prefix leaves the users entries coherent |
| `UsersApi.GetUsers` | backend/app/api/v1/users.py:20-70 | with the corrected key: a hit answers the stored payload and changes nothing; a miss answers the fresh response and stores it with ttl 60; on a coherent cache the answer is always the fresh one |
| `UsersApi.AsWrittenKeyCollides` | backend/app/api/v1/users.py:29-30 | two different user queries share one key as written |
| `UsersApi.AsWrittenKey` | backend/app/api/v1/users.py:29-30 | the key as written is the prefix followed by the hash of the dash-joined parameters |
| `UsersApi.AsWrittenGetUsers` | backend/app/api/v1/users.py:20-70 | the handler as written: a hit on the dash-joined key answers the stored payload and changes nothing; a miss answers the fresh response and stores it under that key with ttl 60 |
| `UsersApi.AsWrittenAnswersOtherQuery` | backend/app/api/v1/users.py:29-33 | after the request for email "a" and search "b-c" is stored, the request for email "a-b" and search "c" finds that entry and its total of 1, though its own total is 0 |
| `OrdersApi.QueryFieldsInjective` | backend/app/api/v1/orders.py:31 | the parameter list of the key determines the query |
| `OrdersApi.KeyInjective` | backend/app/api/v1/orders.py:31-32 | with a collision-free hash, different order queries get different cache keys |
| `OrdersApi.DateWindow` | backend/app/api/v1/orders.py:48-50 | the date filter applies exactly when both dates are given and both parse; given dates that do not parse are the `ValueError` |
| `OrdersApi.InWindowIsDayRange` | backend/app/api/v1/orders.py:48-52 | an order is in the window exactly when its day lies from the start date through the end date |
| `OrdersApi.AsWrittenBoundMissesLastSecond` | backend/app/api/v1/orders.py:50 | with the bound as written, an order placed at 23:59:59.5 on the end date is excluded |
| `OrdersApi.FilteredIsMatching` | backend/app/api/v1/orders.py:44-52 | the username filter then the date filter, each applied only when asked for, keep exactly the matching orders |
| `OrdersApi.FilteredMembers` | backend/app/api/v1/orders.py:44-52 | an order is listed exactly when it is in the table, its user (if a username is given) matches, and it lies in the corrected window, through 23:59:59.999999 of the end date; table order is kept |
| `OrdersApi.OrderedIsSortedPermutation` | backend/app/api/v1/orders.py:57-61 | ordering keeps the same rows; on id or created_at it sorts them, descending only for "desc"; any other column keeps table order |
| `OrdersApi.UsernameOf` | backend/app/api/v1/orders.py:72 | the username is None exactly when no user has the order's user id, and otherwise that user's name |
| `OrdersApi.SerializeCarriesUsername` | backend/app/api/v1/orders.py:69-73 | a listed order keeps its id, user id and creation time, and names its user exactly when the order has one, with that user's name |
| `OrdersApi.AsWrittenSerializeDropsUsername` | backend/app/api/v1/orders.py:69-73 | as written, an order whose user exists is listed without a username, where the handler looked one up; nothing else differs |
| `OrdersApi.Respond` | backend/app/api/v1/orders.py:48-78 | the listing fails exactly when the date window fails to parse |
| `OrdersApi.TotalCountsMatches` | backend/app/api/v1/orders.py:63 | the total counts every matching order, before paging |
| `OrdersApi.PageListsMatches` | backend/app/api/v1/orders.py:65-75 | the page holds as many items as remain from `skip`, at most `limit`, each a matching order with its user's name |
| `OrdersApi.TotalIgnoresPaging` | backend/app/api/v1/orders.py:63-65 | skip and limit do not change the total |
| `OrdersApi.StoreKeepsCoherent` | backend/app/api/v1/orders.py:78 | storing a fresh answer under its own key keeps every orders entry equal to what a miss would answer |
| `OrdersApi.ForeignStoreKeepsCoherent` | backend/app/api/v1/orders.py:32 | a store under another prefix leaves the orders entries coherent |
| `OrdersApi.GetOrders` | backend/app/api/v1/orders.py:20-80 | with the corrected key and end bound: a hit answers the stored payload; a miss with a bad date fails and stores nothing; any other miss answers the fresh response and stores it with ttl 60; on a coherent cache the answer is always the fresh one |
| `OrdersApi.AsWrittenKeyCollides` | backend/app/api/v1/orders.py:31-32 | two different order queries share one key as written |
| `OrdersApi.AsWrittenKey` | backend/app/api/v1/orders.py:31-32 | the key as written is the prefix followed by the hash of the dash-joined parameters |
| `OrdersApi.AsWrittenFilteredMembers` | backend/app/api/v1/orders.py:44-52 | with the bound as written, an order is listed exactly when the corrected filters list it and it was not placed after 23:59:59.000000 of the end date |
| `OrdersApi.AsWrittenRespond` | backend/app/api/v1/orders.py:48-78 | the listing as written fails exactly when the corrected one does, that is when the date window fails to parse; it uses the as-written bound and lists orders without their username |
| `OrdersApi.AsWrittenRespondMissesLastSecond` | backend/app/api/v1/orders.py:48-63 | on a table holding one order placed at 23:59:59.5 on the end date, the corrected listing counts 1 and the listing as written counts 0 |
| `OrdersApi.AsWrittenGetOrders` | backend/app/api/v1/orders.py:20-80 | the handler as written: a hit on the dash-joined key answers the stored payload; a miss with a bad date fails and stores nothing; any other miss answers the listing with the as-written bound and without usernames, and stores it with ttl 60 |
| `OrdersApi.AsWrittenAnswersOtherQuery` | backend/app/api/v1/orders.py:31-36 | after the request for username "a" from "b-c" is stored, the request for username "a-b" from "c" finds that entry and its total of 1, though its own total is 0 |
| `OrdersApi.FindOrder` | backend/app/api/v1/orders.py:108-115 | the lookup finds an order with the id exactly when the table has one |
| `OrdersApi.Detail` | backend/app/api/v1/orders.py:121-136 | the detail carries the order's id, user id, user name and creation time, and one entry per transaction of the order with its id, product id, quantity and total price, and the product's name and price, both None exactly when the product is missing |
| `OrdersApi.AsWrittenMissingOrderIsServerError` | backend/app/api/v1/orders.py:118-119 | for a missing order the handler as written answers 500 where 404 "Order not found" is meant |
| `OrdersApi.OrderByIdShowsOrder` | backend/app/api/v1/orders.py:107-136 | the detail succeeds exactly when an order has the id, otherwise 404; it lists every transaction of the order, in table order, with each transaction's id, product id, quantity and total price; name and price are both None exactly when no product has the id, and otherwise are that product's name and price |
| `SharedCache.ProductsStoreKeepsCoherent` | backend/app/api/v1/products.py:5 | a products miss keeps the products, users and orders entries of the shared cache coherent |
| `SharedCache.UsersStoreKeepsCoherent` | backend/app/api/v1/users.py:5 | a users miss keeps all three handlers' entries coherent |
| `SharedCache.OrdersStoreKeepsCoherent` | backend/app/api/v1/orders.py:5 | an orders miss keeps all three handlers' entries coherent |

## Left out

- Rendering details are not modelled: styling classes other than the alignment class, spinners, and `toFixed(2)` on prices.
- The `isClient` gate of the users and transactions pages is not modelled: the model starts after the client-side flag is set.
- Asynchrony is not modelled. A fetch outcome is applied the moment it arrives. The order in which overlapping responses land is not modelled, and neither is the absence of a staleness guard.
- The window of rows the virtualiser yields is a parameter of `DataTable.Body`. Scroll positions and row heights are not modelled.
- `DataTable.SortedData` is the identity. Its sort column is never set, so the local comparator (`localeCompare`) is never reached.
- The transactions detail page and the router push to it are not modelled.
- `console` logging and the products page's "Products fetched" effect are not modelled.
- The products page puts `limit` in both the URL and the params. Both carry the same value, so the model sends one.
- Prices are exact reals. The float columns and JSON number rounding are not modelled.
- md5 is the parameter `hash`. Properties that need distinct digests assume a collision-free hash.
- Redis is not modelled as a network service. The ttl is recorded but expiry over time is not modelled.
- The coherence lemmas hold the database fixed between requests; writes (`create_user`, `create_order`, the seed script) are not modelled.
- The sort is a stable sort: SQL leaves the order of ties open, and the model is one of the orders it allows. `ilike` treats `%` and `_` in the user's text literally here, while SQL reads them as wildcards. Case folding covers ASCII letters only. Text order is code-point order, not a database collation.
- `skip` and `limit` are natural numbers. Negative values, which SQL rejects or treats specially, are not modelled.
- `Dates.ParseDate` accepts only the four-two-two digit form the date inputs send. `strptime` also accepts one-digit months and days.
- `OrdersApi.Serialize` and `OrdersApi.Detail` keep `created_at` as a timestamp, not its `isoformat()` text (orders.py:73 and :124).
- Nullable columns are modelled only where a handler tests them: `category` and `description` of products, and the order's user through the join. `user_id` itself is a plain integer.
- The response schemas for users and orders are missing from schemas.py: only the products list response is declared. users.py:19 and orders.py:19 name `schemas.UserListResponse` and `schemas.OrderListResponse` in their decorators, which Python evaluates at import, and api.py:2 imports both modules. With the schemas.py shown, the application would therefore stop with `AttributeError` before serving any route. The model assumes these schemas exist and lists users in the shape users.py builds. Orders are different. orders.py:69-73 builds each listed order as `schemas.Order`, which has no `username` field, so pydantic drops the name. `OrdersApi.Serialize` keeps the name, following the handler's evident intent; the as-written half is `OrdersApi.AsWrittenSerialize`, and the Findings row for orders.py:69-73 covers it.
- `ProductsApi.GetProducts` uses the corrected, unambiguous cache key, not the dash-joined key of products.py:29. Its coherence clause holds only for that key. The handler as written is `ProductsApi.AsWrittenGetProducts`; see the first Findings row.
- `UsersApi.GetUsers` uses the corrected cache key, not the dash-joined key of users.py:29. The handler as written is `UsersApi.AsWrittenGetUsers`; see the second Findings row.
- `OrdersApi.GetOrders` uses the corrected cache key, not the dash-joined key of orders.py:31. Its end bound is 23:59:59.999999 of the end date, not the 23:59:59.000000 of orders.py:50. The handler as written is `OrdersApi.AsWrittenGetOrders`; see the third and fourth Findings rows.
- `OrdersApi.Filtered`, `OrdersApi.FilteredMembers` and `OrdersApi.Respond` use the corrected end bound. `OrdersApi.Respond`, `OrdersApi.PageListsMatches` and `OrdersApi.GetOrders` also list each order with its username. The as-written versions are `OrdersApi.AsWrittenFiltered` and `OrdersApi.AsWrittenRespond`; see the fourth and fifth Findings rows.
- Router wiring (`routes.py`, `api.py`, `main.py`) is not part of this model.

## Findings

| source | as written | input that shows it | evidently intended | confidence | as-written member | corrected member |
|---|---|---|---|---|---|---|
| backend/app/api/v1/products.py:29-30 | the cache key joins the parameters with "-" and prints a missing one as "None", so different queries can share one key | category "x" with search "y-z", then category "x-y" with search "z": the second request gets the first one's cached answer (total 1 instead of 0 on a table with one product "y-z" in category "x") | one cache entry per distinct query | not executed | `ProductsApi.AsWrittenAnswersOtherQuery` | `ProductsApi.KeyInjective` |
| backend/app/api/v1/users.py:29-30 | the same dash-joined key | email "a" with search "b-c", then email "a-b" with search "c": the second request gets the first one's cached answer (total 1 instead of 0 on a table with one user named "b-c" with email "a") | one cache entry per distinct query | not executed | `UsersApi.AsWrittenAnswersOtherQuery` | `UsersApi.KeyInjective` |
| backend/app/api/v1/orders.py:31-32 | the same dash-joined key | username "a" from "b-c", then username "a-b" from "c", with no end date: the second request gets the first one's cached answer (total 1 instead of 0 on a table with one order of a user named "a") | one cache entry per distinct query | not executed | `OrdersApi.AsWrittenAnswersOtherQuery` | `OrdersApi.KeyInjective` |
| backend/app/api/v1/orders.py:50 | the upper bound is the end date plus one day minus one second, 23:59:59.000000 | an order created at 23:59:59.5 on the end date | every order placed on the end date is included | not executed | `OrdersApi.AsWrittenRespondMissesLastSecond` | `OrdersApi.InWindowIsDayRange` |
| backend/app/api/v1/orders.py:69-73 | each listed order is built as `schemas.Order`, which declares only `id`, `user_id` and `created_at` (schemas.py:50-54); pydantic drops the unknown `username` keyword | any order whose user exists: it is listed without its user's name, so the transactions page's name column stays empty | each listed order carries its user's name, as `schemas.OrderWithUsername` (schemas.py:41-45) would | not executed | `OrdersApi.AsWrittenSerializeDropsUsername` | `OrdersApi.SerializeCarriesUsername` |
| backend/app/api/v1/orders.py:119 | `HTTPException` is not imported (the only fastapi import is on line 1), so a missing order raises `NameError` | any order id no order has | a 404 "Order not found" | not executed | `OrdersApi.AsWrittenMissingOrderIsServerError` | `OrdersApi.OrderByIdShowsOrder` |
