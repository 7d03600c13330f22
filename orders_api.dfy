/**
 * `GET /orders/`: cache lookup, a username filter through the order's
 * user, a date-range filter, ordering on a whitelisted column, the total
 * counted before paging, `offset`/`limit`, serialisation with the user's
 * name, and a cache store with a 60-second ttl; and `GET /orders/{id}`,
 * the detail view with the order's transactions.
 */
module OrdersApi {
  import opened Wrappers
  import opened Query
  import opened Models
  import opened Dates
  import Schemas
  import CacheKey
  import RedisCache

  /** The endpoint's query parameters (negative `skip`/`limit` are not modelled). */
  datatype OrderQuery = OrderQuery(skip: nat, limit: nat, username: Option<string>,
                                   startDate: Option<string>, endDate: Option<string>,
                                   sortBy: string, sortOrder: string)

  const Prefix: string := "orders:"

  /** The parameters in the order the cache key lists them, numbers as their decimal text. */
  function QueryFields(q: OrderQuery): seq<Option<string>> {
    [q.username, q.startDate, q.endDate, Some(q.sortBy), Some(q.sortOrder),
     Some(CacheKey.Decimal(q.skip)), Some(CacheKey.Decimal(q.limit))]
  }

  lemma QueryFieldsInjective(q1: OrderQuery, q2: OrderQuery)
    requires QueryFields(q1) == QueryFields(q2)
    ensures q1 == q2
  {
    assert QueryFields(q1)[5] == QueryFields(q2)[5];
    assert QueryFields(q1)[6] == QueryFields(q2)[6];
    CacheKey.DecimalInjective(q1.skip, q2.skip);
    CacheKey.DecimalInjective(q1.limit, q2.limit);
  }

  /** The query key as the handler writes it: the parameters joined by dashes. */
  function AsWrittenQueryKey(q: OrderQuery): string {
    CacheKey.AsWrittenQueryKey(QueryFields(q))
  }

  /** The cache key the handler uses: an unambiguous encoding of the parameters, hashed. */
  function Key(q: OrderQuery, hash: string -> string): (r: string)
    ensures Prefix <= r
  {
    CacheKey.CacheKeyOf(Prefix, hash, CacheKey.EncodeFields(QueryFields(q)))
  }

  /** Different queries get different cache keys. */
  lemma KeyInjective(q1: OrderQuery, q2: OrderQuery, hash: string -> string)
    requires CacheKey.CollisionFree(hash)
    requires Key(q1, hash) == Key(q2, hash)
    ensures q1 == q2
  {
    CacheKey.EncodedKeyInjective(Prefix, hash, QueryFields(q1), QueryFields(q2));
    QueryFieldsInjective(q1, q2);
  }

  // ---- the date window ----

  /** `strptime` rejected a date: the handler raises `ValueError`, an HTTP 500. */
  datatype OrderError = InvalidDate

  /** The upper bound as written: the end date plus one day minus one second, 23:59:59.000000. */
  function AsWrittenEndBound(end: Date): Timestamp {
    Midnight(end) + MicrosPerDay - MicrosPerSecond
  }

  /** The last instant of the end date, 23:59:59.999999. */
  function EndBound(end: Date): Timestamp {
    Midnight(end) + MicrosPerDay - 1
  }

  /** `created_at.between(start_dt, end_dt)` with the corrected upper bound. */
  predicate InWindow(start: Date, end: Date, t: Timestamp) {
    Midnight(start) <= t <= EndBound(end)
  }

  /** An instant is in the window exactly when its day lies from the start date through the end date. */
  lemma InWindowIsDayRange(start: Date, end: Date, t: Timestamp)
    ensures InWindow(start, end, t) <==> DayNumber(start) <= t / MicrosPerDay <= DayNumber(end)
  {
    var day := t / MicrosPerDay;
    assert day * MicrosPerDay <= t < (day + 1) * MicrosPerDay;
    if Midnight(start) <= t {
      DayOrder(DayNumber(start), day, t);
    }
    if t <= EndBound(end) {
      DayOrder(day, DayNumber(end), t);
    }
    if DayNumber(start) <= day {
      assert Midnight(start) <= day * MicrosPerDay;
    }
    if day <= DayNumber(end) {
      assert (day + 1) * MicrosPerDay <= (DayNumber(end) + 1) * MicrosPerDay;
    }
  }

  lemma DayOrder(a: int, b: int, t: Timestamp)
    requires a * MicrosPerDay <= t < (b + 1) * MicrosPerDay
    ensures a <= b
  {
  }

  /**
   * With the bound as written, an order placed half a second before
   * midnight at the end of the end date falls outside the window, though
   * it was placed on the end date.
   */
  lemma AsWrittenBoundMissesLastSecond(start: Date, end: Date)
    requires DayNumber(start) <= DayNumber(end)
    ensures var t := Midnight(end) + MicrosPerDay - MicrosPerSecond / 2;
      t / MicrosPerDay == DayNumber(end)
      && !(Midnight(start) <= t <= AsWrittenEndBound(end))
      && InWindow(start, end, t)
  {
    var t := Midnight(end) + MicrosPerDay - MicrosPerSecond / 2;
    InWindowIsDayRange(start, end, t);
    assert t == DayNumber(end) * MicrosPerDay + (MicrosPerDay - MicrosPerSecond / 2);
  }

  /**
   * Both dates given: both parsed, or the `ValueError`. Otherwise no date
   * filter at all.
   */
  function DateWindow(q: OrderQuery): (r: Result<Option<(Date, Date)>, OrderError>)
    ensures r.Failure? <==>
      (Given(q.startDate) && Given(q.endDate)
       && (ParseDate(q.startDate.value).None? || ParseDate(q.endDate.value).None?))
    ensures (r.Success? && r.value.Some?) <==>
      (Given(q.startDate) && Given(q.endDate)
       && ParseDate(q.startDate.value).Some? && ParseDate(q.endDate.value).Some?)
  {
    if Given(q.startDate) && Given(q.endDate) then
      match (ParseDate(q.startDate.value), ParseDate(q.endDate.value))
      case (Some(start), Some(end)) => Success(Some((start, end)))
      case _ => Failure(InvalidDate)
    else Success(None)
  }

  // ---- the query pipeline ----

  /** `query.join(User).filter(User.name.ilike(...))`: the inner join drops orders without a user. */
  predicate UserNameMatches(users: seq<UserRow>, o: OrderRow, username: string) {
    var u := UserOf(users, o.userId);
    u.Some? && ILike(u.value.name, username)
  }

  /** A row passes every filter the query gives. */
  predicate Matches(users: seq<UserRow>, q: OrderQuery, window: Option<(Date, Date)>, o: OrderRow) {
    (Given(q.username) ==> UserNameMatches(users, o, q.username.value))
    && (window.Some? ==> InWindow(window.value.0, window.value.1, o.createdAt))
  }

  function MatchesQuery(users: seq<UserRow>, q: OrderQuery, window: Option<(Date, Date)>): OrderRow -> bool {
    o => Matches(users, q, window, o)
  }

  function UsernameFilter(users: seq<UserRow>, username: string): OrderRow -> bool {
    o => UserNameMatches(users, o, username)
  }

  function WindowFilter(start: Date, end: Date): OrderRow -> bool {
    (o: OrderRow) => InWindow(start, end, o.createdAt)
  }

  /** The username filter, then the date filter, each only when asked for. */
  function Filtered(db: Db, q: OrderQuery, window: Option<(Date, Date)>): seq<OrderRow> {
    var byUser := if Given(q.username) then Filter(db.orders, UsernameFilter(db.users, q.username.value)) else db.orders;
    if window.Some? then Filter(byUser, WindowFilter(window.value.0, window.value.1)) else byUser
  }

  /** The chained filters keep exactly the matching rows, in table order. */
  lemma FilteredIsMatching(db: Db, q: OrderQuery, window: Option<(Date, Date)>)
    ensures Filtered(db, q, window) == Filter(db.orders, MatchesQuery(db.users, q, window))
  {
    var matches := MatchesQuery(db.users, q, window);
    if Given(q.username) && window.Some? {
      FilterTwice(db.orders, UsernameFilter(db.users, q.username.value), WindowFilter(window.value.0, window.value.1), matches);
    } else if Given(q.username) {
      FilterCongruent(db.orders, UsernameFilter(db.users, q.username.value), matches);
    } else if window.Some? {
      FilterCongruent(db.orders, WindowFilter(window.value.0, window.value.1), matches);
    } else {
      FilterAll(db.orders, matches);
    }
  }

  /** An order is listed among the matches exactly when it is in the table and passes the filters. */
  lemma FilteredMembers(db: Db, q: OrderQuery, window: Option<(Date, Date)>)
    ensures SubsequenceOf(Filtered(db, q, window), db.orders)
    ensures forall o :: o in Filtered(db, q, window) <==> o in db.orders && Matches(db.users, q, window, o)
  {
    var matches := MatchesQuery(db.users, q, window);
    FilteredIsMatching(db, q, window);
    FilterIsSubsequence(db.orders, matches);
    var r := Filter(db.orders, matches);
    forall o | o in r ensures o in db.orders && Matches(db.users, q, window, o) {
      assert o in multiset(r);
      var i :| 0 <= i < |r| && r[i] == o;
      assert matches(r[i]);
    }
  }

  /** The columns the handler lets a caller order by. */
  const SortColumns: seq<string> := ["id", "created_at"]

  function SortKey(column: string): OrderRow -> Key {
    if column == "created_at" then (o: OrderRow) => IntKey(o.createdAt)
    else (o: OrderRow) => IntKey(o.id)
  }

  /** Ordered on a whitelisted column, descending only for "desc"; any other column leaves table order. */
  function Ordered(rows: seq<OrderRow>, q: OrderQuery): seq<OrderRow> {
    OrderBy(rows, q.sortBy, SortColumns, SortKey(q.sortBy), q.sortOrder == "desc")
  }

  lemma OrderedIsSortedPermutation(rows: seq<OrderRow>, q: OrderQuery)
    ensures multiset(Ordered(rows, q)) == multiset(rows)
    ensures q.sortBy in SortColumns ==> SortedBy(Ordered(rows, q), SortKey(q.sortBy), q.sortOrder == "desc")
    ensures q.sortBy !in SortColumns ==> Ordered(rows, q) == rows
  {
    OrderByIsSortedPermutation(rows, q.sortBy, SortColumns, SortKey(q.sortBy), q.sortOrder == "desc");
  }

  /** The name of the order's user, or None when it has none. */
  function UsernameOf(users: seq<UserRow>, o: OrderRow): (r: Option<string>)
    ensures r.None? <==> forall u :: u in users ==> u.id != o.userId
    ensures r.Some? ==> exists u :: u in users && u.id == o.userId && u.name == r.value
  {
    match UserOf(users, o.userId)
    case Some(u) => Some(u.name)
    case None => None
  }

  /** One listed order, with the name of its user as the handler computes it. */
  function Serialize(users: seq<UserRow>, o: OrderRow): Schemas.Order {
    Schemas.Order(o.id, o.userId, UsernameOf(users, o), o.createdAt)
  }

  /** A listed order names its user exactly when the order has one, and names that user. */
  lemma SerializeCarriesUsername(users: seq<UserRow>, o: OrderRow)
    ensures Serialize(users, o).id == o.id && Serialize(users, o).userId == o.userId
    ensures Serialize(users, o).createdAt == o.createdAt
    ensures Serialize(users, o).username.Some? <==> exists u :: u in users && u.id == o.userId
    ensures Serialize(users, o).username.Some? ==>
      exists u :: u in users && u.id == o.userId && u.name == Serialize(users, o).username.value
  {
  }

  /**
   * A listed order as written: `schemas.Order` declares no `username`
   * field and pydantic drops the keyword it does not know, so the order
   * reaches the client without its user's name, which `None` stands for.
   */
  function AsWrittenSerialize(o: OrderRow): Schemas.Order {
    Schemas.Order(o.id, o.userId, None, o.createdAt)
  }

  /** As written, an order whose user exists is listed without the name the handler looked up. */
  lemma AsWrittenSerializeDropsUsername(users: seq<UserRow>, o: OrderRow, u: UserRow)
    requires u in users && u.id == o.userId
    ensures AsWrittenSerialize(o).username.None?
    ensures Serialize(users, o).username.Some?
    ensures AsWrittenSerialize(o) != Serialize(users, o)
    ensures AsWrittenSerialize(o) == Serialize(users, o).(username := None)
  {
    SerializeCarriesUsername(users, o);
  }

  /** The list comprehension over the page, as written. */
  function AsWrittenSerializeAll(page: seq<OrderRow>): (r: seq<Schemas.Order>)
    ensures |r| == |page| && forall i :: 0 <= i < |page| ==> r[i] == AsWrittenSerialize(page[i])
  {
    seq(|page|, i requires 0 <= i < |page| => AsWrittenSerialize(page[i]))
  }

  /** The list comprehension over the page. */
  function SerializeAll(users: seq<UserRow>, page: seq<OrderRow>): (r: seq<Schemas.Order>)
    ensures |r| == |page| && forall i :: 0 <= i < |page| ==> r[i] == Serialize(users, page[i])
  {
    seq(|page|, i requires 0 <= i < |page| => Serialize(users, page[i]))
  }

  /** What a cache miss answers: the `ValueError`, or one page of the ordered matches and their number. */
  function Respond(db: Db, q: OrderQuery): (r: Result<Schemas.Payload, OrderError>)
    ensures r.Success? ==> r.value.OrderList?
    ensures r.Failure? <==> DateWindow(q).Failure?
  {
    match DateWindow(q)
    case Failure(e) => Failure(e)
    case Success(window) =>
      var ordered := Ordered(Filtered(db, q, window), q);
      Success(Schemas.OrderList(SerializeAll(db.users, Paginate(ordered, q.skip, q.limit)), |ordered|))
  }

  /** The total counts every matching order, whatever the page. */
  lemma TotalCountsMatches(db: Db, q: OrderQuery)
    requires DateWindow(q).Success?
    ensures Respond(db, q).value.total == |Filter(db.orders, MatchesQuery(db.users, q, DateWindow(q).value))|
  {
    var window := DateWindow(q).value;
    FilteredIsMatching(db, q, window);
    OrderedIsSortedPermutation(Filtered(db, q, window), q);
  }

  /** The item serialises an order of the table that matches the query. */
  ghost predicate ListsMatch(db: Db, q: OrderQuery, window: Option<(Date, Date)>, item: Schemas.Order) {
    exists o :: o in db.orders && Matches(db.users, q, window, o) && item == Serialize(db.users, o)
  }

  /**
   * The page holds at most `limit` items, from position `skip` on, each a
   * matching order serialised with its user's name.
   */
  lemma PageListsMatches(db: Db, q: OrderQuery, window: Option<(Date, Date)>)
    requires DateWindow(q) == Success(window)
    ensures var n := Respond(db, q).value.total;
      |Respond(db, q).value.orders| == if q.skip >= n then 0 else Min(q.limit, n - q.skip)
    ensures forall i :: 0 <= i < |Respond(db, q).value.orders| ==> ListsMatch(db, q, window, Respond(db, q).value.orders[i])
  {
    FilteredMembers(db, q, window);
    var filtered := Filtered(db, q, window);
    var ordered := Ordered(filtered, q);
    OrderedIsSortedPermutation(filtered, q);
    var page := Paginate(ordered, q.skip, q.limit);
    PageRowsFrom(ordered, filtered, q.skip, q.limit);
    assert Respond(db, q) == Success(Schemas.OrderList(SerializeAll(db.users, page), |ordered|));
    forall i | 0 <= i < |Respond(db, q).value.orders|
      ensures ListsMatch(db, q, window, Respond(db, q).value.orders[i])
    {
      var o := page[i];
      assert o in page;
      assert o in db.orders && Matches(db.users, q, window, o) && Respond(db, q).value.orders[i] == Serialize(db.users, o);
    }
  }

  /** The page position and size do not change the total. */
  lemma TotalIgnoresPaging(db: Db, q: OrderQuery, skip: nat, limit: nat)
    requires DateWindow(q).Success?
    ensures Respond(db, q.(skip := skip, limit := limit)).value.total == Respond(db, q).value.total
  {
    var q2 := q.(skip := skip, limit := limit);
    assert DateWindow(q2) == DateWindow(q);
    assert Filtered(db, q2, DateWindow(q).value) == Filtered(db, q, DateWindow(q).value);
  }

  // ---- the cache ----

  /** Every stored orders entry is what a miss would answer for its query now. */
  ghost predicate Coherent(entries: map<string, RedisCache.Entry>, db: Db, hash: string -> string) {
    forall q :: Key(q, hash) in entries ==> Respond(db, q) == Success(entries[Key(q, hash)].value)
  }

  /** Storing a fresh answer under its own key keeps the cache coherent. */
  lemma StoreKeepsCoherent(entries: map<string, RedisCache.Entry>, db: Db, hash: string -> string, q: OrderQuery)
    requires CacheKey.CollisionFree(hash)
    requires Coherent(entries, db, hash)
    requires Respond(db, q).Success?
    ensures Coherent(entries[Key(q, hash) := RedisCache.Entry(Respond(db, q).value, RedisCache.ListTtl)], db, hash)
  {
    forall q2 | Key(q2, hash) == Key(q, hash) ensures q2 == q {
      KeyInjective(q2, q, hash);
    }
  }

  /** A store under a key outside the orders prefix leaves the orders entries coherent. */
  lemma ForeignStoreKeepsCoherent(entries: map<string, RedisCache.Entry>, db: Db, hash: string -> string,
                                  key: string, e: RedisCache.Entry)
    requires Coherent(entries, db, hash)
    requires !(Prefix <= key)
    ensures Coherent(entries[key := e], db, hash)
  {
  }

  /**
   * `get_orders`: a hit answers the stored payload and changes nothing; a
   * miss with an unparsable date fails and stores nothing; any other miss
   * runs the query, stores its answer for 60 seconds and answers it. On a
   * coherent cache the answer is always the fresh one.
   */
  method GetOrders(db: Db, redis: RedisCache.Redis, q: OrderQuery, hash: string -> string)
    returns (r: Result<Schemas.Payload, OrderError>)
    modifies redis
    ensures var key := Key(q, hash);
      if key in old(redis.entries) then
        r == Success(old(redis.entries[key].value)) && redis.entries == old(redis.entries)
      else if r.Failure? then
        r == Respond(db, q) && redis.entries == old(redis.entries)
      else
        r == Respond(db, q)
        && redis.entries == old(redis.entries)[key := RedisCache.Entry(r.value, RedisCache.ListTtl)]
    ensures CacheKey.CollisionFree(hash) && Coherent(old(redis.entries), db, hash) ==>
      r == Respond(db, q) && Coherent(redis.entries, db, hash)
  {
    var key := Key(q, hash);
    var cached := redis.GetCached(key);
    if cached.Some? {
      return Success(cached.value);
    }
    var window: Option<(Date, Date)> := None;
    if Given(q.startDate) && Given(q.endDate) {
      var start := ParseDate(q.startDate.value);
      var end := ParseDate(q.endDate.value);
      if start.None? || end.None? {
        return Failure(InvalidDate);
      }
      window := Some((start.value, end.value));
    }
    assert DateWindow(q) == Success(window);
    var query := Filtered(db, q, window);
    query := Ordered(query, q);
    var total := |query|;
    var orders := Paginate(query, q.skip, q.limit);
    var payload := Schemas.OrderList(SerializeAll(db.users, orders), total);
    if CacheKey.CollisionFree(hash) && Coherent(redis.entries, db, hash) {
      StoreKeepsCoherent(redis.entries, db, hash, q);
    }
    redis.SetCached(key, payload, RedisCache.ListTtl);
    r := Success(payload);
  }

  // ---- the handler as written ----

  /** The cache key as written: the prefix and the hash of the dash-joined parameters. */
  function AsWrittenKey(q: OrderQuery, hash: string -> string): (r: string)
    ensures Prefix <= r && r[|Prefix|..] == hash(AsWrittenQueryKey(q))
  {
    CacheKey.AsWrittenCacheKey(Prefix, hash, QueryFields(q))
  }

  /** `created_at.between(start_dt, end_dt)` with the bound as written. */
  function AsWrittenWindowFilter(start: Date, end: Date): OrderRow -> bool {
    (o: OrderRow) => Midnight(start) <= o.createdAt <= AsWrittenEndBound(end)
  }

  /** The filters as written: the date filter stops at 23:59:59.000000 of the end date. */
  function AsWrittenFiltered(db: Db, q: OrderQuery, window: Option<(Date, Date)>): seq<OrderRow> {
    var byUser := if Given(q.username) then Filter(db.orders, UsernameFilter(db.users, q.username.value)) else db.orders;
    if window.Some? then Filter(byUser, AsWrittenWindowFilter(window.value.0, window.value.1)) else byUser
  }

  /**
   * The filters as written list an order exactly when the corrected ones
   * do and it was not placed in the last second of the end date.
   */
  lemma AsWrittenFilteredMembers(db: Db, q: OrderQuery, window: Option<(Date, Date)>, o: OrderRow)
    ensures o in AsWrittenFiltered(db, q, window) <==>
      o in Filtered(db, q, window) && (window.Some? ==> o.createdAt <= AsWrittenEndBound(window.value.1))
  {
    if window.Some? {
      var (start, end) := window.value;
      var byUser := if Given(q.username) then Filter(db.orders, UsernameFilter(db.users, q.username.value)) else db.orders;
      assert AsWrittenFiltered(db, q, window) == Filter(byUser, AsWrittenWindowFilter(start, end));
      assert Filtered(db, q, window) == Filter(byUser, WindowFilter(start, end));
      FilterMember(byUser, AsWrittenWindowFilter(start, end), o);
      FilterMember(byUser, WindowFilter(start, end), o);
      assert AsWrittenEndBound(end) <= EndBound(end);
    }
  }

  /** What a cache miss answers as written: the as-written window and the as-written serialisation. */
  function AsWrittenRespond(db: Db, q: OrderQuery): (r: Result<Schemas.Payload, OrderError>)
    ensures r.Success? ==> r.value.OrderList?
    ensures r.Failure? <==> DateWindow(q).Failure?
    ensures r.Failure? <==> Respond(db, q).Failure?
  {
    match DateWindow(q)
    case Failure(e) => Failure(e)
    case Success(window) =>
      var ordered := Ordered(AsWrittenFiltered(db, q, window), q);
      Success(Schemas.OrderList(AsWrittenSerializeAll(Paginate(ordered, q.skip, q.limit)), |ordered|))
  }

  /**
   * An order placed half a second before midnight on the end date, in a
   * table of that one order: the corrected window counts it, the window as
   * written does not.
   */
  lemma AsWrittenRespondMissesLastSecond(db: Db, q: OrderQuery, o: OrderRow)
    requires DateWindow(q).Success? && DateWindow(q).value.Some?
    requires !Given(q.username) && db.orders == [o]
    requires DayNumber(DateWindow(q).value.value.0) <= DayNumber(DateWindow(q).value.value.1)
    requires o.createdAt == Midnight(DateWindow(q).value.value.1) + MicrosPerDay - MicrosPerSecond / 2
    ensures Respond(db, q).value.total == 1 && AsWrittenRespond(db, q).value.total == 0
  {
    var (start, end) := DateWindow(q).value.value;
    AsWrittenBoundMissesLastSecond(start, end);
    assert Filter([o], WindowFilter(start, end)) == [o] by {
      assert [o][1..] == [];
    }
    assert Filter([o], AsWrittenWindowFilter(start, end)) == [] by {
      assert [o][1..] == [];
    }
    OrderedIsSortedPermutation(Filtered(db, q, Some((start, end))), q);
    OrderedIsSortedPermutation(AsWrittenFiltered(db, q, Some((start, end))), q);
  }

  /** `get_orders` as written: keyed by `AsWrittenKey`, filtered with the as-written window. */
  method AsWrittenGetOrders(db: Db, redis: RedisCache.Redis, q: OrderQuery, hash: string -> string)
    returns (r: Result<Schemas.Payload, OrderError>)
    modifies redis
    ensures var key := AsWrittenKey(q, hash);
      if key in old(redis.entries) then
        r == Success(old(redis.entries[key].value)) && redis.entries == old(redis.entries)
      else if r.Failure? then
        r == AsWrittenRespond(db, q) && redis.entries == old(redis.entries)
      else
        r == AsWrittenRespond(db, q)
        && redis.entries == old(redis.entries)[key := RedisCache.Entry(r.value, RedisCache.ListTtl)]
  {
    var key := AsWrittenKey(q, hash);
    var cached := redis.GetCached(key);
    if cached.Some? {
      return Success(cached.value);
    }
    var window: Option<(Date, Date)> := None;
    if Given(q.startDate) && Given(q.endDate) {
      var start := ParseDate(q.startDate.value);
      var end := ParseDate(q.endDate.value);
      if start.None? || end.None? {
        return Failure(InvalidDate);
      }
      window := Some((start.value, end.value));
    }
    assert DateWindow(q) == Success(window);
    var query := AsWrittenFiltered(db, q, window);
    query := Ordered(query, q);
    var total := |query|;
    var orders := Paginate(query, q.skip, q.limit);
    var payload := Schemas.OrderList(AsWrittenSerializeAll(orders), total);
    redis.SetCached(key, payload, RedisCache.ListTtl);
    r := Success(payload);
  }

  // ---- the key as written ----

  /** With the dash-joined key, username "a" from "b-c" and username "a-b" from "c" share one cache entry. */
  lemma AsWrittenKeyCollides()
    ensures var q1 := OrderQuery(0, 10, Some("a"), Some("b-c"), None, "id", "asc");
            var q2 := OrderQuery(0, 10, Some("a-b"), Some("c"), None, "id", "asc");
            q1 != q2 && AsWrittenQueryKey(q1) == AsWrittenQueryKey(q2)
  {
    var q1 := OrderQuery(0, 10, Some("a"), Some("b-c"), None, "id", "asc");
    var q2 := OrderQuery(0, 10, Some("a-b"), Some("c"), None, "id", "asc");
    assert CacheKey.Decimal(0) == "0";
    assert CacheKey.Decimal(10) == "10";
    var tail := ["None", "id", "asc", "0", "10"];
    assert CacheKey.RenderAll(QueryFields(q1)) == ["a", "b-c"] + tail by {
      assert CacheKey.RenderAll(QueryFields(q1)) == ["a", "b-c", "None", "id", "asc", "0", "10"];
    }
    assert CacheKey.RenderAll(QueryFields(q2)) == ["a-b", "c"] + tail by {
      assert CacheKey.RenderAll(QueryFields(q2)) == ["a-b", "c", "None", "id", "asc", "0", "10"];
    }
    assert "b-c" == "b" + "-" + "c" && "a-b" == "a" + "-" + "b";
    CacheKey.JoinDashRegroup("a", "b", "c", tail);
  }

  lemma OneOrderTotals(db: Db, q1: OrderQuery, q2: OrderQuery)
    requires db == Db([], [UserRow(1, "a", "e")], [OrderRow(1, 1, 0)], [])
    requires q1 == OrderQuery(0, 10, Some("a"), Some("b-c"), None, "id", "asc")
    requires q2 == OrderQuery(0, 10, Some("a-b"), Some("c"), None, "id", "asc")
    ensures AsWrittenRespond(db, q1).Success? && AsWrittenRespond(db, q1).value.total == 1
    ensures AsWrittenRespond(db, q2).Success? && AsWrittenRespond(db, q2).value.total == 0
    ensures Respond(db, q2).Success? && Respond(db, q2).value.total == 0
  {
    assert DateWindow(q1) == Success(None) && DateWindow(q2) == Success(None);
    assert UserOf(db.users, 1) == Some(UserRow(1, "a", "e"));
    assert Lower("a") == "a" && Lower("a-b") == "a-b";
    assert UserNameMatches(db.users, db.orders[0], "a");
    assert !UserNameMatches(db.users, db.orders[0], "a-b");
    assert db.orders[1..] == [];
    assert AsWrittenFiltered(db, q1, None) == [db.orders[0]];
    assert AsWrittenFiltered(db, q2, None) == [];
    assert Filtered(db, q2, None) == [];
    OrderedIsSortedPermutation(AsWrittenFiltered(db, q1, None), q1);
    OrderedIsSortedPermutation(AsWrittenFiltered(db, q2, None), q2);
  }

  /**
   * With the key as written, the request for username "a-b" from "c" finds
   * the entry the request for username "a" from "b-c" stored, and answers
   * its total of 1 where the table holds no match.
   */
  lemma AsWrittenAnswersOtherQuery(hash: string -> string)
    ensures var q1 := OrderQuery(0, 10, Some("a"), Some("b-c"), None, "id", "asc");
            var q2 := OrderQuery(0, 10, Some("a-b"), Some("c"), None, "id", "asc");
            var db := Db([], [UserRow(1, "a", "e")], [OrderRow(1, 1, 0)], []);
            AsWrittenRespond(db, q1).Success?
            && var stored := map[AsWrittenKey(q1, hash) := RedisCache.Entry(AsWrittenRespond(db, q1).value, RedisCache.ListTtl)];
            AsWrittenKey(q2, hash) in stored
            && stored[AsWrittenKey(q2, hash)].value.total == 1
            && Respond(db, q2).value.total == 0 && AsWrittenRespond(db, q2).value.total == 0
  {
    var q1 := OrderQuery(0, 10, Some("a"), Some("b-c"), None, "id", "asc");
    var q2 := OrderQuery(0, 10, Some("a-b"), Some("c"), None, "id", "asc");
    AsWrittenKeyCollides();
    OneOrderTotals(Db([], [UserRow(1, "a", "e")], [OrderRow(1, 1, 0)], []), q1, q2);
  }

  // ---- the detail view ----

  datatype TransactionDetail = TransactionDetail(id: int, quantity: int, totalPrice: real, productId: int,
                                                 productName: Option<string>, productPrice: Option<real>)

  datatype OrderDetail = OrderDetail(id: int, userId: int, username: Option<string>, createdAt: Timestamp,
                                     transactions: seq<TransactionDetail>)

  /** The status and detail of an error response. */
  datatype HttpError = HttpError(status: int, detail: string)

  /** `filter(Order.id == order_id).first()` */
  function FindOrder(orders: seq<OrderRow>, id: int): (r: Option<OrderRow>)
    ensures r.Some? ==> r.value in orders && r.value.id == id
    ensures r.None? <==> forall o :: o in orders ==> o.id != id
  {
    if orders == [] then None
    else if orders[0].id == id then Some(orders[0])
    else FindOrder(orders[1..], id)
  }

  /** One entry of the `transactions` list, with the product's name and price when it exists. */
  function TransactionView(products: seq<ProductRow>, t: TransactionRow): TransactionDetail {
    var p := ProductOf(products, t.productId);
    TransactionDetail(t.id, t.quantity, t.totalPrice, t.productId,
                      if p.Some? then Some(p.value.name) else None,
                      if p.Some? then Some(p.value.price) else None)
  }

  /** `order.transactions`: the transactions of the order, in table order. */
  function TransactionsOf(transactions: seq<TransactionRow>, orderId: int): seq<TransactionRow> {
    Filter(transactions, (t: TransactionRow) => t.orderId == orderId)
  }

  /** The detail projection of a found order. */
  function Detail(db: Db, o: OrderRow): (r: OrderDetail)
    ensures r.id == o.id && r.userId == o.userId && r.createdAt == o.createdAt
    ensures r.username == UsernameOf(db.users, o)
    ensures |r.transactions| == |TransactionsOf(db.transactions, o.id)|
    ensures var txs := TransactionsOf(db.transactions, o.id);
      forall i :: 0 <= i < |txs| ==>
        var e := r.transactions[i];
        var p := ProductOf(db.products, txs[i].productId);
        e.id == txs[i].id && e.productId == txs[i].productId
        && e.quantity == txs[i].quantity && e.totalPrice == txs[i].totalPrice
        && (e.productName.None? <==> p.None?) && (e.productPrice.None? <==> p.None?)
        && (p.Some? ==> e.productName == Some(p.value.name) && e.productPrice == Some(p.value.price))
  {
    var txs := TransactionsOf(db.transactions, o.id);
    OrderDetail(o.id, o.userId, UsernameOf(db.users, o), o.createdAt,
                seq(|txs|, i requires 0 <= i < |txs| => TransactionView(db.products, txs[i])))
  }

  /** `get_order_by_id` as written: `HTTPException` is not imported, so a missing order raises `NameError`, an HTTP 500. */
  function AsWrittenOrderById(db: Db, id: int): Result<OrderDetail, HttpError> {
    match FindOrder(db.orders, id)
    case None => Failure(HttpError(500, "Internal Server Error"))
    case Some(o) => Success(Detail(db, o))
  }

  /** `get_order_by_id` as intended: a missing order is a 404 "Order not found". */
  function OrderById(db: Db, id: int): Result<OrderDetail, HttpError> {
    match FindOrder(db.orders, id)
    case None => Failure(HttpError(404, "Order not found"))
    case Some(o) => Success(Detail(db, o))
  }

  /** Without the order, the handler as written answers 500 where a 404 is meant. */
  lemma AsWrittenMissingOrderIsServerError(db: Db, id: int)
    requires forall o :: o in db.orders ==> o.id != id
    ensures AsWrittenOrderById(db, id) == Failure(HttpError(500, "Internal Server Error"))
    ensures OrderById(db, id) == Failure(HttpError(404, "Order not found"))
  {
  }

  /**
   * The detail view answers exactly when an order has the id: that order,
   * its user's name, and one entry per transaction of the order in table
   * order, naming and pricing the product when it exists.
   */
  lemma OrderByIdShowsOrder(db: Db, id: int)
    ensures OrderById(db, id).Success? <==> exists o :: o in db.orders && o.id == id
    ensures OrderById(db, id).Failure? ==> OrderById(db, id).error == HttpError(404, "Order not found")
    ensures OrderById(db, id).Success? ==>
      var d := OrderById(db, id).value;
      var txs := TransactionsOf(db.transactions, id);
      d.id == id && |d.transactions| == |txs|
      && (forall i :: 0 <= i < |txs| ==>
            txs[i] in db.transactions && txs[i].orderId == id
            && d.transactions[i].id == txs[i].id
            && d.transactions[i].productId == txs[i].productId
            && d.transactions[i].quantity == txs[i].quantity
            && d.transactions[i].totalPrice == txs[i].totalPrice
            && (d.transactions[i].productName.None? <==> forall p :: p in db.products ==> p.id != txs[i].productId)
            && (d.transactions[i].productPrice.None? <==> d.transactions[i].productName.None?)
            && (ProductOf(db.products, txs[i].productId).Some? ==>
                  d.transactions[i].productName == Some(ProductOf(db.products, txs[i].productId).value.name)
                  && d.transactions[i].productPrice == Some(ProductOf(db.products, txs[i].productId).value.price)))
      && (forall t :: t in db.transactions && t.orderId == id ==> t in txs)
  {
    var found := FindOrder(db.orders, id);
    if found.Some? {
      var txs := TransactionsOf(db.transactions, id);
      forall i | 0 <= i < |txs| ensures txs[i] in db.transactions {
        assert txs[i] in multiset(txs);
      }
    }
  }
}
