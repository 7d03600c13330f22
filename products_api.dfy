/**
 * `GET /products/`: cache lookup, `ilike` filters on category and name,
 * ordering on a whitelisted column, the total counted before paging,
 * `offset`/`limit`, serialisation, and a cache store with a 60-second ttl.
 */
module ProductsApi {
  import opened Wrappers
  import opened Query
  import opened Models
  import Schemas
  import CacheKey
  import RedisCache

  /** The endpoint's query parameters (negative `skip`/`limit` are not modelled). */
  datatype ProductQuery = ProductQuery(skip: nat, limit: nat, category: Option<string>, search: Option<string>,
                                       sortBy: string, sortOrder: string)

  const Prefix: string := "products:"

  /** The parameters in the order the cache key lists them, numbers as their decimal text. */
  function QueryFields(q: ProductQuery): seq<Option<string>> {
    [q.category, q.search, Some(q.sortBy), Some(q.sortOrder), Some(CacheKey.Decimal(q.skip)), Some(CacheKey.Decimal(q.limit))]
  }

  lemma QueryFieldsInjective(q1: ProductQuery, q2: ProductQuery)
    requires QueryFields(q1) == QueryFields(q2)
    ensures q1 == q2
  {
    assert QueryFields(q1)[4] == QueryFields(q2)[4];
    assert QueryFields(q1)[5] == QueryFields(q2)[5];
    CacheKey.DecimalInjective(q1.skip, q2.skip);
    CacheKey.DecimalInjective(q1.limit, q2.limit);
  }

  /** The query key as the handler writes it: the parameters joined by dashes. */
  function AsWrittenQueryKey(q: ProductQuery): string {
    CacheKey.AsWrittenQueryKey(QueryFields(q))
  }

  /** The cache key the handler uses: an unambiguous encoding of the parameters, hashed. */
  function Key(q: ProductQuery, hash: string -> string): (r: string)
    ensures Prefix <= r
  {
    CacheKey.CacheKeyOf(Prefix, hash, CacheKey.EncodeFields(QueryFields(q)))
  }

  /** Different queries get different cache keys. */
  lemma KeyInjective(q1: ProductQuery, q2: ProductQuery, hash: string -> string)
    requires CacheKey.CollisionFree(hash)
    requires Key(q1, hash) == Key(q2, hash)
    ensures q1 == q2
  {
    CacheKey.EncodedKeyInjective(Prefix, hash, QueryFields(q1), QueryFields(q2));
    QueryFieldsInjective(q1, q2);
  }

  // ---- the query pipeline ----

  /** A row passes every filter the query gives (an empty parameter gives none). */
  predicate Matches(q: ProductQuery, p: ProductRow) {
    (Given(q.category) ==> ILikeNullable(p.category, q.category.value))
    && (Given(q.search) ==> ILike(p.name, q.search.value))
  }

  function MatchesQuery(q: ProductQuery): ProductRow -> bool {
    p => Matches(q, p)
  }

  /** `Product.category.ilike(f"%{category}%")` */
  function CategoryFilter(category: string): ProductRow -> bool {
    (p: ProductRow) => ILikeNullable(p.category, category)
  }

  /** `Product.name.ilike(f"%{search}%")` */
  function NameFilter(search: string): ProductRow -> bool {
    (p: ProductRow) => ILike(p.name, search)
  }

  /** The category filter, then the name filter, each only when its parameter is given. */
  function Filtered(rows: seq<ProductRow>, q: ProductQuery): seq<ProductRow> {
    var byCategory := if Given(q.category) then Filter(rows, CategoryFilter(q.category.value)) else rows;
    if Given(q.search) then Filter(byCategory, NameFilter(q.search.value)) else byCategory
  }

  /** The chained filters keep exactly the matching rows, in table order. */
  lemma FilteredIsMatching(rows: seq<ProductRow>, q: ProductQuery)
    ensures Filtered(rows, q) == Filter(rows, MatchesQuery(q))
  {
    if Given(q.category) && Given(q.search) {
      var byCategory, byName := CategoryFilter(q.category.value), NameFilter(q.search.value);
      FilterTwice(rows, byCategory, byName, MatchesQuery(q));
    } else if Given(q.category) {
      FilterCongruent(rows, CategoryFilter(q.category.value), MatchesQuery(q));
    } else if Given(q.search) {
      FilterCongruent(rows, NameFilter(q.search.value), MatchesQuery(q));
    } else {
      FilterAll(rows, MatchesQuery(q));
    }
  }

  /** A row is listed among the matches exactly when it is in the table and passes the filters. */
  lemma FilteredMembers(rows: seq<ProductRow>, q: ProductQuery)
    ensures SubsequenceOf(Filtered(rows, q), rows)
    ensures forall p :: p in Filtered(rows, q) <==> p in rows && Matches(q, p)
  {
    var matches := MatchesQuery(q);
    FilteredIsMatching(rows, q);
    FilterIsSubsequence(rows, matches);
    var r := Filter(rows, matches);
    forall p | p in r ensures p in rows && Matches(q, p) {
      assert p in multiset(r);
      var i :| 0 <= i < |r| && r[i] == p;
      assert matches(r[i]);
    }
  }

  /** The columns the handler lets a caller order by. */
  const SortColumns: seq<string> := ["name", "price", "id"]

  function SortKey(column: string): ProductRow -> Key {
    if column == "name" then (p: ProductRow) => StrKey(p.name)
    else if column == "price" then (p: ProductRow) => RealKey(p.price)
    else (p: ProductRow) => IntKey(p.id)
  }

  /** Ordered on a whitelisted column, descending only for "desc"; any other column leaves table order. */
  function Ordered(rows: seq<ProductRow>, q: ProductQuery): seq<ProductRow> {
    OrderBy(rows, q.sortBy, SortColumns, SortKey(q.sortBy), q.sortOrder == "desc")
  }

  lemma OrderedIsSortedPermutation(rows: seq<ProductRow>, q: ProductQuery)
    ensures multiset(Ordered(rows, q)) == multiset(rows)
    ensures q.sortBy in SortColumns ==> SortedBy(Ordered(rows, q), SortKey(q.sortBy), q.sortOrder == "desc")
    ensures q.sortBy !in SortColumns ==> Ordered(rows, q) == rows
  {
    OrderByIsSortedPermutation(rows, q.sortBy, SortColumns, SortKey(q.sortBy), q.sortOrder == "desc");
  }

  function Serialize(p: ProductRow): Schemas.Product {
    Schemas.Product(p.id, p.name, p.description, p.price, p.category)
  }

  /** The list comprehension over the page. */
  function SerializeAll(page: seq<ProductRow>): (r: seq<Schemas.Product>)
    ensures |r| == |page| && forall i :: 0 <= i < |page| ==> r[i] == Serialize(page[i])
  {
    seq(|page|, i requires 0 <= i < |page| => Serialize(page[i]))
  }

  /** What a cache miss answers: one page of the ordered matches and the number of matches. */
  function Respond(rows: seq<ProductRow>, q: ProductQuery): (r: Schemas.Payload)
    ensures r.ProductList?
  {
    var ordered := Ordered(Filtered(rows, q), q);
    Schemas.ProductList(SerializeAll(Paginate(ordered, q.skip, q.limit)), |ordered|)
  }

  /** The total counts every matching row, whatever the page. */
  lemma TotalCountsMatches(rows: seq<ProductRow>, q: ProductQuery)
    ensures Respond(rows, q).total == |Filter(rows, MatchesQuery(q))|
  {
    FilteredIsMatching(rows, q);
    OrderedIsSortedPermutation(Filtered(rows, q), q);
  }

  /** The item serialises a product of the table that matches the query. */
  ghost predicate ListsMatch(rows: seq<ProductRow>, q: ProductQuery, item: Schemas.Product) {
    exists p :: p in rows && Matches(q, p) && item == Serialize(p)
  }

  /**
   * The page holds at most `limit` items, from position `skip` on, each a
   * matching row with its fields carried over.
   */
  lemma PageListsMatches(rows: seq<ProductRow>, q: ProductQuery)
    ensures var n := Respond(rows, q).total;
      |Respond(rows, q).products| == if q.skip >= n then 0 else Min(q.limit, n - q.skip)
    ensures forall i :: 0 <= i < |Respond(rows, q).products| ==> ListsMatch(rows, q, Respond(rows, q).products[i])
  {
    FilteredMembers(rows, q);
    var filtered := Filtered(rows, q);
    var ordered := Ordered(filtered, q);
    OrderedIsSortedPermutation(filtered, q);
    var page := Paginate(ordered, q.skip, q.limit);
    PageRowsFrom(ordered, filtered, q.skip, q.limit);
    assert Respond(rows, q) == Schemas.ProductList(SerializeAll(page), |ordered|);
    forall i | 0 <= i < |Respond(rows, q).products|
      ensures ListsMatch(rows, q, Respond(rows, q).products[i])
    {
      var p := page[i];
      assert p in page;
      assert p in rows && Matches(q, p) && Respond(rows, q).products[i] == Serialize(p);
    }
  }


  /** Two queries that differ at most in the page position and size. */
  predicate SameListing(q: ProductQuery, q2: ProductQuery) {
    q.category == q2.category && q.search == q2.search && q.sortBy == q2.sortBy && q.sortOrder == q2.sortOrder
  }

  /** Filtering and ordering depend on neither the page position nor its size. */
  lemma PagingKeepsMatches(rows: seq<ProductRow>, q: ProductQuery, q2: ProductQuery)
    requires SameListing(q, q2)
    ensures Ordered(Filtered(rows, q2), q2) == Ordered(Filtered(rows, q), q)
    ensures Respond(rows, q2).products == SerializeAll(Paginate(Ordered(Filtered(rows, q), q), q2.skip, q2.limit))
  {
    assert Filtered(rows, q2) == Filtered(rows, q);
  }

  /** The page position and size do not change the total. */
  lemma TotalIgnoresPaging(rows: seq<ProductRow>, q: ProductQuery, skip: nat, limit: nat)
    ensures Respond(rows, q.(skip := skip, limit := limit)).total == Respond(rows, q).total
  {
    PagingKeepsMatches(rows, q, q.(skip := skip, limit := limit));
  }

  /**
   * Consecutive pages tile the listing: the page of `q1`, then the page of
   * `q2` that starts where it ends, list what the page of `q3` lists when
   * `q3` starts with `q1` and is as long as both.
   */
  lemma PagesTile(rows: seq<ProductRow>, q1: ProductQuery, q2: ProductQuery, q3: ProductQuery)
    requires SameListing(q1, q2) && SameListing(q1, q3)
    requires q2.skip == q1.skip + q1.limit && q3.skip == q1.skip && q3.limit == q1.limit + q2.limit
    ensures Respond(rows, q1).products + Respond(rows, q2).products == Respond(rows, q3).products
  {
    var ordered := Ordered(Filtered(rows, q1), q1);
    var left, right := Paginate(ordered, q1.skip, q1.limit), Paginate(ordered, q2.skip, q2.limit);
    PagingKeepsMatches(rows, q1, q2);
    PagingKeepsMatches(rows, q1, q3);
    PagingKeepsMatches(rows, q1, q1);
    PaginateSplit(ordered, q1.skip, q1.limit, q2.limit);
    SerializeAllAppend(left, right);
  }

  lemma SerializeAllAppend(left: seq<ProductRow>, right: seq<ProductRow>)
    ensures SerializeAll(left) + SerializeAll(right) == SerializeAll(left + right)
  {
    var whole := left + right;
    forall i | 0 <= i < |whole| ensures (SerializeAll(left) + SerializeAll(right))[i] == SerializeAll(whole)[i] {
      if i >= |left| {
        assert whole[i] == right[i - |left|];
      }
    }
  }

  // ---- the cache ----

  /** Every stored products entry is what a miss would answer for its query now. */
  ghost predicate Coherent(entries: map<string, RedisCache.Entry>, db: Db, hash: string -> string) {
    forall q :: Key(q, hash) in entries ==> entries[Key(q, hash)].value == Respond(db.products, q)
  }

  /** Storing a fresh answer under its own key keeps the cache coherent. */
  lemma StoreKeepsCoherent(entries: map<string, RedisCache.Entry>, db: Db, hash: string -> string, q: ProductQuery)
    requires CacheKey.CollisionFree(hash)
    requires Coherent(entries, db, hash)
    ensures Coherent(entries[Key(q, hash) := RedisCache.Entry(Respond(db.products, q), RedisCache.ListTtl)], db, hash)
  {
    forall q2 | Key(q2, hash) == Key(q, hash) ensures q2 == q {
      KeyInjective(q2, q, hash);
    }
  }

  /** A store under a key outside the products prefix leaves the products entries coherent. */
  lemma ForeignStoreKeepsCoherent(entries: map<string, RedisCache.Entry>, db: Db, hash: string -> string,
                                  key: string, e: RedisCache.Entry)
    requires Coherent(entries, db, hash)
    requires !(Prefix <= key)
    ensures Coherent(entries[key := e], db, hash)
  {
  }

  /**
   * `get_products`: a hit answers the stored payload and changes nothing;
   * a miss runs the query, stores its answer for 60 seconds and answers it.
   * On a coherent cache the answer is always the fresh one.
   */
  method GetProducts(db: Db, redis: RedisCache.Redis, q: ProductQuery, hash: string -> string)
    returns (r: Schemas.Payload)
    modifies redis
    ensures var key := Key(q, hash);
      if key in old(redis.entries) then
        r == old(redis.entries[key].value) && redis.entries == old(redis.entries)
      else
        r == Respond(db.products, q)
        && redis.entries == old(redis.entries)[key := RedisCache.Entry(r, RedisCache.ListTtl)]
    ensures CacheKey.CollisionFree(hash) && Coherent(old(redis.entries), db, hash) ==>
      r == Respond(db.products, q) && Coherent(redis.entries, db, hash)
  {
    var key := Key(q, hash);
    var cached := redis.GetCached(key);
    if cached.Some? {
      return cached.value;
    }
    var query := Filtered(db.products, q);
    query := Ordered(query, q);
    var total := |query|;
    var products := Paginate(query, q.skip, q.limit);
    r := Schemas.ProductList(SerializeAll(products), total);
    if CacheKey.CollisionFree(hash) && Coherent(redis.entries, db, hash) {
      StoreKeepsCoherent(redis.entries, db, hash, q);
    }
    redis.SetCached(key, r, RedisCache.ListTtl);
  }

  /** The cache key as written: the prefix and the hash of the dash-joined parameters. */
  function AsWrittenKey(q: ProductQuery, hash: string -> string): (r: string)
    ensures Prefix <= r && r[|Prefix|..] == hash(AsWrittenQueryKey(q))
  {
    CacheKey.AsWrittenCacheKey(Prefix, hash, QueryFields(q))
  }

  /** The handler as written, keyed by `AsWrittenKey`: the same lookup, pipeline and store. */
  method AsWrittenGetProducts(db: Db, redis: RedisCache.Redis, q: ProductQuery, hash: string -> string)
    returns (r: Schemas.Payload)
    modifies redis
    ensures var key := AsWrittenKey(q, hash);
      if key in old(redis.entries) then
        r == old(redis.entries[key].value) && redis.entries == old(redis.entries)
      else
        r == Respond(db.products, q)
        && redis.entries == old(redis.entries)[key := RedisCache.Entry(r, RedisCache.ListTtl)]
  {
    var key := AsWrittenKey(q, hash);
    var cached := redis.GetCached(key);
    if cached.Some? {
      return cached.value;
    }
    var query := Filtered(db.products, q);
    query := Ordered(query, q);
    var total := |query|;
    var products := Paginate(query, q.skip, q.limit);
    r := Schemas.ProductList(SerializeAll(products), total);
    redis.SetCached(key, r, RedisCache.ListTtl);
  }

  /**
   * With the key as written, the request for category "x-y" and search "z"
   * finds the entry the request for "x" and "y-z" stored, and answers its
   * total of 1 where the table holds no match.
   */
  lemma AsWrittenAnswersOtherQuery(hash: string -> string)
    ensures var q1 := ProductQuery(0, 10, Some("x"), Some("y-z"), "id", "asc");
            var q2 := ProductQuery(0, 10, Some("x-y"), Some("z"), "id", "asc");
            var rows := [ProductRow(1, "y-z", None, 1.0, Some("x"))];
            var stored := map[AsWrittenKey(q1, hash) := RedisCache.Entry(Respond(rows, q1), RedisCache.ListTtl)];
            AsWrittenKey(q2, hash) in stored
            && stored[AsWrittenKey(q2, hash)].value.total == 1
            && Respond(rows, q2).total == 0
  {
    AsWrittenKeyCollides();
  }

  // ---- the key as written ----

  /**
   * With the dash-joined key, category "x" with search "y-z" and category
   * "x-y" with search "z" share one cache entry, though they answer
   * different totals on a table holding one product "y-z" in category "x".
   */
  lemma AsWrittenKeyCollides()
    ensures var q1 := ProductQuery(0, 10, Some("x"), Some("y-z"), "id", "asc");
            var q2 := ProductQuery(0, 10, Some("x-y"), Some("z"), "id", "asc");
            var rows := [ProductRow(1, "y-z", None, 1.0, Some("x"))];
            q1 != q2 && AsWrittenQueryKey(q1) == AsWrittenQueryKey(q2)
            && Respond(rows, q1).total == 1 && Respond(rows, q2).total == 0
  {
    var q1 := ProductQuery(0, 10, Some("x"), Some("y-z"), "id", "asc");
    var q2 := ProductQuery(0, 10, Some("x-y"), Some("z"), "id", "asc");
    var rows := [ProductRow(1, "y-z", None, 1.0, Some("x"))];
    CollidingKeys(q1, q2);
    OneRowTotals(rows, q1, q2);
  }

  lemma OneRowTotals(rows: seq<ProductRow>, q1: ProductQuery, q2: ProductQuery)
    requires rows == [ProductRow(1, "y-z", None, 1.0, Some("x"))]
    requires q1 == ProductQuery(0, 10, Some("x"), Some("y-z"), "id", "asc")
    requires q2 == ProductQuery(0, 10, Some("x-y"), Some("z"), "id", "asc")
    ensures Respond(rows, q1).total == 1 && Respond(rows, q2).total == 0
  {
    assert Lower("x") == "x" && Lower("y-z") == "y-z" && Lower("x-y") == "x-y";
    assert Matches(q1, rows[0]);
    assert !Matches(q2, rows[0]);
    assert rows[1..] == [];
    assert Filter(rows, MatchesQuery(q1)) == [rows[0]];
    assert Filter(rows, MatchesQuery(q2)) == [];
    TotalCountsMatches(rows, q1);
    TotalCountsMatches(rows, q2);
  }

  lemma CollidingKeys(q1: ProductQuery, q2: ProductQuery)
    requires q1 == ProductQuery(0, 10, Some("x"), Some("y-z"), "id", "asc")
    requires q2 == ProductQuery(0, 10, Some("x-y"), Some("z"), "id", "asc")
    ensures AsWrittenQueryKey(q1) == AsWrittenQueryKey(q2)
  {
    assert CacheKey.Decimal(0) == "0";
    assert CacheKey.Decimal(10) == "10";
    var tail := ["id", "asc", "0", "10"];
    assert CacheKey.RenderAll(QueryFields(q1)) == ["x", "y-z"] + tail by {
      assert CacheKey.RenderAll(QueryFields(q1)) == ["x", "y-z", "id", "asc", "0", "10"];
    }
    assert CacheKey.RenderAll(QueryFields(q2)) == ["x-y", "z"] + tail by {
      assert CacheKey.RenderAll(QueryFields(q2)) == ["x-y", "z", "id", "asc", "0", "10"];
    }
    assert "y-z" == "y" + "-" + "z" && "x-y" == "x" + "-" + "y";
    CacheKey.JoinDashRegroup("x", "y", "z", tail);
  }
}
