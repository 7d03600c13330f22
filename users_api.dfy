/**
 * `GET /users/`: cache lookup, `ilike` filters on name and email,
 * ordering on a whitelisted column, the total counted before paging,
 * `offset`/`limit`, serialisation, and a cache store with a 60-second ttl.
 */
module UsersApi {
  import opened Wrappers
  import opened Query
  import opened Models
  import Schemas
  import CacheKey
  import RedisCache

  /** The endpoint's query parameters (negative `skip`/`limit` are not modelled). */
  datatype UserQuery = UserQuery(skip: nat, limit: nat, search: Option<string>, email: Option<string>,
                                 sortBy: string, sortOrder: string)

  const Prefix: string := "users:"

  /** The parameters in the order the cache key lists them, numbers as their decimal text. */
  function QueryFields(q: UserQuery): seq<Option<string>> {
    [q.email, q.search, Some(q.sortBy), Some(q.sortOrder), Some(CacheKey.Decimal(q.skip)), Some(CacheKey.Decimal(q.limit))]
  }

  lemma QueryFieldsInjective(q1: UserQuery, q2: UserQuery)
    requires QueryFields(q1) == QueryFields(q2)
    ensures q1 == q2
  {
    assert QueryFields(q1)[4] == QueryFields(q2)[4];
    assert QueryFields(q1)[5] == QueryFields(q2)[5];
    CacheKey.DecimalInjective(q1.skip, q2.skip);
    CacheKey.DecimalInjective(q1.limit, q2.limit);
  }

  /** The query key as the handler writes it: the parameters joined by dashes. */
  function AsWrittenQueryKey(q: UserQuery): string {
    CacheKey.AsWrittenQueryKey(QueryFields(q))
  }

  /** The cache key the handler uses: an unambiguous encoding of the parameters, hashed. */
  function Key(q: UserQuery, hash: string -> string): (r: string)
    ensures Prefix <= r
  {
    CacheKey.CacheKeyOf(Prefix, hash, CacheKey.EncodeFields(QueryFields(q)))
  }

  /** Different queries get different cache keys. */
  lemma KeyInjective(q1: UserQuery, q2: UserQuery, hash: string -> string)
    requires CacheKey.CollisionFree(hash)
    requires Key(q1, hash) == Key(q2, hash)
    ensures q1 == q2
  {
    CacheKey.EncodedKeyInjective(Prefix, hash, QueryFields(q1), QueryFields(q2));
    QueryFieldsInjective(q1, q2);
  }

  // ---- the query pipeline ----

  /** A row passes every filter the query gives (an empty parameter gives none). */
  predicate Matches(q: UserQuery, u: UserRow) {
    (Given(q.search) ==> ILike(u.name, q.search.value))
    && (Given(q.email) ==> ILike(u.email, q.email.value))
  }

  function MatchesQuery(q: UserQuery): UserRow -> bool {
    u => Matches(q, u)
  }

  /** `User.name.ilike(f"%{search}%")` */
  function NameFilter(search: string): UserRow -> bool {
    (u: UserRow) => ILike(u.name, search)
  }

  /** `User.email.ilike(f"%{email}%")` */
  function EmailFilter(email: string): UserRow -> bool {
    (u: UserRow) => ILike(u.email, email)
  }

  /** The name filter, then the email filter, each only when its parameter is given. */
  function Filtered(rows: seq<UserRow>, q: UserQuery): seq<UserRow> {
    var byName := if Given(q.search) then Filter(rows, NameFilter(q.search.value)) else rows;
    if Given(q.email) then Filter(byName, EmailFilter(q.email.value)) else byName
  }

  /** The chained filters keep exactly the matching rows, in table order. */
  lemma FilteredIsMatching(rows: seq<UserRow>, q: UserQuery)
    ensures Filtered(rows, q) == Filter(rows, MatchesQuery(q))
  {
    if Given(q.search) && Given(q.email) {
      FilterTwice(rows, NameFilter(q.search.value), EmailFilter(q.email.value), MatchesQuery(q));
    } else if Given(q.search) {
      FilterCongruent(rows, NameFilter(q.search.value), MatchesQuery(q));
    } else if Given(q.email) {
      FilterCongruent(rows, EmailFilter(q.email.value), MatchesQuery(q));
    } else {
      FilterAll(rows, MatchesQuery(q));
    }
  }

  /** A row is listed among the matches exactly when it is in the table and passes the filters. */
  lemma FilteredMembers(rows: seq<UserRow>, q: UserQuery)
    ensures SubsequenceOf(Filtered(rows, q), rows)
    ensures forall u :: u in Filtered(rows, q) <==> u in rows && Matches(q, u)
  {
    var matches := MatchesQuery(q);
    FilteredIsMatching(rows, q);
    FilterIsSubsequence(rows, matches);
    var r := Filter(rows, matches);
    forall u | u in r ensures u in rows && Matches(q, u) {
      assert u in multiset(r);
      var i :| 0 <= i < |r| && r[i] == u;
      assert matches(r[i]);
    }
  }

  /** The columns the handler lets a caller order by. */
  const SortColumns: seq<string> := ["name", "email", "id"]

  function SortKey(column: string): UserRow -> Key {
    if column == "name" then (u: UserRow) => StrKey(u.name)
    else if column == "email" then (u: UserRow) => StrKey(u.email)
    else (u: UserRow) => IntKey(u.id)
  }

  /** Ordered on a whitelisted column, descending only for "desc"; any other column leaves table order. */
  function Ordered(rows: seq<UserRow>, q: UserQuery): seq<UserRow> {
    OrderBy(rows, q.sortBy, SortColumns, SortKey(q.sortBy), q.sortOrder == "desc")
  }

  lemma OrderedIsSortedPermutation(rows: seq<UserRow>, q: UserQuery)
    ensures multiset(Ordered(rows, q)) == multiset(rows)
    ensures q.sortBy in SortColumns ==> SortedBy(Ordered(rows, q), SortKey(q.sortBy), q.sortOrder == "desc")
    ensures q.sortBy !in SortColumns ==> Ordered(rows, q) == rows
  {
    OrderByIsSortedPermutation(rows, q.sortBy, SortColumns, SortKey(q.sortBy), q.sortOrder == "desc");
  }

  function Serialize(u: UserRow): Schemas.User {
    Schemas.User(u.id, u.name, u.email)
  }

  /** The list comprehension over the page. */
  function SerializeAll(page: seq<UserRow>): (r: seq<Schemas.User>)
    ensures |r| == |page| && forall i :: 0 <= i < |page| ==> r[i] == Serialize(page[i])
  {
    seq(|page|, i requires 0 <= i < |page| => Serialize(page[i]))
  }

  /** What a cache miss answers: one page of the ordered matches and the number of matches. */
  function Respond(rows: seq<UserRow>, q: UserQuery): (r: Schemas.Payload)
    ensures r.UserList?
  {
    var ordered := Ordered(Filtered(rows, q), q);
    Schemas.UserList(SerializeAll(Paginate(ordered, q.skip, q.limit)), |ordered|)
  }

  /** The total counts every matching row, whatever the page. */
  lemma TotalCountsMatches(rows: seq<UserRow>, q: UserQuery)
    ensures Respond(rows, q).total == |Filter(rows, MatchesQuery(q))|
  {
    FilteredIsMatching(rows, q);
    OrderedIsSortedPermutation(Filtered(rows, q), q);
  }

  /** The item serialises a user of the table that matches the query. */
  ghost predicate ListsMatch(rows: seq<UserRow>, q: UserQuery, item: Schemas.User) {
    exists u :: u in rows && Matches(q, u) && item == Serialize(u)
  }

  /**
   * The page holds at most `limit` items, from position `skip` on, each a
   * matching row with its fields carried over.
   */
  lemma PageListsMatches(rows: seq<UserRow>, q: UserQuery)
    ensures var n := Respond(rows, q).total;
      |Respond(rows, q).users| == if q.skip >= n then 0 else Min(q.limit, n - q.skip)
    ensures forall i :: 0 <= i < |Respond(rows, q).users| ==> ListsMatch(rows, q, Respond(rows, q).users[i])
  {
    FilteredMembers(rows, q);
    var filtered := Filtered(rows, q);
    var ordered := Ordered(filtered, q);
    OrderedIsSortedPermutation(filtered, q);
    var page := Paginate(ordered, q.skip, q.limit);
    PageRowsFrom(ordered, filtered, q.skip, q.limit);
    assert Respond(rows, q) == Schemas.UserList(SerializeAll(page), |ordered|);
    forall i | 0 <= i < |Respond(rows, q).users|
      ensures ListsMatch(rows, q, Respond(rows, q).users[i])
    {
      var u := page[i];
      assert u in page;
      assert u in rows && Matches(q, u) && Respond(rows, q).users[i] == Serialize(u);
    }
  }


  /** Two queries that differ at most in the page position and size. */
  predicate SameListing(q: UserQuery, q2: UserQuery) {
    q.search == q2.search && q.email == q2.email && q.sortBy == q2.sortBy && q.sortOrder == q2.sortOrder
  }

  /** Filtering and ordering depend on neither the page position nor its size. */
  lemma PagingKeepsMatches(rows: seq<UserRow>, q: UserQuery, q2: UserQuery)
    requires SameListing(q, q2)
    ensures Ordered(Filtered(rows, q2), q2) == Ordered(Filtered(rows, q), q)
    ensures Respond(rows, q2).users == SerializeAll(Paginate(Ordered(Filtered(rows, q), q), q2.skip, q2.limit))
  {
    assert Filtered(rows, q2) == Filtered(rows, q);
  }

  /** The page position and size do not change the total. */
  lemma TotalIgnoresPaging(rows: seq<UserRow>, q: UserQuery, skip: nat, limit: nat)
    ensures Respond(rows, q.(skip := skip, limit := limit)).total == Respond(rows, q).total
  {
    PagingKeepsMatches(rows, q, q.(skip := skip, limit := limit));
  }

  /**
   * Consecutive pages tile the listing: the page of `q1`, then the page of
   * `q2` that starts where it ends, list what the page of `q3` lists when
   * `q3` starts with `q1` and is as long as both.
   */
  lemma PagesTile(rows: seq<UserRow>, q1: UserQuery, q2: UserQuery, q3: UserQuery)
    requires SameListing(q1, q2) && SameListing(q1, q3)
    requires q2.skip == q1.skip + q1.limit && q3.skip == q1.skip && q3.limit == q1.limit + q2.limit
    ensures Respond(rows, q1).users + Respond(rows, q2).users == Respond(rows, q3).users
  {
    var ordered := Ordered(Filtered(rows, q1), q1);
    var left, right := Paginate(ordered, q1.skip, q1.limit), Paginate(ordered, q2.skip, q2.limit);
    PagingKeepsMatches(rows, q1, q2);
    PagingKeepsMatches(rows, q1, q3);
    PagingKeepsMatches(rows, q1, q1);
    PaginateSplit(ordered, q1.skip, q1.limit, q2.limit);
    SerializeAllAppend(left, right);
  }

  lemma SerializeAllAppend(left: seq<UserRow>, right: seq<UserRow>)
    ensures SerializeAll(left) + SerializeAll(right) == SerializeAll(left + right)
  {
    var whole := left + right;
    forall i | 0 <= i < |whole| ensures (SerializeAll(left) + SerializeAll(right))[i] == SerializeAll(whole)[i] {
      if i >= |left| {
        assert whole[i] == right[i - |left|];
      }
    }
  }

  // ---- the cache ----

  /** Every stored users entry is what a miss would answer for its query now. */
  ghost predicate Coherent(entries: map<string, RedisCache.Entry>, db: Db, hash: string -> string) {
    forall q :: Key(q, hash) in entries ==> entries[Key(q, hash)].value == Respond(db.users, q)
  }

  /** Storing a fresh answer under its own key keeps the cache coherent. */
  lemma StoreKeepsCoherent(entries: map<string, RedisCache.Entry>, db: Db, hash: string -> string, q: UserQuery)
    requires CacheKey.CollisionFree(hash)
    requires Coherent(entries, db, hash)
    ensures Coherent(entries[Key(q, hash) := RedisCache.Entry(Respond(db.users, q), RedisCache.ListTtl)], db, hash)
  {
    forall q2 | Key(q2, hash) == Key(q, hash) ensures q2 == q {
      KeyInjective(q2, q, hash);
    }
  }

  /** A store under a key outside the users prefix leaves the users entries coherent. */
  lemma ForeignStoreKeepsCoherent(entries: map<string, RedisCache.Entry>, db: Db, hash: string -> string,
                                  key: string, e: RedisCache.Entry)
    requires Coherent(entries, db, hash)
    requires !(Prefix <= key)
    ensures Coherent(entries[key := e], db, hash)
  {
  }

  /**
   * `get_users`: a hit answers the stored payload and changes nothing;
   * a miss runs the query, stores its answer for 60 seconds and answers it.
   * On a coherent cache the answer is always the fresh one.
   */
  method GetUsers(db: Db, redis: RedisCache.Redis, q: UserQuery, hash: string -> string)
    returns (r: Schemas.Payload)
    modifies redis
    ensures var key := Key(q, hash);
      if key in old(redis.entries) then
        r == old(redis.entries[key].value) && redis.entries == old(redis.entries)
      else
        r == Respond(db.users, q)
        && redis.entries == old(redis.entries)[key := RedisCache.Entry(r, RedisCache.ListTtl)]
    ensures CacheKey.CollisionFree(hash) && Coherent(old(redis.entries), db, hash) ==>
      r == Respond(db.users, q) && Coherent(redis.entries, db, hash)
  {
    var key := Key(q, hash);
    var cached := redis.GetCached(key);
    if cached.Some? {
      return cached.value;
    }
    var query := Filtered(db.users, q);
    query := Ordered(query, q);
    var total := |query|;
    var users := Paginate(query, q.skip, q.limit);
    r := Schemas.UserList(SerializeAll(users), total);
    if CacheKey.CollisionFree(hash) && Coherent(redis.entries, db, hash) {
      StoreKeepsCoherent(redis.entries, db, hash, q);
    }
    redis.SetCached(key, r, RedisCache.ListTtl);
  }

  /** The cache key as written: the prefix and the hash of the dash-joined parameters. */
  function AsWrittenKey(q: UserQuery, hash: string -> string): (r: string)
    ensures Prefix <= r && r[|Prefix|..] == hash(AsWrittenQueryKey(q))
  {
    CacheKey.AsWrittenCacheKey(Prefix, hash, QueryFields(q))
  }

  /** The handler as written, keyed by `AsWrittenKey`: the same lookup, pipeline and store. */
  method AsWrittenGetUsers(db: Db, redis: RedisCache.Redis, q: UserQuery, hash: string -> string)
    returns (r: Schemas.Payload)
    modifies redis
    ensures var key := AsWrittenKey(q, hash);
      if key in old(redis.entries) then
        r == old(redis.entries[key].value) && redis.entries == old(redis.entries)
      else
        r == Respond(db.users, q)
        && redis.entries == old(redis.entries)[key := RedisCache.Entry(r, RedisCache.ListTtl)]
  {
    var key := AsWrittenKey(q, hash);
    var cached := redis.GetCached(key);
    if cached.Some? {
      return cached.value;
    }
    var query := Filtered(db.users, q);
    query := Ordered(query, q);
    var total := |query|;
    var users := Paginate(query, q.skip, q.limit);
    r := Schemas.UserList(SerializeAll(users), total);
    redis.SetCached(key, r, RedisCache.ListTtl);
  }

  // ---- the key as written ----

  /** With the dash-joined key, email "a" with search "b-c" and email "a-b" with search "c" share one cache entry. */
  lemma AsWrittenKeyCollides()
    ensures var q1 := UserQuery(0, 10, Some("b-c"), Some("a"), "id", "asc");
            var q2 := UserQuery(0, 10, Some("c"), Some("a-b"), "id", "asc");
            q1 != q2 && AsWrittenQueryKey(q1) == AsWrittenQueryKey(q2)
  {
    var q1 := UserQuery(0, 10, Some("b-c"), Some("a"), "id", "asc");
    var q2 := UserQuery(0, 10, Some("c"), Some("a-b"), "id", "asc");
    assert CacheKey.Decimal(0) == "0";
    assert CacheKey.Decimal(10) == "10";
    var tail := ["id", "asc", "0", "10"];
    assert CacheKey.RenderAll(QueryFields(q1)) == ["a", "b-c"] + tail by {
      assert CacheKey.RenderAll(QueryFields(q1)) == ["a", "b-c", "id", "asc", "0", "10"];
    }
    assert CacheKey.RenderAll(QueryFields(q2)) == ["a-b", "c"] + tail by {
      assert CacheKey.RenderAll(QueryFields(q2)) == ["a-b", "c", "id", "asc", "0", "10"];
    }
    assert "b-c" == "b" + "-" + "c" && "a-b" == "a" + "-" + "b";
    CacheKey.JoinDashRegroup("a", "b", "c", tail);
  }

  lemma OneRowTotals(rows: seq<UserRow>, q1: UserQuery, q2: UserQuery)
    requires rows == [UserRow(1, "b-c", "a")]
    requires q1 == UserQuery(0, 10, Some("b-c"), Some("a"), "id", "asc")
    requires q2 == UserQuery(0, 10, Some("c"), Some("a-b"), "id", "asc")
    ensures Respond(rows, q1).total == 1 && Respond(rows, q2).total == 0
  {
    assert Lower("a") == "a" && Lower("b-c") == "b-c" && Lower("c") == "c" && Lower("a-b") == "a-b";
    assert Matches(q1, rows[0]);
    assert !Matches(q2, rows[0]);
    assert rows[1..] == [];
    assert Filter(rows, MatchesQuery(q1)) == [rows[0]];
    assert Filter(rows, MatchesQuery(q2)) == [];
    TotalCountsMatches(rows, q1);
    TotalCountsMatches(rows, q2);
  }

  /**
   * With the key as written, the request for email "a-b" and search "c"
   * finds the entry the request for email "a" and search "b-c" stored, and
   * answers its total of 1 where the table holds no match.
   */
  lemma AsWrittenAnswersOtherQuery(hash: string -> string)
    ensures var q1 := UserQuery(0, 10, Some("b-c"), Some("a"), "id", "asc");
            var q2 := UserQuery(0, 10, Some("c"), Some("a-b"), "id", "asc");
            var rows := [UserRow(1, "b-c", "a")];
            var stored := map[AsWrittenKey(q1, hash) := RedisCache.Entry(Respond(rows, q1), RedisCache.ListTtl)];
            AsWrittenKey(q2, hash) in stored
            && stored[AsWrittenKey(q2, hash)].value.total == 1
            && Respond(rows, q2).total == 0
  {
    var q1 := UserQuery(0, 10, Some("b-c"), Some("a"), "id", "asc");
    var q2 := UserQuery(0, 10, Some("c"), Some("a-b"), "id", "asc");
    AsWrittenKeyCollides();
    OneRowTotals([UserRow(1, "b-c", "a")], q1, q2);
  }
}
