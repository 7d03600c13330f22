/**
 * The three list handlers share one Redis client. Each keeps its own
 * entries coherent, and its stores land under its own prefix, so a store
 * by one handler never disturbs what the other two have cached.
 */
module SharedCache {
  import Models
  import CacheKey
  import RedisCache
  import ProductsApi
  import UsersApi
  import OrdersApi

  ghost predicate Coherent(entries: map<string, RedisCache.Entry>, db: Models.Db, hash: string -> string) {
    ProductsApi.Coherent(entries, db, hash) && UsersApi.Coherent(entries, db, hash) && OrdersApi.Coherent(entries, db, hash)
  }

  /** A products miss keeps the whole cache coherent. */
  lemma ProductsStoreKeepsCoherent(entries: map<string, RedisCache.Entry>, db: Models.Db, hash: string -> string,
                                   q: ProductsApi.ProductQuery)
    requires CacheKey.CollisionFree(hash) && Coherent(entries, db, hash)
    ensures Coherent(entries[ProductsApi.Key(q, hash) := RedisCache.Entry(ProductsApi.Respond(db.products, q), RedisCache.ListTtl)], db, hash)
  {
    var key := ProductsApi.Key(q, hash);
    var e := RedisCache.Entry(ProductsApi.Respond(db.products, q), RedisCache.ListTtl);
    assert key[0] == 'p';
    ProductsApi.StoreKeepsCoherent(entries, db, hash, q);
    UsersApi.ForeignStoreKeepsCoherent(entries, db, hash, key, e);
    OrdersApi.ForeignStoreKeepsCoherent(entries, db, hash, key, e);
  }

  /** A users miss keeps the whole cache coherent. */
  lemma UsersStoreKeepsCoherent(entries: map<string, RedisCache.Entry>, db: Models.Db, hash: string -> string,
                                q: UsersApi.UserQuery)
    requires CacheKey.CollisionFree(hash) && Coherent(entries, db, hash)
    ensures Coherent(entries[UsersApi.Key(q, hash) := RedisCache.Entry(UsersApi.Respond(db.users, q), RedisCache.ListTtl)], db, hash)
  {
    var key := UsersApi.Key(q, hash);
    var e := RedisCache.Entry(UsersApi.Respond(db.users, q), RedisCache.ListTtl);
    assert key[0] == 'u';
    UsersApi.StoreKeepsCoherent(entries, db, hash, q);
    ProductsApi.ForeignStoreKeepsCoherent(entries, db, hash, key, e);
    OrdersApi.ForeignStoreKeepsCoherent(entries, db, hash, key, e);
  }

  /** An orders miss that parsed its dates keeps the whole cache coherent. */
  lemma OrdersStoreKeepsCoherent(entries: map<string, RedisCache.Entry>, db: Models.Db, hash: string -> string,
                                 q: OrdersApi.OrderQuery)
    requires CacheKey.CollisionFree(hash) && Coherent(entries, db, hash)
    requires OrdersApi.Respond(db, q).Success?
    ensures Coherent(entries[OrdersApi.Key(q, hash) := RedisCache.Entry(OrdersApi.Respond(db, q).value, RedisCache.ListTtl)], db, hash)
  {
    var key := OrdersApi.Key(q, hash);
    var e := RedisCache.Entry(OrdersApi.Respond(db, q).value, RedisCache.ListTtl);
    assert key[0] == 'o';
    OrdersApi.StoreKeepsCoherent(entries, db, hash, q);
    ProductsApi.ForeignStoreKeepsCoherent(entries, db, hash, key, e);
    UsersApi.ForeignStoreKeepsCoherent(entries, db, hash, key, e);
  }
}
