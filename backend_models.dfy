/**
 * The database tables the list handlers read, one row type per table.
 * Prices are exact numbers here; the float columns are not modelled.
 */
module Models {
  import opened Wrappers
  import opened Dates

  datatype ProductRow = ProductRow(id: int, name: string, description: Option<string>, price: real, category: Option<string>)

  datatype UserRow = UserRow(id: int, name: string, email: string)

  datatype OrderRow = OrderRow(id: int, userId: int, createdAt: Timestamp)

  datatype TransactionRow = TransactionRow(id: int, orderId: int, productId: int, quantity: int, totalPrice: real)

  /** The tables, each in its storage order. */
  datatype Db = Db(products: seq<ProductRow>, users: seq<UserRow>, orders: seq<OrderRow>,
                   transactions: seq<TransactionRow>)

  /** `order.user`: the user whose id is the order's user_id, if any. */
  function UserOf(users: seq<UserRow>, userId: int): (r: Option<UserRow>)
    ensures r.Some? ==> r.value in users && r.value.id == userId
    ensures r.None? ==> forall u :: u in users ==> u.id != userId
  {
    if users == [] then None
    else if users[0].id == userId then Some(users[0])
    else UserOf(users[1..], userId)
  }

  /** `tx.product`: the product whose id is the transaction's product_id, if any. */
  function ProductOf(products: seq<ProductRow>, productId: int): (r: Option<ProductRow>)
    ensures r.Some? ==> r.value in products && r.value.id == productId
    ensures r.None? ==> forall p :: p in products ==> p.id != productId
  {
    if products == [] then None
    else if products[0].id == productId then Some(products[0])
    else ProductOf(products[1..], productId)
  }
}

/**
 * The records the handlers serialise, the list responses and the JSON
 * payloads stored in the cache.
 */
module Schemas {
  import opened Wrappers
  import Dates

  datatype Product = Product(id: int, name: string, description: Option<string>, price: real, category: Option<string>)

  datatype User = User(id: int, name: string, email: string)

  /** A listed order; `createdAt` stands for its `isoformat()` text. */
  datatype Order = Order(id: int, userId: int, username: Option<string>, createdAt: Dates.Timestamp)

  /** What one list endpoint answers: a page of items and the total before paging. */
  datatype Payload =
    | ProductList(products: seq<Product>, total: nat)
    | UserList(users: seq<User>, total: nat)
    | OrderList(orders: seq<Order>, total: nat)
}
