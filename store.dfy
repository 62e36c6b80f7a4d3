/** The database: one collection per record kind, each a map from object id
    to record. Handlers read a record, check their guards and write back the
    changed record only on their success path. */
module Db {
  import opened Common
  import opened ProductModel
  import opened UserModel
  import opened CartModel
  import opened OrderModel
  import opened CategoryModel

  class Store {
    var products: map<ProductId, Product>
    var carts: map<UserId, seq<CartItem>>
    var orders: map<OrderId, Order>
    var users: map<UserId, User>
    var categories: map<CategoryId, Category>

    constructor ()
      ensures products == map[] && carts == map[] && orders == map[]
      ensures users == map[] && categories == map[]
    {
      products, carts, orders, users, categories := map[], map[], map[], map[], map[];
    }
  }
}
