/** The cart record (models/Cart.js). The store keeps carts in a map keyed
    by buyer, which is the schema's "one cart per buyer" unique index. */
module CartModel {
  import opened Common

  /** A cart line; the schema requires a product id and a quantity of at
      least 1 (default 1). */
  datatype CartItem = CartItem(productId: ProductId, quantity: int)

  /** The quantity a request asks for when it gives none. */
  const DefaultQuantity: int := 1

  /** The schema's validator on every line: quantity at least 1. */
  predicate ValidLines(items: seq<CartItem>)
  {
    forall i :: 0 <= i < |items| ==> items[i].quantity >= 1
  }

  /** No product appears on two lines. */
  predicate DistinctProducts(items: seq<CartItem>)
  {
    forall i, j :: 0 <= i < j < |items| ==> items[i].productId != items[j].productId
  }

  predicate ValidCart(items: seq<CartItem>)
  {
    ValidLines(items) && DistinctProducts(items)
  }

  /** A valid cart stays valid with a line of a product it does not
      hold appended. */
  lemma AppendKeepsValid(items: seq<CartItem>, x: CartItem)
    requires ValidCart(items) && x.quantity >= 1
    requires forall y :: y in items ==> y.productId != x.productId
    ensures ValidCart(items + [x])
  {
    var r := items + [x];
    forall i, j | 0 <= i < j < |r| ensures r[i].productId != r[j].productId {
      if j == |r| - 1 {
        assert r[i] in items;
      }
    }
  }

  /** The lines before the last of a valid cart form a valid cart, none of
      them with the last line's product. */
  lemma ValidPrefix(items: seq<CartItem>)
    requires ValidCart(items) && |items| > 0
    ensures ValidCart(items[..|items| - 1]) && items[|items| - 1].quantity >= 1
    ensures forall y :: y in items[..|items| - 1] ==> y.productId != items[|items| - 1].productId
  {
    var init := items[..|items| - 1];
    forall y | y in init ensures y.productId != items[|items| - 1].productId {
      var m :| 0 <= m < |init| && init[m] == y;
      assert items[m] == y;
    }
  }

  /** Every cart in the store satisfies the line invariants. */
  predicate ValidCarts(carts: map<UserId, seq<CartItem>>)
  {
    forall b :: b in carts ==> ValidCart(carts[b])
  }

  /** `items.findIndex(item => item.productId === id)`. */
  function FindLine(items: seq<CartItem>, id: ProductId): (r: int)
    ensures -1 <= r < |items|
    ensures r == -1 <==> forall i :: 0 <= i < |items| ==> items[i].productId != id
    ensures r >= 0 ==> items[r].productId == id && forall i :: 0 <= i < r ==> items[i].productId != id
  {
    var ids := seq(|items|, i requires 0 <= i < |items| => items[i].productId);
    assert forall i :: 0 <= i < |items| ==> ids[i] == items[i].productId;
    FirstIndexOf(ids, id)
  }

}
