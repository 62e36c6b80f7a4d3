/** The buyer's cart handlers (controllers/cartController.js). */
module CartController {
  import opened Common
  import opened ProductModel
  import opened CartModel
  import opened Db

  /** The cart a buyer has, or the empty cart that is created on demand. */
  function CartOf(carts: map<UserId, seq<CartItem>>, buyer: UserId): seq<CartItem>
  {
    if buyer in carts then carts[buyer] else []
  }

  /** `const { quantity = 1 } = req.body`. */
  function RequestedQuantity(quantity: Option<int>): int
  {
    if quantity.Some? then quantity.value else DefaultQuantity
  }

  /** The quantity the product's line would hold after adding `q`. */
  function MergedQuantity(items: seq<CartItem>, id: ProductId, q: int): int
  {
    var k := FindLine(items, id);
    if k >= 0 then items[k].quantity + q else q
  }

  /** Adding `q` of a product: an existing line for it has `q` added to its
      quantity; otherwise one line is appended at the end. */
  function MergeLine(items: seq<CartItem>, id: ProductId, q: int): (r: seq<CartItem>)
    ensures FindLine(items, id) >= 0 ==>
      |r| == |items| && r[FindLine(items, id)] == CartItem(id, items[FindLine(items, id)].quantity + q)
      && forall j :: 0 <= j < |items| && j != FindLine(items, id) ==> r[j] == items[j]
    ensures FindLine(items, id) == -1 ==> r == items + [CartItem(id, q)]
    ensures exists j :: 0 <= j < |r| && r[j] == CartItem(id, MergedQuantity(items, id, q))
    ensures DistinctProducts(items) ==> DistinctProducts(r)
    ensures ValidLines(items) && MergedQuantity(items, id, q) >= 1 ==> ValidLines(r)
  {
    var k := FindLine(items, id);
    if k >= 0 then items[k := CartItem(id, items[k].quantity + q)]
    else
      var r := items + [CartItem(id, q)];
      assert r[|items|] == CartItem(id, q);
      r
  }

  /** `items.splice(k, 1)`: the line at `k` goes, the others keep their
      relative order. */
  function RemoveAt(items: seq<CartItem>, k: nat): (r: seq<CartItem>)
    requires k < |items|
    ensures |r| == |items| - 1
    ensures forall j :: 0 <= j < k ==> r[j] == items[j]
    ensures forall j :: k <= j < |r| ==> r[j] == items[j + 1]
    ensures ValidCart(items) ==> ValidCart(r) && forall j :: 0 <= j < |r| ==> r[j].productId != items[k].productId
  {
    items[..k] + items[k + 1..]
  }

  /** `cart.items.filter(item => item.productId !== null)` after a populate
      that matches only active products: the lines whose product is active. */
  function ActiveLines(items: seq<CartItem>, products: map<ProductId, Product>): (r: seq<CartItem>)
    ensures |r| <= |items|
  {
    if |items| == 0 then []
    else
      var init := ActiveLines(items[..|items| - 1], products);
      var last := items[|items| - 1];
      if IsActive(products, last.productId) then init + [last] else init
  }

  /** The kept lines of a cart with one more line. */
  lemma ActiveLinesAppend(xs: seq<CartItem>, x: CartItem, products: map<ProductId, Product>)
    ensures ActiveLines(xs + [x], products) == ActiveLines(xs, products) + (if IsActive(products, x.productId) then [x] else [])
  {
    assert (xs + [x])[..|xs|] == xs;
  }

  /** The kept lines are exactly the lines whose product is active. */
  lemma {:induction false} ActiveLinesMembers(items: seq<CartItem>, products: map<ProductId, Product>)
    ensures forall x :: x in ActiveLines(items, products) <==> x in items && IsActive(products, x.productId)
  {
    if |items| > 0 {
      var init, last := items[..|items| - 1], items[|items| - 1];
      assert items == init + [last];
      ActiveLinesMembers(init, products);
      ActiveLinesAppend(init, last, products);
    }
  }

  /** Filtering a valid cart leaves a valid cart. */
  lemma {:induction false} ActiveLinesValid(items: seq<CartItem>, products: map<ProductId, Product>)
    requires ValidCart(items)
    ensures ValidCart(ActiveLines(items, products))
  {
    if |items| > 0 {
      var init, last := items[..|items| - 1], items[|items| - 1];
      ValidPrefix(items);
      ActiveLinesValid(init, products);
      ActiveLinesMembers(init, products);
      if IsActive(products, last.productId) {
        AppendKeepsValid(ActiveLines(init, products), last);
      }
    }
  }

  /** getCart's filter works line by line and keeps the cart's order:
      filtering a cart made of two parts is filtering each part, one after
      the other. */
  lemma {:induction false} ActiveLinesConcat(a: seq<CartItem>, b: seq<CartItem>, products: map<ProductId, Product>)
    ensures ActiveLines(a + b, products) == ActiveLines(a, products) + ActiveLines(b, products)
    decreases |b|
  {
    if |b| == 0 {
      assert a + b == a;
    } else {
      var binit, last := b[..|b| - 1], b[|b| - 1];
      var tail := if IsActive(products, last.productId) then [last] else [];
      assert a + b == (a + binit) + [last];
      assert b == binit + [last];
      ActiveLinesAppend(a + binit, last, products);
      ActiveLinesAppend(binit, last, products);
      ActiveLinesConcat(a, binit, products);
      var front, rest := ActiveLines(a, products), ActiveLines(binit, products);
      assert (front + rest) + tail == front + (rest + tail);
    }
  }

  /** Σ price × quantity over lines whose product is known. */
  function CartTotal(items: seq<CartItem>, products: map<ProductId, Product>): int
    requires forall i :: 0 <= i < |items| ==> items[i].productId in products
  {
    if |items| == 0 then 0
    else
      var last := items[|items| - 1];
      CartTotal(items[..|items| - 1], products) + products[last.productId].price * last.quantity
  }

  /** Adding a product: 404 when it is missing or not active, 400 when the
      asked quantity or the merged quantity exceeds its stock, 500 when the
      saved cart would fail the schema's quantity validator; otherwise the
      merged cart is saved. A failed add leaves the carts, including a cart
      that did not exist, unchanged. */
  method AddToCart(db: Store, buyer: UserId, productId: ProductId, quantity: Option<int>) returns (status: Status)
    modifies db`carts
    ensures var q := RequestedQuantity(quantity);
      var items := CartOf(old(db.carts), buyer);
      && (!IsActive(db.products, productId) ==> status == NotFound)
      && (IsActive(db.products, productId) && db.products[productId].stock < q ==> status == BadRequest)
      && ((IsActive(db.products, productId) && q <= db.products[productId].stock
           && MergedQuantity(items, productId, q) > db.products[productId].stock) ==> status == BadRequest)
      && (status == Ok <==>
            IsActive(db.products, productId) && q <= db.products[productId].stock
            && MergedQuantity(items, productId, q) <= db.products[productId].stock
            && ValidLines(MergeLine(items, productId, q)))
      && (status == Ok ==> db.carts == old(db.carts)[buyer := MergeLine(items, productId, q)])
      && (status != Ok ==> db.carts == old(db.carts))
      && (status in {Ok, NotFound, BadRequest, ServerError})
    ensures ValidCarts(old(db.carts)) && status == Ok ==> ValidCarts(db.carts)
  {
    var q := RequestedQuantity(quantity);
    if !(productId in db.products && db.products[productId].status == ProductStatus.Active) {
      return NotFound;
    }
    var product := db.products[productId];
    if product.stock < q {
      return BadRequest;
    }
    var items := if buyer in db.carts then db.carts[buyer] else [];
    var itemIndex := FindLine(items, productId);
    if itemIndex > -1 {
      var newQuantity := items[itemIndex].quantity + q;
      if newQuantity > product.stock {
        return BadRequest;
      }
      items := items[itemIndex := CartItem(productId, newQuantity)];
    } else {
      items := items + [CartItem(productId, q)];
    }
    // cart.save(): the schema validator runs on every line.
    if !(forall i :: 0 <= i < |items| ==> items[i].quantity >= 1) {
      return ServerError;
    }
    db.carts := db.carts[buyer := items];
    status := Ok;
  }

  /** Removing a product's line: 404 without a cart or without such a line;
      otherwise exactly that line goes. */
  method RemoveFromCart(db: Store, buyer: UserId, productId: ProductId) returns (status: Status)
    modifies db`carts
    ensures status == Ok <==> buyer in old(db.carts) && FindLine(old(db.carts)[buyer], productId) >= 0
    ensures status != Ok ==> status == NotFound && db.carts == old(db.carts)
    ensures status == Ok ==>
      db.carts == old(db.carts)[buyer := RemoveAt(old(db.carts)[buyer], FindLine(old(db.carts)[buyer], productId))]
    ensures ValidCarts(old(db.carts)) ==> ValidCarts(db.carts)
  {
    if buyer !in db.carts {
      return NotFound;
    }
    var items := db.carts[buyer];
    var itemIndex := FindLine(items, productId);
    if itemIndex == -1 {
      return NotFound;
    }
    db.carts := db.carts[buyer := items[..itemIndex] + items[itemIndex + 1..]];
    status := Ok;
  }

  /** Viewing the cart: without a cart the answer is empty with total 0 and
      nothing is created; otherwise lines whose product is no longer active
      are dropped, and that filtered cart is saved. */
  method GetCart(db: Store, buyer: UserId) returns (status: Status, items: seq<CartItem>, total: int)
    modifies db`carts
    ensures status == Ok
    ensures buyer !in old(db.carts) ==> items == [] && total == 0 && db.carts == old(db.carts)
    ensures buyer in old(db.carts) ==>
      && items == ActiveLines(old(db.carts)[buyer], db.products)
      && db.carts == old(db.carts)[buyer := items]
    ensures forall i :: 0 <= i < |items| ==> items[i].productId in db.products && IsActive(db.products, items[i].productId)
    ensures total == CartTotal(items, db.products)
    ensures ValidCarts(old(db.carts)) ==> ValidCarts(db.carts)
  {
    if buyer !in db.carts {
      return Ok, [], 0;
    }
    items := ActiveLines(db.carts[buyer], db.products);
    ActiveLinesMembers(db.carts[buyer], db.products);
    if ValidCart(db.carts[buyer]) {
      ActiveLinesValid(db.carts[buyer], db.products);
    }
    assert forall i :: 0 <= i < |items| ==> items[i] in items;
    total := CartTotal(items, db.products);
    db.carts := db.carts[buyer := items];
    status := Ok;
  }

  /** Clearing the cart: 404 without a cart, otherwise the item list becomes
      empty. */
  method ClearCart(db: Store, buyer: UserId) returns (status: Status)
    modifies db`carts
    ensures status == Ok <==> buyer in old(db.carts)
    ensures status != Ok ==> status == NotFound && db.carts == old(db.carts)
    ensures status == Ok ==> db.carts == old(db.carts)[buyer := []]
    ensures ValidCarts(old(db.carts)) ==> ValidCarts(db.carts)
  {
    if buyer !in db.carts {
      return NotFound;
    }
    db.carts := db.carts[buyer := []];
    status := Ok;
  }
}
