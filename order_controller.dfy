/** The buyer's order handlers and the payment callback
    (controllers/orderController.js). */
module OrderController {
  import opened Common
  import opened ProductModel
  import opened UserModel
  import opened CartModel
  import opened OrderModel
  import opened Db
  import CartController

  // ---------------------------------------------------------------------
  // Shipping address handling at order creation
  // ---------------------------------------------------------------------

  /** The request's `shippingAddress`. `isDefault` is whatever the request
      sends (`None` when absent, which the schema stores as `false`). */
  datatype ShippingInput = ShippingInput(
    street: Option<string>,
    city: Option<string>,
    district: DistrictInput,
    country: Option<string>,
    postalCode: Option<string>,
    isDefault: Option<bool>)

  /** The address as the user's address list stores it: without district. */
  function SavedFrom(ship: ShippingInput, isDefault: bool): SavedAddress
  {
    SavedAddress(ship.street, ship.city, ship.country, ship.postalCode, isDefault)
  }

  /** The request pushed as sent: its `isDefault`, or the schema's `false`. */
  function AsSent(ship: ShippingInput): (a: SavedAddress)
    ensures a.isDefault <==> ship.isDefault == Some(true)
  {
    SavedFrom(ship, ship.isDefault == Some(true))
  }

  /** The five-field comparison of createOrder. A saved address has no
      district, so its district reads as undefined and matches only a
      request without a district. */
  predicate SameAddress(a: SavedAddress, ship: ShippingInput)
  {
    a.street == ship.street && a.city == ship.city && ship.district == Missing
    && a.country == ship.country && a.postalCode == ship.postalCode
  }

  /** The user's address list after createOrder's address step: the first
      address is forced to be the default (`{ ...shippingAddress, isDefault:
      true }`); a later new one is pushed as sent. */
  function MergeShippingAddress(addrs: seq<SavedAddress>, ship: ShippingInput): seq<SavedAddress>
  {
    if |addrs| == 0 then [SavedFrom(ship, true)]
    else if exists i :: 0 <= i < |addrs| && SameAddress(addrs[i], ship) then addrs
    else addrs + [AsSent(ship)]
  }

  /** The address step never removes or changes a saved address and adds at
      most one, which it appends exactly when no saved address equals the
      request. The first address becomes the default; a later one keeps
      the request's `isDefault`, so the number of defaults grows by one
      exactly when a new address arrives marked as default. */
  lemma MergeShippingAddressSpec(addrs: seq<SavedAddress>, ship: ShippingInput)
    ensures var r := MergeShippingAddress(addrs, ship);
      && |addrs| <= |r| <= |addrs| + 1
      && r[..|addrs|] == addrs
      && (|addrs| == 0 ==> r == [SavedFrom(ship, true)] && DefaultCount(r) == 1)
      && (|r| == |addrs| + 1 && |addrs| > 0 ==> r[|addrs|] == AsSent(ship))
      && (|addrs| > 0 ==> (r == addrs <==> exists i :: 0 <= i < |addrs| && SameAddress(addrs[i], ship)))
      && (|addrs| > 0 ==>
           DefaultCount(r) == DefaultCount(addrs) + (if |r| > |addrs| && ship.isDefault == Some(true) then 1 else 0))
  {
    var r := MergeShippingAddress(addrs, ship);
    if |addrs| == 0 {
      assert r == [] + [SavedFrom(ship, true)];
      DefaultCountAppend([], SavedFrom(ship, true));
    } else if r != addrs {
      DefaultCountAppend(addrs, AsSent(ship));
    }
  }

  /** The address step does not keep the "at most one default" rule of
      updateProfile: a user whose list already has its default gets a second
      one exactly when a new address is sent marked as default. */
  lemma SecondDefaultFromRequest(addrs: seq<SavedAddress>, ship: ShippingInput)
    requires DefaultCount(addrs) == 1
    ensures var r := MergeShippingAddress(addrs, ship);
      DefaultCount(r) == 2 <==> r != addrs && ship.isDefault == Some(true)
  {
    MergeShippingAddressSpec(addrs, ship);
    var r := MergeShippingAddress(addrs, ship);
    if |addrs| > 0 && r != addrs {
      assert |r| == |addrs| + 1;
    }
  }

  /** Because saved addresses carry no district, a request that has one is
      never found equal to a saved address: it is appended on every order
      of a user who already has an address. */
  lemma AddressWithDistrictAlwaysAppended(addrs: seq<SavedAddress>, ship: ShippingInput)
    requires |addrs| > 0 && ship.district != Missing
    ensures MergeShippingAddress(addrs, ship) == addrs + [AsSent(ship)]
  {
  }

  // ---------------------------------------------------------------------
  // Building the items of a new order
  // ---------------------------------------------------------------------

  /** The guard applied to each requested line: 404 when the product is not
      active, 400 when its stock is below the quantity. */
  function LineStatus(products: map<ProductId, Product>, line: CartItem): Status
  {
    if !IsActive(products, line.productId) then NotFound
    else if products[line.productId].stock < line.quantity then BadRequest
    else Ok
  }

  /** The answer of the first failing line, or Ok when none fails. */
  function FirstLineError(products: map<ProductId, Product>, lines: seq<CartItem>): (r: Status)
    ensures r == Ok <==> forall i :: 0 <= i < |lines| ==> LineStatus(products, lines[i]) == Ok
    ensures r != Ok ==> exists k :: 0 <= k < |lines| && LineStatus(products, lines[k]) == r
                                   && forall i :: 0 <= i < k ==> LineStatus(products, lines[i]) == Ok
    ensures r == Ok || r == NotFound || r == BadRequest
  {
    if |lines| == 0 then Ok
    else
      var n := |lines| - 1;
      var init := lines[..n];
      var prev := FirstLineError(products, init);
      assert forall i :: 0 <= i < n ==> init[i] == lines[i];
      if prev != Ok then
        assert exists k :: 0 <= k < |lines| && LineStatus(products, lines[k]) == prev
                           && forall i :: 0 <= i < k ==> LineStatus(products, lines[i]) == Ok by {
          var k :| 0 <= k < n && LineStatus(products, init[k]) == prev
                   && forall i :: 0 <= i < k ==> LineStatus(products, init[i]) == Ok;
          assert LineStatus(products, lines[k]) == prev;
        }
        prev
      else
        var last := LineStatus(products, lines[n]);
        assert last != Ok ==> LineStatus(products, lines[n]) == last
                              && forall i :: 0 <= i < n ==> LineStatus(products, lines[i]) == Ok;
        last
  }

  /** A new item: the product's current price, seller and courier status
      "Pending", no courier, and one history entry "Order created". */
  function NewItem(line: CartItem, price: int): OrderItem
  {
    OrderItem(line.productId, line.quantity, price, SellerStatus.Pending, CourierDetails(None, None),
              CourierStatus.Pending, [SystemEntry("Order created")], None)
  }

  function SnapshotItems(products: map<ProductId, Product>, lines: seq<CartItem>): seq<OrderItem>
    requires forall i :: 0 <= i < |lines| ==> lines[i].productId in products
  {
    seq(|lines|, i requires 0 <= i < |lines| => NewItem(lines[i], products[lines[i].productId].price))
  }

  /** The item-building loop of createOrder: it stops at the first line
      whose product is not active (404) or whose stock is too low (400);
      otherwise every line gives one item with a snapshot of the price. */
  method BuildOrderItems(products: map<ProductId, Product>, lines: seq<CartItem>) returns (status: Status, items: seq<OrderItem>)
    ensures status == FirstLineError(products, lines)
    ensures status == Ok ==> forall i :: 0 <= i < |lines| ==> lines[i].productId in products
    ensures status == Ok ==> items == SnapshotItems(products, lines)
    ensures status == Ok ==> |items| == |lines| && forall i :: 0 <= i < |lines| ==>
      && items[i].productId == lines[i].productId
      && items[i].quantity == lines[i].quantity
      && items[i].price == products[lines[i].productId].price
      && items[i].quantity <= products[lines[i].productId].stock
      && items[i].sellerStatus == SellerStatus.Pending
      && items[i].courierStatus == CourierStatus.Pending
      && items[i].courierDetails == CourierDetails(None, None)
      && items[i].statusHistory == [SystemEntry("Order created")]
  {
    items := [];
    var i := 0;
    while i < |lines|
      invariant 0 <= i <= |lines|
      invariant FirstLineError(products, lines[..i]) == Ok
      invariant forall j :: 0 <= j < i ==> lines[j].productId in products
      invariant |items| == i
      invariant forall j :: 0 <= j < i ==> items[j] == NewItem(lines[j], products[lines[j].productId].price)
    {
      assert lines[..i + 1][..i] == lines[..i];
      var line := lines[i];
      if !(line.productId in products && products[line.productId].status == ProductStatus.Active) {
        assert LineStatus(products, lines[..i + 1][i]) == NotFound;
        PrefixError(products, lines, i + 1);
        return NotFound, [];
      }
      var product := products[line.productId];
      if product.stock < line.quantity {
        assert LineStatus(products, lines[..i + 1][i]) == BadRequest;
        PrefixError(products, lines, i + 1);
        return BadRequest, [];
      }
      items := items + [NewItem(line, product.price)];
      i := i + 1;
    }
    assert lines[..i] == lines;
    status := Ok;
  }

  /** An error in a prefix is the error of the whole list. */
  lemma {:induction false} PrefixError(products: map<ProductId, Product>, lines: seq<CartItem>, n: nat)
    requires n <= |lines| && FirstLineError(products, lines[..n]) != Ok
    ensures FirstLineError(products, lines) == FirstLineError(products, lines[..n])
    decreases |lines| - n
  {
    if n < |lines| {
      assert lines[..n + 1][..n] == lines[..n];
      PrefixError(products, lines, n + 1);
    } else {
      assert lines[..n] == lines;
    }
  }

  /** The total of a new order is what the cart view shows for the same
      lines: Σ current price × quantity. */
  lemma {:induction false} OrderTotalMatchesCartTotal(products: map<ProductId, Product>, lines: seq<CartItem>)
    requires forall i :: 0 <= i < |lines| ==> lines[i].productId in products
    ensures Total(SnapshotItems(products, lines)) == CartController.CartTotal(lines, products)
  {
    if |lines| > 0 {
      var init := lines[..|lines| - 1];
      OrderTotalMatchesCartTotal(products, init);
      assert SnapshotItems(products, lines)[..|lines| - 1] == SnapshotItems(products, init);
    }
  }

  /** The lines an order is built from: the request's items when it gives a
      non-empty list, otherwise the buyer's cart (None when it is missing or
      empty). */
  function OrderLines(requested: Option<seq<CartItem>>, carts: map<UserId, seq<CartItem>>, buyer: UserId): Option<seq<CartItem>>
  {
    if requested.Some? && |requested.value| > 0 then requested
    else if buyer !in carts || |carts[buyer]| == 0 then None
    else Some(carts[buyer])
  }

  /** The new order record. The order-level courier fields start as they
      are reset on handover: no courier, status "Pending", no history. */
  function PlacedOrder(buyer: UserId, items: seq<OrderItem>, ship: ShippingInput): Order
    requires ship.district.Listed?
  {
    Order(buyer, items, Total(items), OrderStatus.Pending,
          ShippingAddress(ship.street, ship.city, ship.district.district, ship.country, ship.postalCode),
          CourierDetails(None, None), CourierStatus.Pending, [])
  }

  /** createOrder. A missing buyer record fails (500) before anything is
      written. The address step is saved before the products are checked,
      so it persists even when the order is then refused. The order is
      refused with 400 when there are no lines, with the first line's 404
      or 400, and with 500 when the schema refuses it (no listed district,
      a quantity below 1). Stock is not touched. */
  method CreateOrder(db: Store, buyer: UserId, requested: Option<seq<CartItem>>, ship: ShippingInput, newId: OrderId)
    returns (status: Status)
    requires newId !in db.orders
    modifies db`users, db`orders
    ensures buyer !in old(db.users) ==> status == ServerError && db.users == old(db.users) && db.orders == old(db.orders)
    ensures buyer in old(db.users) ==>
      db.users == old(db.users)[buyer := old(db.users)[buyer].(addresses := MergeShippingAddress(old(db.users)[buyer].addresses, ship))]
    ensures var lines := OrderLines(requested, db.carts, buyer);
      && (buyer in old(db.users) && lines.None? ==> status == BadRequest)
      && (buyer in old(db.users) && lines.Some? ==>
            && (FirstLineError(db.products, lines.value) != Ok ==> status == FirstLineError(db.products, lines.value))
            && (FirstLineError(db.products, lines.value) == Ok ==>
                  var items := SnapshotItems(db.products, lines.value);
                  if ship.district.Listed? && ValidItems(items) then
                    status == Ok && db.orders == old(db.orders)[newId := PlacedOrder(buyer, items, ship)]
                  else status == ServerError))
    ensures status != Ok ==> db.orders == old(db.orders)
  {
    if buyer !in db.users {
      return ServerError;
    }
    var user := db.users[buyer];
    db.users := db.users[buyer := user.(addresses := MergeShippingAddress(user.addresses, ship))];
    var lines := OrderLines(requested, db.carts, buyer);
    if lines.None? {
      return BadRequest;
    }
    var items;
    status, items := BuildOrderItems(db.products, lines.value);
    if status != Ok {
      return status;
    }
    // order.save(): the schema requires a listed district and quantities of at least 1.
    if !ship.district.Listed? || !(forall i :: 0 <= i < |items| ==> items[i].quantity >= 1) {
      return ServerError;
    }
    db.orders := db.orders[newId := PlacedOrder(buyer, items, ship)];
  }

  // ---------------------------------------------------------------------
  // Per-item status changes, stock adjustment and cart consumption
  // ---------------------------------------------------------------------

  /** One item after a handler sets its seller status (when given) and
      pushes one history entry. */
  function MarkItem(item: OrderItem, status: Option<SellerStatus>, entry: HistoryEntry): OrderItem
  {
    item.(sellerStatus := if status.Some? then status.value else item.sellerStatus,
          statusHistory := item.statusHistory + [entry])
  }

  function Marked(items: seq<OrderItem>, status: Option<SellerStatus>, entry: HistoryEntry): seq<OrderItem>
  {
    seq(|items|, i requires 0 <= i < |items| => MarkItem(items[i], status, entry))
  }

  /** The `forEach` that marks every item: each item's seller status
      becomes the given one (or stays), its history grows by exactly the one
      entry, and nothing else about it changes. */
  method MarkItems(items: seq<OrderItem>, status: Option<SellerStatus>, entry: HistoryEntry) returns (r: seq<OrderItem>)
    ensures r == Marked(items, status, entry)
    ensures |r| == |items| && forall i :: 0 <= i < |r| ==>
      && r[i].sellerStatus == (if status.Some? then status.value else items[i].sellerStatus)
      && r[i].statusHistory == items[i].statusHistory + [entry]
      && r[i].(sellerStatus := items[i].sellerStatus, statusHistory := items[i].statusHistory) == items[i]
  {
    r := items;
    var i := 0;
    while i < |r|
      invariant 0 <= i <= |r| == |items|
      invariant forall j :: 0 <= j < i ==> r[j] == MarkItem(items[j], status, entry)
      invariant forall j :: i <= j < |r| ==> r[j] == items[j]
    {
      r := r[i := MarkItem(r[i], status, entry)];
      i := i + 1;
    }
  }

  /** The `Product.updateOne({ _id }, { $inc: { stock: ±quantity } })`
      loop: each known product's stock goes up (`restore`) or down by the
      quantity the items hold of it; unknown ids change nothing, no other field
      changes, and no bound is checked. */
  method AdjustStock(products: map<ProductId, Product>, items: seq<OrderItem>, restore: bool) returns (r: map<ProductId, Product>)
    ensures r.Keys == products.Keys
    ensures forall id :: id in products ==> r[id] == Restocked(products, items, restore, id)
  {
    r := products;
    var i := 0;
    while i < |items|
      invariant 0 <= i <= |items|
      invariant r.Keys == products.Keys
      invariant forall id :: id in products ==> r[id] == Restocked(products, items[..i], restore, id)
    {
      AdjustStep(products, r, items, i, restore);
      var item := items[i];
      if item.productId in r {
        r := r[item.productId := r[item.productId].(stock := r[item.productId].stock + Delta(restore, item.quantity))];
      }
      i := i + 1;
    }
    assert items[..i] == items;
  }

  /** The `$inc` amount: `+quantity` when stock is restored, `-quantity`
      when it is taken. */
  function Delta(restore: bool, quantity: int): int
  {
    if restore then quantity else -quantity
  }

  /** A product after its stock went up or down by the quantity the items
      hold of it. */
  function Restocked(products: map<ProductId, Product>, items: seq<OrderItem>, restore: bool, id: ProductId): Product
    requires id in products
  {
    products[id].(stock := products[id].stock + Delta(restore, QuantityOf(items, id)))
  }

  /** One iteration of the `$inc` loop extends the prefix by one item. */
  lemma AdjustStep(products: map<ProductId, Product>, r: map<ProductId, Product>, items: seq<OrderItem>, i: nat, restore: bool)
    requires i < |items| && r.Keys == products.Keys
    requires forall id :: id in products ==> r[id] == Restocked(products, items[..i], restore, id)
    ensures var item := items[i];
      var r' := if item.productId in r then r[item.productId := r[item.productId].(stock := r[item.productId].stock + Delta(restore, item.quantity))] else r;
      forall id :: id in products ==> r'[id] == Restocked(products, items[..i + 1], restore, id)
  {
    var item := items[i];
    var r' := if item.productId in r then r[item.productId := r[item.productId].(stock := r[item.productId].stock + Delta(restore, item.quantity))] else r;
    assert items[..i + 1] == items[..i] + [item];
    forall id | id in products
      ensures r'[id] == Restocked(products, items[..i + 1], restore, id)
    {
      QuantityOfAppend(items[..i], item, id);
      if id == item.productId {
        assert r'[id].stock == products[id].stock + Delta(restore, QuantityOf(items[..i], id) + item.quantity);
      } else {
        assert r'[id] == r[id];
      }
    }
  }

  /** The rule of the cart filter after payment for one cart line: a line
      whose product was not ordered stays; a line holding more than the
      first ordered item of its product loses that quantity; otherwise it
      goes. */
  function ConsumeLine(line: CartItem, items: seq<OrderItem>): Option<CartItem>
  {
    var k := FindItem(items, line.productId);
    if k == -1 then Some(line)
    else if line.quantity > items[k].quantity then Some(line.(quantity := line.quantity - items[k].quantity))
    else None
  }

  function ConsumeCart(lines: seq<CartItem>, items: seq<OrderItem>): (r: seq<CartItem>)
    ensures |r| <= |lines|
  {
    if |lines| == 0 then []
    else
      var prev := ConsumeCart(lines[..|lines| - 1], items);
      match ConsumeLine(lines[|lines| - 1], items)
      case None => prev
      case Some(x) => prev + [x]
  }

  /** After payment the cart keeps every line of a product that was not
      ordered. */
  lemma {:induction false} ConsumeCartKeepsUnordered(lines: seq<CartItem>, items: seq<OrderItem>)
    ensures forall l :: l in lines && FindItem(items, l.productId) == -1 ==> l in ConsumeCart(lines, items)
  {
    if |lines| > 0 {
      var init := lines[..|lines| - 1];
      ConsumeCartKeepsUnordered(init, items);
      assert lines == init + [lines[|lines| - 1]];
    }
  }

  /** A cart line holding more than the first ordered item of its product
      stays, reduced by that item's quantity. */
  lemma {:induction false} ConsumeCartKeepsReduced(lines: seq<CartItem>, items: seq<OrderItem>)
    ensures forall l :: l in lines && FindItem(items, l.productId) >= 0
                        && l.quantity > items[FindItem(items, l.productId)].quantity ==>
      l.(quantity := l.quantity - items[FindItem(items, l.productId)].quantity) in ConsumeCart(lines, items)
  {
    if |lines| > 0 {
      var init := lines[..|lines| - 1];
      ConsumeCartKeepsReduced(init, items);
      assert lines == init + [lines[|lines| - 1]];
    }
  }

  /** The cleanup works line by line and keeps the cart's order: cleaning a
      cart made of two parts is cleaning each part, one after the other. */
  lemma {:induction false} ConsumeCartConcat(a: seq<CartItem>, b: seq<CartItem>, items: seq<OrderItem>)
    ensures ConsumeCart(a + b, items) == ConsumeCart(a, items) + ConsumeCart(b, items)
    decreases |b|
  {
    if |b| == 0 {
      assert a + b == a;
    } else {
      var binit := b[..|b| - 1];
      ConsumeCartConcat(a, binit, items);
      assert (a + b)[..|a + b| - 1] == a + binit;
      assert (a + b)[|a + b| - 1] == b[|b| - 1];
    }
  }

  /** Every line left after payment comes from one cart line by the rule of
      `ConsumeLine`. */
  lemma {:induction false} ConsumeCartOrigin(lines: seq<CartItem>, items: seq<OrderItem>)
    ensures forall x :: x in ConsumeCart(lines, items) ==> exists l :: l in lines && ConsumeLine(l, items) == Some(x)
  {
    if |lines| > 0 {
      var init := lines[..|lines| - 1];
      var last := lines[|lines| - 1];
      ConsumeCartOrigin(init, items);
      assert lines == init + [last];
      assert forall l :: l in init ==> l in lines;
    }
  }

  /** Each cart line that `ConsumeLine` keeps keeps its product and a
      quantity of at least 1 when it had one. */
  lemma ConsumeLineValid(l: CartItem, items: seq<OrderItem>)
    ensures ConsumeLine(l, items).Some? ==> ConsumeLine(l, items).value.productId == l.productId
    ensures ConsumeLine(l, items).Some? && l.quantity >= 1 ==> ConsumeLine(l, items).value.quantity >= 1
  {
  }

  /** A valid cart (quantities at least 1, distinct products) stays valid. */
  lemma {:induction false} ConsumeCartValid(lines: seq<CartItem>, items: seq<OrderItem>)
    requires ValidCart(lines)
    ensures ValidCart(ConsumeCart(lines, items))
  {
    if |lines| > 0 {
      var init := lines[..|lines| - 1];
      var last := lines[|lines| - 1];
      assert forall i :: 0 <= i < |init| ==> init[i] == lines[i];
      ConsumeCartValid(init, items);
      ConsumeCartOrigin(init, items);
      ConsumeLineValid(last, items);
      var prev := ConsumeCart(init, items);
      if ConsumeLine(last, items).Some? {
        var r := prev + [ConsumeLine(last, items).value];
        forall i | 0 <= i < |prev| ensures prev[i].productId != last.productId {
          var l :| l in init && ConsumeLine(l, items) == Some(prev[i]);
          ConsumeLineValid(l, items);
          var m :| 0 <= m < |init| && init[m] == l;
          assert lines[m] == l;
        }
        assert ValidLines(r);
        forall i, j | 0 <= i < j < |r| ensures r[i].productId != r[j].productId {
          if j < |prev| {
            assert r[i] == prev[i] && r[j] == prev[j];
          }
        }
      }
    }
  }

  /** In a cart with distinct products a line holding no more than the
      first ordered item of its product goes: no line of that product is
      left. */
  lemma ConsumeCartDropsUsedUp(lines: seq<CartItem>, items: seq<OrderItem>, l: CartItem)
    requires DistinctProducts(lines) && l in lines
    requires FindItem(items, l.productId) >= 0 && l.quantity <= items[FindItem(items, l.productId)].quantity
    ensures forall x :: x in ConsumeCart(lines, items) ==> x.productId != l.productId
  {
    ConsumeCartOrigin(lines, items);
    forall x | x in ConsumeCart(lines, items) ensures x.productId != l.productId {
      var l' :| l' in lines && ConsumeLine(l', items) == Some(x);
      ConsumeLineValid(l', items);
    }
  }

  /** The cart filter of notifyOrder, run as a loop over the cart lines. */
  method ConsumeCartLines(lines: seq<CartItem>, items: seq<OrderItem>) returns (kept: seq<CartItem>)
    ensures kept == ConsumeCart(lines, items)
    ensures ValidCart(lines) ==> ValidCart(kept)
  {
    kept := [];
    var i := 0;
    while i < |lines|
      invariant 0 <= i <= |lines|
      invariant kept == ConsumeCart(lines[..i], items)
    {
      assert lines[..i + 1][..i] == lines[..i];
      var cartItem := lines[i];
      var k := FindItem(items, cartItem.productId);
      if k == -1 {
        kept := kept + [cartItem];
      } else if cartItem.quantity > items[k].quantity {
        kept := kept + [cartItem.(quantity := cartItem.quantity - items[k].quantity)];
      }
      i := i + 1;
    }
    assert lines[..i] == lines;
    if ValidCart(lines) {
      ConsumeCartValid(lines, items);
    }
  }

  // ---------------------------------------------------------------------
  // The payment callback
  // ---------------------------------------------------------------------

  /** The status the callback's `status_code` asks for ("2" paid, "0"
      pending, "-1"/"-2" cancelled or failed); None for any other code. */
  function PaymentStatus(code: string): Option<OrderStatus>
  {
    if code == "2" then Some(OrderStatus.Confirmed)
    else if code == "0" then Some(OrderStatus.Pending)
    else if code == "-1" || code == "-2" then Some(OrderStatus.Cancelled)
    else None
  }

  /** The items after the callback's per-item loop for the given code. */
  function PaymentItems(items: seq<OrderItem>, code: string): seq<OrderItem>
  {
    if code == "2" then Marked(items, Some(SellerStatus.Accepted), SystemEntry("Order confirmed"))
    else if code == "0" then Marked(items, None, SystemEntry("Order payment pending"))
    else if code == "-1" || code == "-2" then Marked(items, Some(SellerStatus.Cancelled), SystemEntry("Order cancelled due to payment failure"))
    else items
  }

  predicate AllAccepted(items: seq<OrderItem>)
  {
    forall i :: 0 <= i < |items| ==> items[i].sellerStatus == SellerStatus.Accepted
  }

  predicate AnyCancelled(items: seq<OrderItem>)
  {
    exists i :: 0 <= i < |items| && items[i].sellerStatus == SellerStatus.Cancelled
  }

  predicate AllCancelled(items: seq<OrderItem>)
  {
    forall i :: 0 <= i < |items| ==> items[i].sellerStatus == SellerStatus.Cancelled
  }

  /** The order status the callback derives from the requested status and
      the items; `current` is kept when no branch applies. */
  function DerivedStatus(requested: Option<OrderStatus>, items: seq<OrderItem>, current: OrderStatus): OrderStatus
  {
    if requested == Some(OrderStatus.Confirmed) && AllAccepted(items) then OrderStatus.Confirmed
    else if requested == Some(OrderStatus.Pending) then OrderStatus.Pending
    else if requested == Some(OrderStatus.Cancelled) || AnyCancelled(items) then OrderStatus.Cancelled
    else current
  }

  /** What each status code does to an order, whatever its earlier state:
      "2" accepts every item with one new history entry and confirms the
      order; "0" only logs and sets "Pending"; "-1"/"-2" cancel every item
      and the order; any other code leaves the items as they are and
      cancels the order exactly when an item is already cancelled. */
  lemma PaymentOutcome(items: seq<OrderItem>, code: string, current: OrderStatus)
    ensures var r := PaymentItems(items, code);
      var s := DerivedStatus(PaymentStatus(code), r, current);
      && |r| == |items|
      && (code == "2" ==> s == OrderStatus.Confirmed && AllAccepted(r))
      && (code == "0" ==>
            s == OrderStatus.Pending && forall i :: 0 <= i < |r| ==> r[i].sellerStatus == items[i].sellerStatus)
      && (code in {"-1", "-2"} ==> s == OrderStatus.Cancelled && AllCancelled(r))
      && (PaymentStatus(code) != None ==> forall i :: 0 <= i < |r| ==> |r[i].statusHistory| == |items[i].statusHistory| + 1)
      && (PaymentStatus(code) == None ==> r == items && s == (if AnyCancelled(items) then OrderStatus.Cancelled else current))
  {
  }

  /** notifyOrder. A signature that does not match changes nothing (400);
      an unknown order changes nothing (404). Otherwise the items and the
      order status change as `PaymentItems` and `DerivedStatus` say, and
      only on code "2" are stock (decremented, unchecked) and the buyer's
      cart (consumed) changed as well. */
  method NotifyOrder(db: Store, signatureMatches: bool, orderId: OrderId, code: string) returns (status: Status)
    modifies db`orders, db`products, db`carts
    ensures !signatureMatches ==> status == BadRequest
    ensures signatureMatches && orderId !in old(db.orders) ==> status == NotFound
    ensures status != Ok ==> db.orders == old(db.orders) && db.products == old(db.products) && db.carts == old(db.carts)
    ensures status == Ok <==> signatureMatches && orderId in old(db.orders)
    ensures status == Ok ==>
      var o := old(db.orders)[orderId];
      var items := PaymentItems(o.items, code);
      && db.orders == old(db.orders)[orderId := o.(items := items, status := DerivedStatus(PaymentStatus(code), items, o.status))]
      && (code == "2" ==>
            && db.products.Keys == old(db.products).Keys
            && (forall id :: id in old(db.products) ==> db.products[id] == Restocked(old(db.products), o.items, false, id))
            && db.carts == (if o.buyerId in old(db.carts)
                            then old(db.carts)[o.buyerId := ConsumeCart(old(db.carts)[o.buyerId], items)]
                            else old(db.carts)))
      && (code != "2" ==> db.products == old(db.products) && db.carts == old(db.carts))
    ensures ValidCarts(old(db.carts)) ==> ValidCarts(db.carts)
  {
    if !signatureMatches {
      return BadRequest;
    }
    if orderId !in db.orders {
      return NotFound;
    }
    var order := db.orders[orderId];
    var updated := ApplyPayment(order, code);
    if code == "2" {
      var products := AdjustStock(db.products, updated.items, false);
      forall id | id in db.products ensures Restocked(db.products, updated.items, false, id) == Restocked(db.products, order.items, false, id) {
        MarkedQuantity(order.items, Some(SellerStatus.Accepted), SystemEntry("Order confirmed"), id);
      }
      db.products := products;
      if order.buyerId in db.carts {
        var kept := ConsumeCartLines(db.carts[order.buyerId], updated.items);
        db.carts := db.carts[order.buyerId := kept];
      }
    }
    db.orders := db.orders[orderId := updated];
    status := Ok;
  }

  /** The callback's per-item loop for the status code, followed by its
      derivation of the order status. */
  method ApplyPayment(order: Order, code: string) returns (r: Order)
    ensures r == order.(items := PaymentItems(order.items, code),
                        status := DerivedStatus(PaymentStatus(code), PaymentItems(order.items, code), order.status))
  {
    var items := order.items;
    var newStatus := PaymentStatus(code);
    if code == "2" {
      items := MarkItems(items, Some(SellerStatus.Accepted), SystemEntry("Order confirmed"));
    } else if code == "0" {
      items := MarkItems(items, None, SystemEntry("Order payment pending"));
    } else if code == "-1" || code == "-2" {
      items := MarkItems(items, Some(SellerStatus.Cancelled), SystemEntry("Order cancelled due to payment failure"));
    }
    var allConfirmed := forall i :: 0 <= i < |items| ==> items[i].sellerStatus == SellerStatus.Accepted;
    var anyCancelled := exists i :: 0 <= i < |items| && items[i].sellerStatus == SellerStatus.Cancelled;
    var orderStatus := order.status;
    if newStatus == Some(OrderStatus.Confirmed) && allConfirmed {
      orderStatus := OrderStatus.Confirmed;
    } else if newStatus == Some(OrderStatus.Pending) {
      orderStatus := OrderStatus.Pending;
    } else if newStatus == Some(OrderStatus.Cancelled) || anyCancelled {
      orderStatus := OrderStatus.Cancelled;
    }
    r := order.(items := items, status := orderStatus);
  }

  /** Marking items keeps their products and quantities. */
  lemma {:induction false} MarkedQuantity(items: seq<OrderItem>, status: Option<SellerStatus>, entry: HistoryEntry, id: ProductId)
    ensures QuantityOf(Marked(items, status, entry), id) == QuantityOf(items, id)
  {
    if |items| > 0 {
      var init := items[..|items| - 1];
      assert Marked(items, status, entry)[..|items| - 1] == Marked(init, status, entry);
      MarkedQuantity(init, status, entry, id);
    }
  }

  // ---------------------------------------------------------------------
  // The buyer's order list
  // ---------------------------------------------------------------------

  /** The unified status getOrders reports for one item of an order. */
  function UnifiedStatus(orderStatus: OrderStatus, item: OrderItem): (r: string)
    ensures orderStatus == OrderStatus.Cancelled || item.sellerStatus == SellerStatus.Cancelled ==> r == "Cancelled"
    ensures r == "Delivered" <==> item.sellerStatus == SellerStatus.Delivered && orderStatus != OrderStatus.Cancelled
    ensures item.sellerStatus == SellerStatus.Shipped && item.courierStatus == CourierStatus.Delivered
            && orderStatus != OrderStatus.Cancelled ==>
              r == (if orderStatus == OrderStatus.Confirmed then "Payment Confirmed" else "Payment Pending")
    ensures item.sellerStatus == SellerStatus.Pending && orderStatus != OrderStatus.Cancelled ==>
              r in {"Payment Pending", "Payment Confirmed"}
  {
    var base := if orderStatus == OrderStatus.Confirmed then "Payment Confirmed" else "Payment Pending";
    if orderStatus == OrderStatus.Cancelled || item.sellerStatus == SellerStatus.Cancelled then "Cancelled"
    else if item.sellerStatus == SellerStatus.Accepted then "Order Accepted"
    else if item.sellerStatus == SellerStatus.Processing then "Processing"
    else if item.sellerStatus == SellerStatus.Shipped then
      match item.courierStatus
      case Pending => "Shipped - Awaiting Courier"
      case PickedUp => "Picked Up by Courier"
      case InTransit => "In Transit"
      case OutForDelivery => "Out for Delivery"
      // `courierStatus === "Delivered" && sellerStatus === "Delivered"` cannot
      // hold inside the "Shipped" branch, so the default stays.
      case Delivered => base
      case FailedDelivery => "Delivery Failed"
    else if item.sellerStatus == SellerStatus.Delivered then "Delivered"
    else base
  }

  // ---------------------------------------------------------------------
  // Buyer cancellation
  // ---------------------------------------------------------------------

  /** Some item has progressed past "Pending"/"Cancelled". */
  predicate HasAcceptedItems(items: seq<OrderItem>)
  {
    exists i :: 0 <= i < |items| && items[i].sellerStatus != SellerStatus.Pending && items[i].sellerStatus != SellerStatus.Cancelled
  }

  /** The two guards of cancelOrder. */
  predicate Cancellable(o: Order)
  {
    !HasAcceptedItems(o.items) && o.status == OrderStatus.Pending
  }

  /** Once the callback has confirmed payment for a non-empty order, the
      buyer can no longer cancel it; so the stock that cancellation restores
      was never taken by the payment callback. */
  lemma PaidOrderNotCancellable(o: Order)
    requires |o.items| > 0
    ensures var items := PaymentItems(o.items, "2");
      !Cancellable(o.(items := items, status := DerivedStatus(PaymentStatus("2"), items, o.status)))
  {
    var items := PaymentItems(o.items, "2");
    assert items[0].sellerStatus == SellerStatus.Accepted;
  }

  /** Cancelling one item changes the recomputed total by that item's line
      amount, or not at all when it was already cancelled. */
  lemma {:induction false} ActiveTotalAfterCancel(items: seq<OrderItem>, k: nat, entry: HistoryEntry)
    requires k < |items|
    ensures ActiveTotal(items[k := MarkItem(items[k], Some(SellerStatus.Cancelled), entry)]) ==
            ActiveTotal(items) - (if items[k].sellerStatus != SellerStatus.Cancelled then LineAmount(items[k]) else 0)
  {
    var r := items[k := MarkItem(items[k], Some(SellerStatus.Cancelled), entry)];
    var n := |items| - 1;
    if k < n {
      ActiveTotalAfterCancel(items[..n], k, entry);
      assert r[..n] == items[..n][k := MarkItem(items[k], Some(SellerStatus.Cancelled), entry)];
    } else {
      assert r[..n] == items[..n];
    }
  }

  function BuyerEntry(status: string, buyer: UserId): HistoryEntry
  {
    HistoryEntry(status, BuyerActor, Some(buyer))
  }

  /** cancelOrder. 404 unless the order exists and belongs to the buyer;
      400 when an item has progressed or the order is not "Pending". With a
      product id: 404 when no item has it; otherwise that item is cancelled,
      its quantity goes back to stock, the total is recomputed over the
      items not cancelled, and the order is "Cancelled" exactly when every
      item is. Without one: every item is cancelled and restocked and the
      order is "Cancelled" with its total unchanged. */
  method CancelOrder(db: Store, buyer: UserId, orderId: OrderId, productId: Option<ProductId>) returns (status: Status)
    modifies db`orders, db`products
    ensures orderId !in old(db.orders) || old(db.orders)[orderId].buyerId != buyer ==> status == NotFound
    ensures orderId in old(db.orders) && old(db.orders)[orderId].buyerId == buyer && !Cancellable(old(db.orders)[orderId]) ==> status == BadRequest
    ensures status != Ok ==> db.orders == old(db.orders) && db.products == old(db.products)
    ensures status == Ok ==> orderId in old(db.orders) && Cancellable(old(db.orders)[orderId]) && db.products.Keys == old(db.products).Keys
    ensures status == Ok && productId.Some? ==>
      var o := old(db.orders)[orderId];
      var k := FindItem(o.items, productId.value);
      && k >= 0
      && var items := o.items[k := MarkItem(o.items[k], Some(SellerStatus.Cancelled), BuyerEntry("Item cancelled by buyer", buyer))];
      && db.orders == old(db.orders)[orderId := o.(items := items, total := ActiveTotal(items),
                                                  status := if AllCancelled(items) then OrderStatus.Cancelled else OrderStatus.Pending)]
      && forall id :: id in old(db.products) ==>
           db.products[id] == old(db.products)[id].(stock := old(db.products)[id].stock + (if id == o.items[k].productId then o.items[k].quantity else 0))
    ensures status == Ok && productId.None? ==>
      var o := old(db.orders)[orderId];
      && db.orders == old(db.orders)[orderId := o.(items := Marked(o.items, Some(SellerStatus.Cancelled), BuyerEntry("Order cancelled by buyer", buyer)),
                                                  status := OrderStatus.Cancelled)]
      && forall id :: id in old(db.products) ==> db.products[id] == Restocked(old(db.products), o.items, true, id)
    ensures orderId in old(db.orders) && old(db.orders)[orderId].buyerId == buyer && Cancellable(old(db.orders)[orderId]) ==>
      (status == Ok <==> productId.None? || FindItem(old(db.orders)[orderId].items, productId.value) >= 0)
  {
    if orderId !in db.orders || db.orders[orderId].buyerId != buyer {
      return NotFound;
    }
    var order := db.orders[orderId];
    var hasAcceptedItems := exists i :: 0 <= i < |order.items| && order.items[i].sellerStatus != SellerStatus.Pending && order.items[i].sellerStatus != SellerStatus.Cancelled;
    if hasAcceptedItems {
      return BadRequest;
    }
    if order.status != OrderStatus.Pending {
      return BadRequest;
    }
    if productId.Some? {
      var itemIndex := FindItem(order.items, productId.value);
      if itemIndex == -1 {
        return NotFound;
      }
      var item := order.items[itemIndex];
      var items := order.items[itemIndex := MarkItem(item, Some(SellerStatus.Cancelled), BuyerEntry("Item cancelled by buyer", buyer))];
      var products := AdjustStock(db.products, [item], true);
      forall id | id in db.products ensures QuantityOf([item], id) == (if id == item.productId then item.quantity else 0) {
        assert [item][..0] == [];
      }
      db.products := products;
      var allCancelled := forall i :: 0 <= i < |items| ==> items[i].sellerStatus == SellerStatus.Cancelled;
      db.orders := db.orders[orderId := order.(items := items, total := ActiveTotal(items),
                                               status := if allCancelled then OrderStatus.Cancelled else OrderStatus.Pending)];
    } else {
      var items := MarkItems(order.items, Some(SellerStatus.Cancelled), BuyerEntry("Order cancelled by buyer", buyer));
      var products := AdjustStock(db.products, order.items, true);
      db.products := products;
      db.orders := db.orders[orderId := order.(items := items, status := OrderStatus.Cancelled)];
    }
    status := Ok;
  }
}
