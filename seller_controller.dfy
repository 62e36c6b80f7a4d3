/** The seller's order handlers (controllers/sellerController.js). A seller
    owns the items whose product has the seller's id, whatever the product's
    status. */
module SellerController {
  import opened Common
  import opened ProductModel
  import opened OrderModel
  import opened Db

  predicate Owns(products: map<ProductId, Product>, seller: UserId, id: ProductId)
  {
    id in products && products[id].sellerId == seller
  }

  // ---------------------------------------------------------------------
  // The seller's view of orders
  // ---------------------------------------------------------------------

  /** The items of one order that belong to the seller, in order. */
  function SellerItems(items: seq<OrderItem>, products: map<ProductId, Product>, seller: UserId): (r: seq<OrderItem>)
    ensures |r| <= |items|
    ensures forall x :: x in r <==> x in items && Owns(products, seller, x.productId)
  {
    if |items| == 0 then []
    else
      var init := items[..|items| - 1];
      var last := items[|items| - 1];
      assert items == init + [last];
      SellerItems(init, products, seller) + (if Owns(products, seller, last.productId) then [last] else [])
  }

  predicate HasSellerItem(o: Order, products: map<ProductId, Product>, seller: UserId)
  {
    exists i :: 0 <= i < |o.items| && Owns(products, seller, o.items[i].productId)
  }

  lemma HasSellerItemIff(o: Order, products: map<ProductId, Product>, seller: UserId)
    ensures HasSellerItem(o, products, seller) <==> |SellerItems(o.items, products, seller)| > 0
  {
    var r := SellerItems(o.items, products, seller);
    if HasSellerItem(o, products, seller) {
      var i :| 0 <= i < |o.items| && Owns(products, seller, o.items[i].productId);
      assert o.items[i] in r;
    }
    if |r| > 0 {
      assert r[0] in r;
      var i :| 0 <= i < |o.items| && o.items[i] == r[0];
      assert Owns(products, seller, o.items[i].productId);
    }
  }

  /** An order as the seller sees it: the same record with only the
      seller's items. */
  function Restricted(o: Order, products: map<ProductId, Product>, seller: UserId): Order
  {
    o.(items := SellerItems(o.items, products, seller))
  }

  /** getSellerOrders: every order with at least one of the seller's items,
      restricted to those items; orders without any are omitted. */
  function SellerView(orders: seq<Order>, products: map<ProductId, Product>, seller: UserId): (r: seq<Order>)
    ensures |r| <= |orders|
    ensures forall o :: o in orders && HasSellerItem(o, products, seller) ==> Restricted(o, products, seller) in r
    ensures forall x :: x in r ==> exists o :: o in orders && HasSellerItem(o, products, seller) && x == Restricted(o, products, seller)
  {
    if |orders| == 0 then []
    else
      var init := orders[..|orders| - 1];
      var last := orders[|orders| - 1];
      assert orders == init + [last];
      HasSellerItemIff(last, products, seller);
      SellerView(init, products, seller)
        + (if |SellerItems(last.items, products, seller)| > 0 then [Restricted(last, products, seller)] else [])
  }

  /** Every order the seller sees is non-empty and holds only the seller's
      items, each of them an item of the stored order. */
  lemma SellerViewOnlyOwnItems(orders: seq<Order>, products: map<ProductId, Product>, seller: UserId, x: Order)
    requires x in SellerView(orders, products, seller)
    ensures |x.items| > 0
    ensures forall it :: it in x.items ==> Owns(products, seller, it.productId)
  {
    var o :| o in orders && HasSellerItem(o, products, seller) && x == Restricted(o, products, seller);
    HasSellerItemIff(o, products, seller);
  }

  /** getSellerOrderById: 404 for a missing order and for an order without
      the seller's items; otherwise the order restricted to them. */
  function SellerOrderById(orders: map<OrderId, Order>, products: map<ProductId, Product>, seller: UserId, id: OrderId): (r: Outcome<Order>)
    ensures r.Success? <==> id in orders && HasSellerItem(orders[id], products, seller)
    ensures r.Failure? ==> r.status == NotFound
    ensures r.Success? ==> r.value == Restricted(orders[id], products, seller) && |r.value.items| > 0
  {
    if id !in orders then Failure(NotFound)
    else
      var sellerItems := SellerItems(orders[id].items, products, seller);
      HasSellerItemIff(orders[id], products, seller);
      if |sellerItems| == 0 then Failure(NotFound)
      else Success(orders[id].(items := sellerItems))
  }

  // ---------------------------------------------------------------------
  // Item status updates and handover
  // ---------------------------------------------------------------------

  /** The number of the seller's items in an order. */
  function CountSellerItems(items: seq<OrderItem>, products: map<ProductId, Product>, seller: UserId): nat
  {
    if |items| == 0 then 0
    else CountSellerItems(items[..|items| - 1], products, seller) + (if Owns(products, seller, items[|items| - 1].productId) then 1 else 0)
  }

  lemma {:induction false} CountSellerItemsIsLength(items: seq<OrderItem>, products: map<ProductId, Product>, seller: UserId)
    ensures CountSellerItems(items, products, seller) == |SellerItems(items, products, seller)|
  {
    if |items| > 0 {
      CountSellerItemsIsLength(items[..|items| - 1], products, seller);
    }
  }

  /** The items after the `map` callback: the seller's items get the new
      status, the others are the same item. */
  function MarkSellerItems(items: seq<OrderItem>, products: map<ProductId, Product>, seller: UserId, s: SellerStatus): seq<OrderItem>
  {
    seq(|items|, i requires 0 <= i < |items| =>
      if Owns(products, seller, items[i].productId) then items[i].(sellerStatus := s) else items[i])
  }

  function Repeat(e: HistoryEntry, n: nat): (r: seq<HistoryEntry>)
    ensures |r| == n && forall i :: 0 <= i < n ==> r[i] == e
  {
    seq(n, _ => e)
  }

  function SellerEntry(status: string, seller: UserId): HistoryEntry
  {
    HistoryEntry(status, SellerActor, Some(seller))
  }

  /** The `order.items.map` loop: it sets the status of each of the
      seller's items, pushes one order-level history entry per such item,
      and reports whether any item was the seller's. */
  method SetSellerItems(items: seq<OrderItem>, products: map<ProductId, Product>, seller: UserId, s: SellerStatus,
                        entry: HistoryEntry, history: seq<HistoryEntry>)
    returns (r: seq<OrderItem>, h: seq<HistoryEntry>, updated: bool)
    ensures r == MarkSellerItems(items, products, seller, s)
    ensures h == history + Repeat(entry, CountSellerItems(items, products, seller))
    ensures updated <==> CountSellerItems(items, products, seller) > 0
    ensures |r| == |items| && forall i :: 0 <= i < |items| ==>
      if Owns(products, seller, items[i].productId) then r[i] == items[i].(sellerStatus := s) else r[i] == items[i]
  {
    r, h, updated := items, history, false;
    var i := 0;
    while i < |items|
      invariant 0 <= i <= |items| == |r|
      invariant forall j :: 0 <= j < i ==> r[j] == MarkSellerItems(items, products, seller, s)[j]
      invariant forall j :: i <= j < |r| ==> r[j] == items[j]
      invariant h == history + Repeat(entry, CountSellerItems(items[..i], products, seller))
      invariant updated <==> CountSellerItems(items[..i], products, seller) > 0
    {
      assert items[..i + 1][..i] == items[..i];
      var item := r[i];
      if item.productId in products && products[item.productId].sellerId == seller {
        r := r[i := item.(sellerStatus := s)];
        h := h + [entry];
        updated := true;
      }
      i := i + 1;
    }
    assert items[..i] == items;
  }

  /** The statuses a seller may set. */
  predicate AllowedSellerUpdate(s: Option<SellerStatus>)
  {
    s == Some(SellerStatus.Processing) || s == Some(SellerStatus.Shipped) || s == Some(SellerStatus.Delivered)
  }

  /** updateOrderStatus: 400 for any status but "Processing", "Shipped" and
      "Delivered" (before any lookup), 404 for a missing order or one
      without the seller's items (nothing saved); otherwise exactly the
      seller's items take the status and the order history grows by one
      entry per such item. */
  method UpdateOrderStatus(db: Store, seller: UserId, orderId: OrderId, status: Option<SellerStatus>) returns (st: Status)
    modifies db`orders
    ensures !AllowedSellerUpdate(status) ==> st == BadRequest
    ensures AllowedSellerUpdate(status) && orderId !in old(db.orders) ==> st == NotFound
    ensures (AllowedSellerUpdate(status) && orderId in old(db.orders)
             && CountSellerItems(old(db.orders)[orderId].items, db.products, seller) == 0) ==> st == NotFound
    ensures st != Ok ==> db.orders == old(db.orders)
    ensures st == Ok <==> AllowedSellerUpdate(status) && orderId in old(db.orders)
                          && CountSellerItems(old(db.orders)[orderId].items, db.products, seller) > 0
    ensures st == Ok ==>
      var o := old(db.orders)[orderId];
      var s := status.value;
      db.orders == old(db.orders)[orderId := o.(
        items := MarkSellerItems(o.items, db.products, seller, s),
        statusHistory := o.statusHistory + Repeat(SellerEntry("Seller updated item to " + SellerStatusName(s), seller),
                                                  CountSellerItems(o.items, db.products, seller)))]
  {
    if !(status == Some(SellerStatus.Processing) || status == Some(SellerStatus.Shipped) || status == Some(SellerStatus.Delivered)) {
      return BadRequest;
    }
    if orderId !in db.orders {
      return NotFound;
    }
    var order := db.orders[orderId];
    var s := status.value;
    var items, history, updated :=
      SetSellerItems(order.items, db.products, seller, s, SellerEntry("Seller updated item to " + SellerStatusName(s), seller), order.statusHistory);
    if !updated {
      return NotFound;
    }
    db.orders := db.orders[orderId := order.(items := items, statusHistory := history)];
    st := Ok;
  }

  predicate AllShipped(items: seq<OrderItem>)
  {
    forall i :: 0 <= i < |items| ==> items[i].sellerStatus == SellerStatus.Shipped
  }

  /** After the seller's items are set to "Shipped", the whole order is
      shipped exactly when every other seller's item already was. */
  lemma AllShippedAfterHandover(items: seq<OrderItem>, products: map<ProductId, Product>, seller: UserId)
    ensures AllShipped(MarkSellerItems(items, products, seller, SellerStatus.Shipped)) <==>
            forall i :: 0 <= i < |items| ==> Owns(products, seller, items[i].productId) || items[i].sellerStatus == SellerStatus.Shipped
  {
    var r := MarkSellerItems(items, products, seller, SellerStatus.Shipped);
    if AllShipped(r) {
      forall i | 0 <= i < |items|
        ensures Owns(products, seller, items[i].productId) || items[i].sellerStatus == SellerStatus.Shipped
      {
        assert r[i].sellerStatus == SellerStatus.Shipped;
      }
    }
  }

  /** The order after a successful handover. */
  function HandedOver(o: Order, products: map<ProductId, Product>, seller: UserId, tracking: Option<string>, generatedTracking: string): Order
  {
    var items := MarkSellerItems(o.items, products, seller, SellerStatus.Shipped);
    var history := o.statusHistory
      + Repeat(SellerEntry("Seller updated item to Shipped", seller), CountSellerItems(o.items, products, seller))
      + [SellerEntry("Handed over to courier service", seller)];
    o.(items := items,
       courierDetails := CourierDetails(None, OrElse(tracking, Some(generatedTracking))),
       courierStatus := CourierStatus.Pending,
       status := if AllShipped(items) then OrderStatus.Shipped else o.status,
       statusHistory := if AllShipped(items) then history + [SystemEntry("Order status updated to Shipped")] else history)
  }

  /** What a handover promises: the seller's items are "Shipped" and the
      others unchanged, no courier is assigned, the tracking number is the
      one supplied or else a generated one, the courier status is
      "Pending", and the order is "Shipped" exactly when all its items are. */
  lemma HandedOverSpec(o: Order, products: map<ProductId, Product>, seller: UserId, tracking: Option<string>, generatedTracking: string)
    ensures var r := HandedOver(o, products, seller, tracking, generatedTracking);
      && |r.items| == |o.items|
      && (forall i :: 0 <= i < |o.items| ==>
            r.items[i] == if Owns(products, seller, o.items[i].productId) then o.items[i].(sellerStatus := SellerStatus.Shipped) else o.items[i])
      && r.courierDetails.courierId == None
      && r.courierDetails.trackingNumber == (if Truthy(tracking) then tracking else Some(generatedTracking))
      && r.courierStatus == CourierStatus.Pending
      && ((forall i :: 0 <= i < |o.items| ==> Owns(products, seller, o.items[i].productId) || o.items[i].sellerStatus == SellerStatus.Shipped)
            ==> r.status == OrderStatus.Shipped)
      && (r.status == OrderStatus.Shipped <==> AllShipped(r.items) || o.status == OrderStatus.Shipped)
  {
    AllShippedAfterHandover(o.items, products, seller);
  }

  /** handoverToCourier: 404 for a missing order or one without the
      seller's items; otherwise the order becomes `HandedOver`. */
  method HandoverToCourier(db: Store, seller: UserId, orderId: OrderId, tracking: Option<string>, generatedTracking: string)
    returns (st: Status)
    modifies db`orders
    ensures st == Ok <==> orderId in old(db.orders) && CountSellerItems(old(db.orders)[orderId].items, db.products, seller) > 0
    ensures st != Ok ==> st == NotFound && db.orders == old(db.orders)
    ensures st == Ok ==>
      db.orders == old(db.orders)[orderId := HandedOver(old(db.orders)[orderId], db.products, seller, tracking, generatedTracking)]
  {
    if orderId !in db.orders {
      return NotFound;
    }
    var order := db.orders[orderId];
    var items, history, updated :=
      SetSellerItems(order.items, db.products, seller, SellerStatus.Shipped, SellerEntry("Seller updated item to Shipped", seller), order.statusHistory);
    if !updated {
      return NotFound;
    }
    history := history + [SellerEntry("Handed over to courier service", seller)];
    var trackingNumber := if tracking.Some? && tracking.value != "" then tracking else Some(generatedTracking);
    var status := order.status;
    var allShipped := forall i :: 0 <= i < |items| ==> items[i].sellerStatus == SellerStatus.Shipped;
    if allShipped {
      status := OrderStatus.Shipped;
      history := history + [SystemEntry("Order status updated to Shipped")];
    }
    db.orders := db.orders[orderId := order.(items := items, courierDetails := CourierDetails(None, trackingNumber),
                                             courierStatus := CourierStatus.Pending, status := status, statusHistory := history)];
    st := Ok;
  }

  // ---------------------------------------------------------------------
  // Analytics
  // ---------------------------------------------------------------------

  /** Σ quantity × price over the seller's delivered items of one order. */
  function ItemsRevenue(items: seq<OrderItem>, products: map<ProductId, Product>, seller: UserId): int
  {
    if |items| == 0 then 0
    else
      var last := items[|items| - 1];
      ItemsRevenue(items[..|items| - 1], products, seller)
        + (if Owns(products, seller, last.productId) && last.sellerStatus == SellerStatus.Delivered then last.quantity * last.price else 0)
  }

  function DeliveredItems(items: seq<OrderItem>): seq<OrderItem>
  {
    if |items| == 0 then []
    else
      var last := items[|items| - 1];
      DeliveredItems(items[..|items| - 1]) + (if last.sellerStatus == SellerStatus.Delivered then [last] else [])
  }

  /** The revenue of a list with one more item. */
  lemma ItemsRevenueAppend(items: seq<OrderItem>, x: OrderItem, products: map<ProductId, Product>, seller: UserId)
    ensures ItemsRevenue(items + [x], products, seller)
         == ItemsRevenue(items, products, seller)
            + (if Owns(products, seller, x.productId) && x.sellerStatus == SellerStatus.Delivered then x.quantity * x.price else 0)
  {
    assert (items + [x])[..|items|] == items;
  }

  /** The delivered items of a list with one more item. */
  lemma DeliveredItemsAppend(items: seq<OrderItem>, x: OrderItem)
    ensures DeliveredItems(items + [x]) == DeliveredItems(items) + (if x.sellerStatus == SellerStatus.Delivered then [x] else [])
  {
    assert (items + [x])[..|items|] == items;
  }

  /** The seller's delivered total of a list with one more item. */
  lemma DeliveredTotalAppend(items: seq<OrderItem>, x: OrderItem)
    ensures Total(DeliveredItems(items + [x]))
         == Total(DeliveredItems(items)) + (if x.sellerStatus == SellerStatus.Delivered then x.quantity * x.price else 0)
  {
    DeliveredItemsAppend(items, x);
    if x.sellerStatus == SellerStatus.Delivered {
      assert DeliveredItems(items + [x]) == DeliveredItems(items) + [x];
      TotalAppend(DeliveredItems(items), x);
      assert LineAmount(x) == x.quantity * x.price;
    } else {
      assert DeliveredItems(items + [x]) == DeliveredItems(items) + [];
      assert DeliveredItems(items) + [] == DeliveredItems(items);
    }
  }

  /** The seller's items of a list with one more item. */
  lemma SellerItemsAppend(items: seq<OrderItem>, x: OrderItem, products: map<ProductId, Product>, seller: UserId)
    ensures SellerItems(items + [x], products, seller)
         == SellerItems(items, products, seller) + (if Owns(products, seller, x.productId) then [x] else [])
  {
    assert (items + [x])[..|items|] == items;
  }

  /** The revenue reduce is the order total of the seller's delivered items. */
  lemma {:induction false} ItemsRevenueIsDeliveredTotal(items: seq<OrderItem>, products: map<ProductId, Product>, seller: UserId)
    ensures ItemsRevenue(items, products, seller) == Total(DeliveredItems(SellerItems(items, products, seller)))
  {
    if |items| > 0 {
      var init, last := items[..|items| - 1], items[|items| - 1];
      assert items == init + [last];
      ItemsRevenueIsDeliveredTotal(init, products, seller);
      ItemsRevenueAppend(init, last, products, seller);
      SellerItemsAppend(init, last, products, seller);
      var si := SellerItems(init, products, seller);
      if Owns(products, seller, last.productId) {
        DeliveredTotalAppend(si, last);
      } else {
        assert si + [] == si;
      }
    }
  }

  /** The orders holding at least one of the seller's items. */
  function SellerOrders(orders: seq<Order>, products: map<ProductId, Product>, seller: UserId): (r: seq<Order>)
    ensures |r| <= |orders|
    ensures forall o :: o in r <==> o in orders && HasSellerItem(o, products, seller)
  {
    if |orders| == 0 then []
    else
      var init := orders[..|orders| - 1];
      var last := orders[|orders| - 1];
      assert orders == init + [last];
      SellerOrders(init, products, seller) + (if HasSellerItem(last, products, seller) then [last] else [])
  }

  function Revenue(orders: seq<Order>, products: map<ProductId, Product>, seller: UserId): int
  {
    if |orders| == 0 then 0
    else Revenue(orders[..|orders| - 1], products, seller) + ItemsRevenue(orders[|orders| - 1].items, products, seller)
  }

  /** The seller's items of one order with the given status. */
  function CountWithStatus(items: seq<OrderItem>, products: map<ProductId, Product>, seller: UserId, s: SellerStatus): nat
  {
    if |items| == 0 then 0
    else
      var last := items[|items| - 1];
      CountWithStatus(items[..|items| - 1], products, seller, s)
        + (if Owns(products, seller, last.productId) && last.sellerStatus == s then 1 else 0)
  }

  function StatusCount(orders: seq<Order>, products: map<ProductId, Product>, seller: UserId, s: SellerStatus): nat
  {
    if |orders| == 0 then 0
    else StatusCount(orders[..|orders| - 1], products, seller, s) + CountWithStatus(orders[|orders| - 1].items, products, seller, s)
  }

  function SellerItemCount(orders: seq<Order>, products: map<ProductId, Product>, seller: UserId): nat
  {
    if |orders| == 0 then 0
    else SellerItemCount(orders[..|orders| - 1], products, seller) + CountSellerItems(orders[|orders| - 1].items, products, seller)
  }

  function SumOverStatuses(orders: seq<Order>, products: map<ProductId, Product>, seller: UserId): nat
  {
    StatusCount(orders, products, seller, SellerStatus.Accepted) + StatusCount(orders, products, seller, SellerStatus.Pending)
    + StatusCount(orders, products, seller, SellerStatus.Processing) + StatusCount(orders, products, seller, SellerStatus.Shipped)
    + StatusCount(orders, products, seller, SellerStatus.Delivered) + StatusCount(orders, products, seller, SellerStatus.Cancelled)
  }

  /** Each of the seller's items is counted under exactly one status. */
  lemma {:induction false} ItemStatusesPartition(items: seq<OrderItem>, products: map<ProductId, Product>, seller: UserId)
    ensures CountWithStatus(items, products, seller, SellerStatus.Accepted) + CountWithStatus(items, products, seller, SellerStatus.Pending)
          + CountWithStatus(items, products, seller, SellerStatus.Processing) + CountWithStatus(items, products, seller, SellerStatus.Shipped)
          + CountWithStatus(items, products, seller, SellerStatus.Delivered) + CountWithStatus(items, products, seller, SellerStatus.Cancelled)
          == CountSellerItems(items, products, seller)
  {
    if |items| > 0 {
      ItemStatusesPartition(items[..|items| - 1], products, seller);
    }
  }

  /** The status breakdown adds up to the number of the seller's items. */
  lemma {:induction false} BreakdownSumsToItemCount(orders: seq<Order>, products: map<ProductId, Product>, seller: UserId)
    ensures SumOverStatuses(orders, products, seller) == SellerItemCount(orders, products, seller)
  {
    if |orders| > 0 {
      BreakdownSumsToItemCount(orders[..|orders| - 1], products, seller);
      ItemStatusesPartition(orders[|orders| - 1].items, products, seller);
    }
  }

  /** Orders without the seller's items add nothing to the revenue or to
      the item count, so both may be taken over all orders or over the
      seller's orders alike. */
  lemma {:induction false} SellerOrdersRevenue(orders: seq<Order>, products: map<ProductId, Product>, seller: UserId)
    ensures Revenue(SellerOrders(orders, products, seller), products, seller) == Revenue(orders, products, seller)
  {
    if |orders| > 0 {
      var init := orders[..|orders| - 1];
      var last := orders[|orders| - 1];
      SellerOrdersRevenue(init, products, seller);
      var si := SellerOrders(init, products, seller);
      assert orders[..|orders| - 1] == init;
      if HasSellerItem(last, products, seller) {
        var s := si + [last];
        assert SellerOrders(orders, products, seller) == s;
        assert s[..|s| - 1] == si && s[|s| - 1] == last;
        assert Revenue(s, products, seller) == Revenue(si, products, seller) + ItemsRevenue(last.items, products, seller);
      } else {
        assert SellerOrders(orders, products, seller) == si;
        NoSellerItemsNoCount(last.items, products, seller);
      }
    }
  }

  lemma {:induction false} SellerOrdersItemCount(orders: seq<Order>, products: map<ProductId, Product>, seller: UserId)
    ensures SellerItemCount(SellerOrders(orders, products, seller), products, seller) == SellerItemCount(orders, products, seller)
  {
    if |orders| > 0 {
      var init := orders[..|orders| - 1];
      var last := orders[|orders| - 1];
      SellerOrdersItemCount(init, products, seller);
      var si := SellerOrders(init, products, seller);
      assert orders[..|orders| - 1] == init;
      if HasSellerItem(last, products, seller) {
        var s := si + [last];
        assert SellerOrders(orders, products, seller) == s;
        assert s[..|s| - 1] == si && s[|s| - 1] == last;
        assert SellerItemCount(s, products, seller) == SellerItemCount(si, products, seller) + CountSellerItems(last.items, products, seller);
      } else {
        assert SellerOrders(orders, products, seller) == si;
        NoSellerItemsNoCount(last.items, products, seller);
      }
    }
  }

  lemma {:induction false} NoSellerItemsNoCount(items: seq<OrderItem>, products: map<ProductId, Product>, seller: UserId)
    requires forall i :: 0 <= i < |items| ==> !Owns(products, seller, items[i].productId)
    ensures ItemsRevenue(items, products, seller) == 0 && CountSellerItems(items, products, seller) == 0
  {
    if |items| > 0 {
      NoSellerItemsNoCount(items[..|items| - 1], products, seller);
    }
  }

  datatype Analytics = Analytics(totalOrders: nat, totalRevenue: int, statusBreakdown: map<SellerStatus, nat>)

  /** An item whose product cannot be found makes the revenue reduce read
      a property of `null`, which answers 500. */
  predicate HasUnknownProduct(orders: seq<Order>, products: map<ProductId, Product>)
  {
    exists k, i :: 0 <= k < |orders| && 0 <= i < |orders[k].items| && orders[k].items[i].productId !in products
  }

  /** getSellerAnalytics without its database aggregations: the number of
      the seller's orders, the revenue of the seller's delivered items, and
      a count per status that appears among the seller's items. */
  function SellerAnalytics(orders: seq<Order>, products: map<ProductId, Product>, seller: UserId): (r: Outcome<Analytics>)
    ensures HasUnknownProduct(SellerOrders(orders, products, seller), products) <==> r == Failure(ServerError)
    ensures r.Success? ==>
      && r.value.totalOrders == |SellerOrders(orders, products, seller)|
      && r.value.totalRevenue == Revenue(orders, products, seller)
      && (forall s :: s in r.value.statusBreakdown ==>
            r.value.statusBreakdown[s] == StatusCount(SellerOrders(orders, products, seller), products, seller, s) > 0)
      && (forall s :: StatusCount(SellerOrders(orders, products, seller), products, seller, s) > 0 ==> s in r.value.statusBreakdown)
  {
    var sellerOrders := SellerOrders(orders, products, seller);
    if HasUnknownProduct(sellerOrders, products) then Failure(ServerError)
    else
      SellerOrdersRevenue(orders, products, seller);
      var all := AllSellerStatuses();
      AllSellerStatusesComplete();
      Success(Analytics(|sellerOrders|, Revenue(sellerOrders, products, seller),
                        map s | s in all && StatusCount(sellerOrders, products, seller, s) > 0 :: StatusCount(sellerOrders, products, seller, s)))
  }
}
