/** The courier's handlers (controllers/courierController.js). They read and
    write the order-level `courierDetails`, `courierStatus` and
    `statusHistory`. */
module CourierController {
  import opened Common
  import opened UserModel
  import opened OrderModel
  import opened Db

  /** The courier check shared by the handlers: the user exists, has role
      "courier" and has a region. */
  predicate ValidCourier(users: map<UserId, User>, courier: UserId)
  {
    courier in users && users[courier].role == Courier && users[courier].region.Some?
  }

  /** The `$or` query: the order is assigned to this courier, or it is
      unassigned, shipped and in the courier's region. */
  predicate Accessible(o: Order, courier: UserId, region: District)
  {
    o.courierDetails.courierId == Some(courier)
    || (o.shippingAddress.district == region && o.courierDetails.courierId == None && o.status == OrderStatus.Shipped)
  }

  /** getCourierOrders without the populate: the accessible orders, in
      order. */
  function CourierOrders(orders: seq<Order>, courier: UserId, region: District): (r: seq<Order>)
    ensures |r| <= |orders|
    ensures forall o :: o in r <==> o in orders && Accessible(o, courier, region)
  {
    if |orders| == 0 then []
    else
      var init := orders[..|orders| - 1];
      var last := orders[|orders| - 1];
      assert orders == init + [last];
      CourierOrders(init, courier, region) + (if Accessible(last, courier, region) then [last] else [])
  }

  /** getCourierOrderById: 400 for an invalid courier, 404 for an order that
      is missing or not accessible. */
  function CourierOrderById(users: map<UserId, User>, orders: map<OrderId, Order>, courier: UserId, id: OrderId): (r: Outcome<Order>)
    ensures !ValidCourier(users, courier) ==> r == Failure(BadRequest)
    ensures r.Success? <==> ValidCourier(users, courier) && id in orders && Accessible(orders[id], courier, users[courier].region.value)
    ensures r.Success? ==> r.value == orders[id]
    ensures r.Failure? ==> r.status in {BadRequest, NotFound}
  {
    if !ValidCourier(users, courier) then Failure(BadRequest)
    else if id !in orders || !Accessible(orders[id], courier, users[courier].region.value) then Failure(NotFound)
    else Success(orders[id])
  }

  // ---------------------------------------------------------------------
  // Status updates
  // ---------------------------------------------------------------------

  /** The five statuses a courier may set: any but "Pending", in any
      order. */
  predicate AllowedCourierUpdate(s: Option<CourierStatus>)
  {
    s.Some? && s.value != CourierStatus.Pending
  }

  /** The guards of updateCourierStatus in their order; Ok when all pass. */
  function UpdateGuard(users: map<UserId, User>, orders: map<OrderId, Order>, courier: UserId, id: OrderId,
                       status: Option<CourierStatus>, reason: Option<string>): (r: Status)
    ensures r in {Ok, BadRequest, NotFound}
    ensures r == Ok <==>
      && AllowedCourierUpdate(status)
      && (status.value == CourierStatus.FailedDelivery ==> Truthy(reason))
      && ValidCourier(users, courier)
      && id in orders && Accessible(orders[id], courier, users[courier].region.value)
  {
    if !AllowedCourierUpdate(status) then BadRequest
    else if status.value == CourierStatus.FailedDelivery && !Truthy(reason) then BadRequest
    else if !ValidCourier(users, courier) then BadRequest
    else if id !in orders || !Accessible(orders[id], courier, users[courier].region.value) then NotFound
    else Ok
  }

  function CourierEntry(status: string, courier: UserId): HistoryEntry
  {
    HistoryEntry(status, CourierActor, Some(courier))
  }

  /** The history message of an update, with the reason when one is given. */
  function UpdateMessage(s: CourierStatus, reason: Option<string>): string
  {
    "Courier updated to " + CourierStatusName(s) + (if Truthy(reason) then ": " + reason.value else "")
  }

  /** Whether an update claims the order: it is unassigned and the status
      is "Picked Up". */
  predicate Claims(o: Order, s: CourierStatus)
  {
    o.courierDetails.courierId == None && s == CourierStatus.PickedUp
  }

  /** The order after a successful update. */
  function CourierUpdated(o: Order, courier: UserId, s: CourierStatus, reason: Option<string>, generatedTracking: string): Order
  {
    var details := if Claims(o, s)
      then CourierDetails(Some(courier), OrElse(o.courierDetails.trackingNumber, Some(generatedTracking)))
      else o.courierDetails;
    var history := o.statusHistory + (if Claims(o, s) then [CourierEntry("Courier assigned", courier)] else [])
                   + [CourierEntry(UpdateMessage(s, reason), courier)];
    var o' := o.(courierDetails := details, courierStatus := s, statusHistory := history);
    match s
    case Delivered => o'.(status := OrderStatus.Delivered, statusHistory := history + [SystemEntry("Order status updated to Delivered")])
    case FailedDelivery => o'.(status := OrderStatus.Shipped, statusHistory := history + [SystemEntry("Order status reverted to Shipped due to failure")])
    case PickedUp => o'.(status := OrderStatus.Shipped, statusHistory := history + [SystemEntry("Order status confirmed as Shipped")])
    case _ => o'
  }

  /** What a successful update promises: the courier status is the one
      asked for; a claim assigns the caller and keeps an existing tracking
      number; the update's own entry is logged after any claim entry;
      "Delivered" makes the order "Delivered", "Failed Delivery" and
      "Picked Up" make it "Shipped", and the other two leave it as it was.
      Items, total and address are untouched, and after the update the
      order is assigned to the caller or, when it was unassigned and the
      status is not "Picked Up", still unassigned. */
  lemma CourierUpdatedSpec(o: Order, courier: UserId, s: CourierStatus, reason: Option<string>, generatedTracking: string)
    requires o.courierDetails.courierId == Some(courier) || o.courierDetails.courierId == None
    ensures var r := CourierUpdated(o, courier, s, reason, generatedTracking);
      var n := |o.statusHistory| + (if Claims(o, s) then 1 else 0);
      && r.courierStatus == s
      && r.items == o.items && r.total == o.total && r.shippingAddress == o.shippingAddress && r.buyerId == o.buyerId
      && (Claims(o, s) ==>
            && r.courierDetails.courierId == Some(courier)
            && (Truthy(o.courierDetails.trackingNumber) ==> r.courierDetails.trackingNumber == o.courierDetails.trackingNumber)
            && r.statusHistory[|o.statusHistory|] == CourierEntry("Courier assigned", courier))
      && (!Claims(o, s) ==> r.courierDetails == o.courierDetails)
      && (r.courierDetails.courierId == Some(courier) || r.courierDetails.courierId == None)
      && r.statusHistory[..|o.statusHistory|] == o.statusHistory
      && |r.statusHistory| > n && r.statusHistory[n] == CourierEntry(UpdateMessage(s, reason), courier)
      && (s == CourierStatus.Delivered ==> r.status == OrderStatus.Delivered)
      && (s == CourierStatus.FailedDelivery || s == CourierStatus.PickedUp ==> r.status == OrderStatus.Shipped)
      && (s == CourierStatus.InTransit || s == CourierStatus.OutForDelivery ==>
            r.status == o.status && |r.statusHistory| == n + 1)
  {
  }

  /** updateCourierStatus. The answer is that of `UpdateGuard`; in
      particular an order assigned to another courier fails the `$or`
      query and answers 404, so the source's 403 branch is never taken.
      Only on success is the order saved, as `CourierUpdated`. */
  method UpdateCourierStatus(db: Store, courier: UserId, orderId: OrderId, status: Option<CourierStatus>,
                             reason: Option<string>, generatedTracking: string) returns (st: Status)
    modifies db`orders
    ensures st == UpdateGuard(db.users, old(db.orders), courier, orderId, status, reason)
    ensures st != Ok ==> db.orders == old(db.orders)
    ensures st == Ok ==>
      db.orders == old(db.orders)[orderId := CourierUpdated(old(db.orders)[orderId], courier, status.value, reason, generatedTracking)]
  {
    if !(status.Some? && status.value != CourierStatus.Pending) {
      return BadRequest;
    }
    var s := status.value;
    if s == CourierStatus.FailedDelivery && !(reason.Some? && reason.value != "") {
      return BadRequest;
    }
    if !(courier in db.users && db.users[courier].role == Courier && db.users[courier].region.Some?) {
      return BadRequest;
    }
    var region := db.users[courier].region.value;
    if !(orderId in db.orders && Accessible(db.orders[orderId], courier, region)) {
      return NotFound;
    }
    var order := db.orders[orderId];
    var details := order.courierDetails;
    var history := order.statusHistory;
    assert history + [] == history;
    if details.courierId.None? && s == CourierStatus.PickedUp {
      details := CourierDetails(Some(courier), OrElse(details.trackingNumber, Some(generatedTracking)));
      history := history + [CourierEntry("Courier assigned", courier)];
    }
    if details.courierId.Some? && details.courierId.value != courier {
      return Forbidden;
    }
    history := history + [CourierEntry(UpdateMessage(s, reason), courier)];
    var orderStatus := order.status;
    if s == CourierStatus.Delivered {
      orderStatus := OrderStatus.Delivered;
      history := history + [SystemEntry("Order status updated to Delivered")];
    } else if s == CourierStatus.FailedDelivery {
      orderStatus := OrderStatus.Shipped;
      history := history + [SystemEntry("Order status reverted to Shipped due to failure")];
    } else if s == CourierStatus.PickedUp {
      orderStatus := OrderStatus.Shipped;
      history := history + [SystemEntry("Order status confirmed as Shipped")];
    }
    db.orders := db.orders[orderId := order.(courierDetails := details, courierStatus := s, status := orderStatus, statusHistory := history)];
    st := Ok;
  }

  /** reportDeliveryIssue: 400 without a reason, 404 unless the order is
      assigned to the caller; otherwise the courier status becomes "Failed
      Delivery", the order "Shipped", and two entries are logged. */
  method ReportDeliveryIssue(db: Store, courier: UserId, orderId: OrderId, reason: Option<string>) returns (st: Status)
    modifies db`orders
    ensures !Truthy(reason) ==> st == BadRequest
    ensures Truthy(reason) && (orderId !in old(db.orders) || old(db.orders)[orderId].courierDetails.courierId != Some(courier)) ==> st == NotFound
    ensures st == Ok <==> Truthy(reason) && orderId in old(db.orders) && old(db.orders)[orderId].courierDetails.courierId == Some(courier)
    ensures st != Ok ==> db.orders == old(db.orders)
    ensures st == Ok ==>
      var o := old(db.orders)[orderId];
      db.orders == old(db.orders)[orderId := o.(
        courierStatus := CourierStatus.FailedDelivery,
        status := OrderStatus.Shipped,
        statusHistory := o.statusHistory + [CourierEntry("Delivery failed: " + reason.value, courier),
                                            SystemEntry("Order status reverted to Shipped due to failure")])]
  {
    if !(reason.Some? && reason.value != "") {
      return BadRequest;
    }
    if !(orderId in db.orders && db.orders[orderId].courierDetails.courierId == Some(courier)) {
      return NotFound;
    }
    var order := db.orders[orderId];
    var history := order.statusHistory + [CourierEntry("Delivery failed: " + reason.value, courier)];
    history := history + [SystemEntry("Order status reverted to Shipped due to failure")];
    assert history == order.statusHistory + [CourierEntry("Delivery failed: " + reason.value, courier),
                                              SystemEntry("Order status reverted to Shipped due to failure")];
    db.orders := db.orders[orderId := order.(courierStatus := CourierStatus.FailedDelivery, status := OrderStatus.Shipped, statusHistory := history)];
    st := Ok;
  }

  // ---------------------------------------------------------------------
  // Dashboard counts
  // ---------------------------------------------------------------------

  datatype Summary = Summary(totalOrders: nat, pending: nat, pickedUp: nat, inTransit: nat,
                             outForDelivery: nat, delivered: nat, failed: nat)

  /** `orders.filter(o => o.courierStatus === s).length`. */
  function CountStatus(orders: seq<Order>, s: CourierStatus): nat
  {
    if |orders| == 0 then 0
    else CountStatus(orders[..|orders| - 1], s) + (if orders[|orders| - 1].courierStatus == s then 1 else 0)
  }

  /** The six counts cover every order exactly once. */
  lemma {:induction false} CountsPartition(orders: seq<Order>)
    ensures CountStatus(orders, CourierStatus.Pending) + CountStatus(orders, CourierStatus.PickedUp)
          + CountStatus(orders, CourierStatus.InTransit) + CountStatus(orders, CourierStatus.OutForDelivery)
          + CountStatus(orders, CourierStatus.Delivered) + CountStatus(orders, CourierStatus.FailedDelivery) == |orders|
  {
    if |orders| > 0 {
      CountsPartition(orders[..|orders| - 1]);
    }
  }

  function Summarize(orders: seq<Order>): (r: Summary)
    ensures r.totalOrders == |orders|
    ensures r.pending + r.pickedUp + r.inTransit + r.outForDelivery + r.delivered + r.failed == r.totalOrders
    ensures r.pending == CountStatus(orders, CourierStatus.Pending) && r.pickedUp == CountStatus(orders, CourierStatus.PickedUp)
    ensures r.inTransit == CountStatus(orders, CourierStatus.InTransit) && r.outForDelivery == CountStatus(orders, CourierStatus.OutForDelivery)
    ensures r.delivered == CountStatus(orders, CourierStatus.Delivered) && r.failed == CountStatus(orders, CourierStatus.FailedDelivery)
  {
    CountsPartition(orders);
    Summary(|orders|, CountStatus(orders, CourierStatus.Pending), CountStatus(orders, CourierStatus.PickedUp),
            CountStatus(orders, CourierStatus.InTransit), CountStatus(orders, CourierStatus.OutForDelivery),
            CountStatus(orders, CourierStatus.Delivered), CountStatus(orders, CourierStatus.FailedDelivery))
  }

  /** getCourierDashboard: 400 for an invalid courier; otherwise the counts
      over the accessible orders, each at most the total and adding up to
      it. */
  function CourierDashboard(users: map<UserId, User>, orders: seq<Order>, courier: UserId): (r: Outcome<Summary>)
    ensures r.Failure? <==> !ValidCourier(users, courier)
    ensures r.Failure? ==> r.status == BadRequest
    ensures r.Success? ==> r.value == Summarize(CourierOrders(orders, courier, users[courier].region.value))
    ensures r.Success? ==>
      && r.value.totalOrders <= |orders|
      && r.value.pending + r.value.pickedUp + r.value.inTransit + r.value.outForDelivery + r.value.delivered + r.value.failed == r.value.totalOrders
  {
    if !ValidCourier(users, courier) then Failure(BadRequest)
    else Success(Summarize(CourierOrders(orders, courier, users[courier].region.value)))
  }

  /** The orders assigned to the courier. */
  function AssignedOrders(orders: seq<Order>, courier: UserId): (r: seq<Order>)
    ensures forall o :: o in r <==> o in orders && o.courierDetails.courierId == Some(courier)
  {
    if |orders| == 0 then []
    else
      var init := orders[..|orders| - 1];
      var last := orders[|orders| - 1];
      assert orders == init + [last];
      AssignedOrders(init, courier) + (if last.courierDetails.courierId == Some(courier) then [last] else [])
  }

  /** The status breakdown of getCourierAnalytics: the user must be a
      courier (a region is not required here), and the counts are over the
      orders assigned to them. */
  function CourierBreakdown(users: map<UserId, User>, orders: seq<Order>, courier: UserId): (r: Outcome<Summary>)
    ensures r.Failure? <==> courier !in users || users[courier].role != Courier
    ensures r.Failure? ==> r.status == BadRequest
    ensures r.Success? ==> r.value == Summarize(AssignedOrders(orders, courier))
  {
    if courier !in users || users[courier].role != Courier then Failure(BadRequest)
    else Success(Summarize(AssignedOrders(orders, courier)))
  }
}
