/** Complaints on delivered items (controllers/complaintController.js). The
    complaint sub-record is the `complaint` field the handlers assign on an
    order item. */
module ComplaintController {
  import opened Common
  import opened ProductModel
  import opened UserModel
  import opened OrderModel
  import opened Db

  // ---------------------------------------------------------------------
  // Submission
  // ---------------------------------------------------------------------

  /** The complaint recorded on submission: "Open", the refund flag as a
      boolean, the amount only when a refund is requested (0 otherwise). */
  function NewComplaint(description: Option<string>, refundRequested: bool, refundAmount: Option<int>): (c: Complaint)
    ensures c.status == ComplaintStatus.Open && c.resolvedBy == None && c.description == description
    ensures c.refundRequested == refundRequested
    ensures c.refundAmount == if refundRequested then refundAmount else Some(0)
  {
    Complaint(description, ComplaintStatus.Open, refundRequested, if refundRequested then refundAmount else Some(0), None)
  }

  /** A refund amount passes `refundAmount <= 0 || refundAmount > price * quantity`
      when it is inside (0, price × quantity]; an absent amount compares
      false both ways and passes. */
  predicate RefundAmountOk(item: OrderItem, refundAmount: Option<int>)
  {
    refundAmount.None? || 0 < refundAmount.value <= item.price * item.quantity
  }

  /** No complaint, or only a closed one. */
  predicate ComplaintSlotFree(item: OrderItem)
  {
    item.complaint.None? || item.complaint.value.status == ComplaintStatus.Closed
  }

  /** The guards of submitComplaint in their order. */
  function SubmitGuard(orders: map<OrderId, Order>, buyer: UserId, orderId: OrderId, productId: ProductId,
                       refundRequested: bool, refundAmount: Option<int>): (r: Status)
    ensures r in {Ok, NotFound, BadRequest}
    ensures r == Ok <==>
      && orderId in orders && orders[orderId].buyerId == buyer
      && FindItem(orders[orderId].items, productId) >= 0
      && var item := orders[orderId].items[FindItem(orders[orderId].items, productId)];
      && item.sellerStatus == SellerStatus.Delivered
      && ComplaintSlotFree(item)
      && (refundRequested ==> RefundAmountOk(item, refundAmount))
    ensures orderId !in orders || orders[orderId].buyerId != buyer ==> r == NotFound
  {
    if orderId !in orders || orders[orderId].buyerId != buyer then NotFound
    else
      var items := orders[orderId].items;
      var k := FindItem(items, productId);
      if k == -1 then NotFound
      else if items[k].sellerStatus != SellerStatus.Delivered then BadRequest
      else if !ComplaintSlotFree(items[k]) then BadRequest
      else if refundRequested && !RefundAmountOk(items[k], refundAmount) then BadRequest
      else Ok
  }

  /** submitComplaint: the answer is `SubmitGuard`'s; on success the first
      item with the product gets a new complaint and nothing else changes. */
  method SubmitComplaint(db: Store, buyer: UserId, orderId: OrderId, productId: ProductId, description: Option<string>,
                         refundRequested: bool, refundAmount: Option<int>) returns (st: Status)
    modifies db`orders
    ensures st == SubmitGuard(old(db.orders), buyer, orderId, productId, refundRequested, refundAmount)
    ensures st != Ok ==> db.orders == old(db.orders)
    ensures st == Ok ==>
      var o := old(db.orders)[orderId];
      var k := FindItem(o.items, productId);
      db.orders == old(db.orders)[orderId := o.(items := o.items[k := o.items[k].(complaint := Some(NewComplaint(description, refundRequested, refundAmount)))])]
  {
    if !(orderId in db.orders && db.orders[orderId].buyerId == buyer) {
      return NotFound;
    }
    var order := db.orders[orderId];
    var k := FindItem(order.items, productId);
    if k == -1 {
      return NotFound;
    }
    var item := order.items[k];
    if item.sellerStatus != SellerStatus.Delivered {
      return BadRequest;
    }
    if item.complaint.Some? && item.complaint.value.status != ComplaintStatus.Closed {
      return BadRequest;
    }
    if refundRequested && refundAmount.Some? && (refundAmount.value <= 0 || refundAmount.value > item.price * item.quantity) {
      return BadRequest;
    }
    var complaint := Complaint(description, ComplaintStatus.Open, refundRequested, if refundRequested then refundAmount else Some(0), None);
    db.orders := db.orders[orderId := order.(items := order.items[k := item.(complaint := Some(complaint))])];
    st := Ok;
  }

  // ---------------------------------------------------------------------
  // Resolution
  // ---------------------------------------------------------------------

  /** The resolutions a seller may choose. */
  predicate AllowedResolution(r: Option<ComplaintStatus>)
  {
    r.Some? && r.value != ComplaintStatus.Open
  }

  predicate IsRefundResolution(r: ComplaintStatus)
  {
    r == ComplaintStatus.RefundApproved || r == ComplaintStatus.RefundRejected
  }

  /** `order.items.find(i => i.productId._id.toString() === productId)` after
      a populate: the search stops with 500 at the first item whose product
      no longer exists (its `productId` is `null`), and otherwise finds the
      first item with the product. */
  function LocateItem(items: seq<OrderItem>, products: map<ProductId, Product>, productId: ProductId): (r: Outcome<nat>)
    ensures r.Success? ==> r.value < |items| && r.value == FindItem(items, productId)
    ensures r.Success? ==> forall i :: 0 <= i <= r.value ==> items[i].productId in products
    ensures r.Failure? ==> r.status in {NotFound, ServerError}
    ensures r == Failure(NotFound) ==> forall i :: 0 <= i < |items| ==> items[i].productId in products && items[i].productId != productId
    ensures (forall i :: 0 <= i < |items| ==> items[i].productId in products) ==>
      r == if FindItem(items, productId) == -1 then Failure(NotFound) else Success(FindItem(items, productId) as nat)
    ensures FindItem(items, productId) >= 0 && (forall i :: 0 <= i <= FindItem(items, productId) ==> items[i].productId in products) ==>
      r == Success(FindItem(items, productId) as nat)
  {
    if |items| == 0 then Failure(NotFound)
    else
      var init := items[..|items| - 1];
      var last := items[|items| - 1];
      var prev := LocateItem(init, products, productId);
      assert forall i :: 0 <= i < |init| ==> init[i] == items[i];
      if prev != Failure(NotFound) then prev
      else if last.productId !in products then Failure(ServerError)
      else if last.productId == productId then Success(|items| - 1)
      else Failure(NotFound)
  }

  /** The guards of resolveComplaint in their order. */
  function ResolveGuard(orders: map<OrderId, Order>, products: map<ProductId, Product>, seller: UserId, orderId: OrderId,
                        productId: ProductId, resolution: Option<ComplaintStatus>): (r: Status)
    ensures r in {Ok, BadRequest, NotFound, Forbidden, ServerError}
    ensures r == Ok <==>
      && AllowedResolution(resolution)
      && orderId in orders
      && LocateItem(orders[orderId].items, products, productId).Success?
      && var item := orders[orderId].items[LocateItem(orders[orderId].items, products, productId).value];
      && products[item.productId].sellerId == seller
      && item.sellerStatus == SellerStatus.Delivered
      && item.complaint.Some? && item.complaint.value.status == ComplaintStatus.Open
      && (IsRefundResolution(resolution.value) ==> item.complaint.value.refundRequested)
  {
    if !AllowedResolution(resolution) then BadRequest
    else if orderId !in orders then NotFound
    else
      var items := orders[orderId].items;
      match LocateItem(items, products, productId)
      case Failure(s) => s
      case Success(k) =>
        var item := items[k];
        if products[item.productId].sellerId != seller then Forbidden
        else if item.sellerStatus != SellerStatus.Delivered then BadRequest
        else if item.complaint.None? || item.complaint.value.status != ComplaintStatus.Open then BadRequest
        else if IsRefundResolution(resolution.value) && !item.complaint.value.refundRequested then BadRequest
        else Ok
  }

  /** resolveComplaint: the answer is `ResolveGuard`'s; on success the
      complaint takes the resolution and records the seller, and nothing
      else changes. */
  method ResolveComplaint(db: Store, seller: UserId, orderId: OrderId, productId: ProductId, resolution: Option<ComplaintStatus>)
    returns (st: Status)
    modifies db`orders
    ensures st == ResolveGuard(old(db.orders), db.products, seller, orderId, productId, resolution)
    ensures st != Ok ==> db.orders == old(db.orders)
    ensures st == Ok ==>
      var o := old(db.orders)[orderId];
      var k := FindItem(o.items, productId);
      db.orders == old(db.orders)[orderId := o.(items := o.items[k := o.items[k].(complaint :=
        Some(o.items[k].complaint.value.(status := resolution.value, resolvedBy := Some(seller))))])]
  {
    if !(resolution.Some? && resolution.value != ComplaintStatus.Open) {
      return BadRequest;
    }
    if orderId !in db.orders {
      return NotFound;
    }
    var order := db.orders[orderId];
    var located := LocateItem(order.items, db.products, productId);
    if located.Failure? {
      return located.status;
    }
    var k := located.value;
    var item := order.items[k];
    if db.products[item.productId].sellerId != seller {
      return Forbidden;
    }
    if item.sellerStatus != SellerStatus.Delivered {
      return BadRequest;
    }
    if item.complaint.None? || item.complaint.value.status != ComplaintStatus.Open {
      return BadRequest;
    }
    var r := resolution.value;
    if (r == ComplaintStatus.RefundApproved || r == ComplaintStatus.RefundRejected) && !item.complaint.value.refundRequested {
      return BadRequest;
    }
    var complaint := item.complaint.value.(status := r, resolvedBy := Some(seller));
    db.orders := db.orders[orderId := order.(items := order.items[k := item.(complaint := Some(complaint))])];
    st := Ok;
  }

  /** Recording a complaint on the item found leaves the search result
      unchanged. */
  lemma LocateAfterComplaint(items: seq<OrderItem>, products: map<ProductId, Product>, productId: ProductId,
                             c: Option<Complaint>)
    requires forall i :: 0 <= i < |items| ==> items[i].productId in products
    requires FindItem(items, productId) >= 0
    ensures var k := FindItem(items, productId);
      LocateItem(items[k := items[k].(complaint := c)], products, productId) == Success(k as nat)
  {
    var k := FindItem(items, productId);
    var items' := items[k := items[k].(complaint := c)];
    assert forall i :: 0 <= i < |items'| ==> items'[i].productId == items[i].productId;
    assert FindItem(items', productId) == k;
  }

  /** A complaint just submitted can be resolved by the product's seller;
      a refund resolution exactly when a refund was requested. */
  lemma SubmittedComplaintIsResolvable(orders: map<OrderId, Order>, products: map<ProductId, Product>, buyer: UserId,
                                       orderId: OrderId, productId: ProductId, description: Option<string>,
                                       refundRequested: bool, refundAmount: Option<int>, resolution: ComplaintStatus)
    requires SubmitGuard(orders, buyer, orderId, productId, refundRequested, refundAmount) == Ok
    requires forall i :: 0 <= i < |orders[orderId].items| ==> orders[orderId].items[i].productId in products
    requires resolution != ComplaintStatus.Open
    ensures var o := orders[orderId];
      var k := FindItem(o.items, productId);
      var orders' := orders[orderId := o.(items := o.items[k := o.items[k].(complaint := Some(NewComplaint(description, refundRequested, refundAmount)))])];
      (ResolveGuard(orders', products, products[productId].sellerId, orderId, productId, Some(resolution)) == Ok)
        == (!IsRefundResolution(resolution) || refundRequested)
  {
    var o := orders[orderId];
    var k := FindItem(o.items, productId);
    var items' := o.items[k := o.items[k].(complaint := Some(NewComplaint(description, refundRequested, refundAmount)))];
    var orders' := orders[orderId := o.(items := items')];
    LocateAfterComplaint(o.items, products, productId, Some(NewComplaint(description, refundRequested, refundAmount)));
    assert LocateItem(orders'[orderId].items, products, productId) == Success(k as nat);
    var item := items'[k];
    assert item.productId == productId && item.sellerStatus == SellerStatus.Delivered;
    assert item.complaint == Some(NewComplaint(description, refundRequested, refundAmount));
  }

  // ---------------------------------------------------------------------
  // The admin's complaint list
  // ---------------------------------------------------------------------

  /** One complaint as the admin list reports it. */
  datatype ComplaintEntry = ComplaintEntry(orderId: OrderId, buyerId: UserId, productId: ProductId, quantity: int,
                                           sellerStatus: SellerStatus, complaint: Complaint)

  function EntryOf(id: OrderId, o: Order, item: OrderItem): ComplaintEntry
    requires item.complaint.Some?
  {
    ComplaintEntry(id, o.buyerId, item.productId, item.quantity, item.sellerStatus, item.complaint.value)
  }

  /** `order.items.filter(item => item.complaint).map(...)`. */
  function OrderComplaints(id: OrderId, o: Order, items: seq<OrderItem>): (r: seq<ComplaintEntry>)
    ensures |r| <= |items|
    ensures forall e :: e in r ==> e.orderId == id && e.buyerId == o.buyerId
    ensures forall i :: 0 <= i < |items| && items[i].complaint.Some? ==> EntryOf(id, o, items[i]) in r
    ensures forall e :: e in r ==> exists i :: 0 <= i < |items| && items[i].complaint.Some? && e == EntryOf(id, o, items[i])
  {
    if |items| == 0 then []
    else
      var init := items[..|items| - 1];
      var last := items[|items| - 1];
      assert forall i :: 0 <= i < |init| ==> init[i] == items[i];
      OrderComplaints(id, o, init) + (if last.complaint.Some? then [EntryOf(id, o, last)] else [])
  }

  /** The positions of the items that carry a complaint. */
  function ComplaintIndices(items: seq<OrderItem>): set<nat>
  {
    set i: nat | i < |items| && items[i].complaint.Some?
  }

  /** The positions with a complaint gain the last one when it has one. */
  lemma ComplaintIndicesSnoc(items: seq<OrderItem>)
    requires |items| > 0
    ensures var n := |items| - 1;
      |ComplaintIndices(items)| == |ComplaintIndices(items[..n])| + (if items[n].complaint.Some? then 1 else 0)
  {
    var n := |items| - 1;
    var s, t := ComplaintIndices(items[..n]), ComplaintIndices(items);
    forall i: nat ensures i in t <==> i in s || (i == n && items[n].complaint.Some?) {
      if i < n {
        assert items[..n][i] == items[i];
      }
    }
    if items[n].complaint.Some? {
      assert t == s + {n};
      assert n !in s;
    } else {
      assert t == s;
    }
  }

  /** One entry per item with a complaint. */
  lemma {:induction false} OrderComplaintsCount(id: OrderId, o: Order, items: seq<OrderItem>)
    ensures |OrderComplaints(id, o, items)| == |ComplaintIndices(items)|
  {
    if |items| > 0 {
      var n := |items| - 1;
      OrderComplaintsCount(id, o, items[..n]);
      ComplaintIndicesSnoc(items);
    }
  }

  /** The `flatMap` over the orders, in order. */
  function AllComplaints(orders: seq<(OrderId, Order)>): (r: seq<ComplaintEntry>)
    ensures forall k, i :: 0 <= k < |orders| && 0 <= i < |orders[k].1.items| && orders[k].1.items[i].complaint.Some? ==>
      EntryOf(orders[k].0, orders[k].1, orders[k].1.items[i]) in r
    ensures forall e :: e in r ==>
      (exists k, i :: 0 <= k < |orders| && 0 <= i < |orders[k].1.items|
                      && orders[k].1.items[i].complaint.Some? && e == EntryOf(orders[k].0, orders[k].1, orders[k].1.items[i]))
  {
    if |orders| == 0 then []
    else
      var init := orders[..|orders| - 1];
      var last := orders[|orders| - 1];
      assert forall k :: 0 <= k < |init| ==> init[k] == orders[k];
      AllComplaints(init) + OrderComplaints(last.0, last.1, last.1.items)
  }

  /** The number of items with a complaint, over all orders. */
  function ComplaintTotal(orders: seq<(OrderId, Order)>): nat
  {
    if |orders| == 0 then 0
    else ComplaintTotal(orders[..|orders| - 1]) + |ComplaintIndices(orders[|orders| - 1].1.items)|
  }

  /** The list has one entry per item with a complaint, so the reported
      total is the number of complaints. */
  lemma {:induction false} AllComplaintsCount(orders: seq<(OrderId, Order)>)
    ensures |AllComplaints(orders)| == ComplaintTotal(orders)
  {
    if |orders| > 0 {
      var last := orders[|orders| - 1];
      AllComplaintsCount(orders[..|orders| - 1]);
      OrderComplaintsCount(last.0, last.1, last.1.items);
    }
  }

  /** `parseInt(x) || d`: an absent or unparsable value, or 0, gives the
      default. */
  function OrDefault(x: Option<int>, d: int): int
  {
    if x.None? || x.value == 0 then d else x.value
  }

  /** `slice((page - 1) * limit, (page - 1) * limit + limit)`. */
  function Page<T>(xs: seq<T>, page: int, limit: int): (r: seq<T>)
    requires page >= 1 && limit >= 1
    ensures |r| <= limit
    ensures (page - 1) * limit < |xs| ==> |r| > 0
    ensures forall i :: 0 <= i < |r| ==> (page - 1) * limit + i < |xs| && r[i] == xs[(page - 1) * limit + i]
  {
    var start := (page - 1) * limit;
    if start >= |xs| then []
    else xs[start .. if start + limit <= |xs| then start + limit else |xs|]
  }

  /** Every complaint is on exactly one page: position k is entry
      `k % limit` of page `k / limit + 1`. */
  lemma EveryComplaintOnItsPage<T>(xs: seq<T>, limit: int, k: nat)
    requires limit >= 1 && k < |xs|
    ensures var p := Page(xs, k / limit + 1, limit);
      k % limit < |p| && p[k % limit] == xs[k]
  {
    var page := k / limit + 1;
    assert (page - 1) * limit + k % limit == k;
    var p := Page(xs, page, limit);
    assert (page - 1) * limit <= k;
    assert |p| == (if (page - 1) * limit + limit <= |xs| then limit else |xs| - (page - 1) * limit);
  }

  datatype ComplaintPage = ComplaintPage(data: seq<ComplaintEntry>, page: int, limit: int, total: nat)

  /** getAllComplaints: 403 unless the caller is an admin, 400 when page
      or limit is below 1 after the defaults; otherwise the requested page
      and the full count. */
  function GetAllComplaints(role: Role, page: Option<int>, limit: Option<int>, orders: seq<(OrderId, Order)>): (r: Outcome<ComplaintPage>)
    ensures role != Admin ==> r == Failure(Forbidden)
    ensures role == Admin && (OrDefault(page, 1) < 1 || OrDefault(limit, 10) < 1) ==> r == Failure(BadRequest)
    ensures r.Success? ==>
      && r.value.page == OrDefault(page, 1) >= 1 && r.value.limit == OrDefault(limit, 10) >= 1
      && r.value.total == |AllComplaints(orders)| == ComplaintTotal(orders)
      && |r.value.data| <= r.value.limit
      && r.value.data == Page(AllComplaints(orders), r.value.page, r.value.limit)
    ensures r.Success? <==> role == Admin && OrDefault(page, 1) >= 1 && OrDefault(limit, 10) >= 1
  {
    if role != Admin then Failure(Forbidden)
    else
      var p := OrDefault(page, 1);
      var l := OrDefault(limit, 10);
      if p < 1 || l < 1 then Failure(BadRequest)
      else
        var complaints := AllComplaints(orders);
        AllComplaintsCount(orders);
        Success(ComplaintPage(Page(complaints, p, l), p, l, |complaints|))
  }
}
