/** The order record (models/Order.js) together with the order-level
    courier fields that the seller and courier handlers read and write. */
module OrderModel {
  import opened Common

  /** Item seller status (models/Order.js:75-79), default "Pending". */
  datatype SellerStatus = Accepted | Pending | Processing | Shipped | Delivered | Cancelled

  /** Item and order courier status (models/Order.js:84-88), default "Pending". */
  datatype CourierStatus = Pending | PickedUp | InTransit | OutForDelivery | Delivered | FailedDelivery

  /** Order status (models/Order.js:103-107), default "Pending". */
  datatype OrderStatus = Pending | Confirmed | Shipped | Accepted | Delivered | Cancelled

  /** The enum strings of models/Order.js, as the handlers write them into
      history messages. */
  function SellerStatusName(s: SellerStatus): string
  {
    match s
    case Accepted => "Accepted"
    case Pending => "Pending"
    case Processing => "Processing"
    case Shipped => "Shipped"
    case Delivered => "Delivered"
    case Cancelled => "Cancelled"
  }

  function AllSellerStatuses(): set<SellerStatus>
  {
    {SellerStatus.Accepted, SellerStatus.Pending, SellerStatus.Processing,
     SellerStatus.Shipped, SellerStatus.Delivered, SellerStatus.Cancelled}
  }

  lemma AllSellerStatusesComplete()
    ensures forall s: SellerStatus :: s in AllSellerStatuses()
  {
    forall s: SellerStatus ensures s in AllSellerStatuses() {
      match s
      case Accepted => case Pending => case Processing =>
      case Shipped => case Delivered => case Cancelled =>
    }
  }

  function CourierStatusName(s: CourierStatus): string
  {
    match s
    case Pending => "Pending"
    case PickedUp => "Picked Up"
    case InTransit => "In Transit"
    case OutForDelivery => "Out for Delivery"
    case Delivered => "Delivered"
    case FailedDelivery => "Failed Delivery"
  }

  /** The role recorded in a history entry (models/Order.js:92). */
  datatype ActorRole = SellerActor | CourierActor | BuyerActor | SystemActor

  /** One status-history entry; timestamps are not modelled. */
  datatype HistoryEntry = HistoryEntry(status: string, role: ActorRole, userId: Option<UserId>)

  datatype CourierDetails = CourierDetails(courierId: Option<UserId>, trackingNumber: Option<string>)

  /** A complaint's status: "Open" on submission, then one of the four
      resolutions. */
  datatype ComplaintStatus = Open | Resolved | Closed | RefundApproved | RefundRejected

  /** The complaint sub-record the complaint handlers attach to an item.
      `refundAmount` is None when a refund was requested without an amount. */
  datatype Complaint = Complaint(
    description: Option<string>,
    status: ComplaintStatus,
    refundRequested: bool,
    refundAmount: Option<int>,
    resolvedBy: Option<UserId>)

  datatype OrderItem = OrderItem(
    productId: ProductId,
    quantity: int,
    price: int,
    sellerStatus: SellerStatus,
    courierDetails: CourierDetails,
    courierStatus: CourierStatus,
    statusHistory: seq<HistoryEntry>,
    complaint: Option<Complaint>)

  /** District is required and is one of the listed districts
      (models/Order.js:111-121); the other fields are free strings. */
  datatype ShippingAddress = ShippingAddress(
    street: Option<string>,
    city: Option<string>,
    district: District,
    country: Option<string>,
    postalCode: Option<string>)

  /** An order. `courierDetails`, `courierStatus` and `statusHistory` at
      order level are the fields the seller and courier handlers use. */
  datatype Order = Order(
    buyerId: UserId,
    items: seq<OrderItem>,
    total: int,
    status: OrderStatus,
    shippingAddress: ShippingAddress,
    courierDetails: CourierDetails,
    courierStatus: CourierStatus,
    statusHistory: seq<HistoryEntry>)

  /** The schema's validator on items: quantity at least 1 (models/Order.js:73). */
  predicate ValidItems(items: seq<OrderItem>)
  {
    forall i :: 0 <= i < |items| ==> items[i].quantity >= 1
  }

  predicate ValidOrders(orders: map<OrderId, Order>)
  {
    forall id :: id in orders ==> ValidItems(orders[id].items)
  }

  function SystemEntry(status: string): HistoryEntry
  {
    HistoryEntry(status, SystemActor, None)
  }

  /** A line price: unit price times quantity. */
  function LineAmount(item: OrderItem): int
  {
    item.price * item.quantity
  }

  /** `items.reduce((sum, item) => sum + item.price * item.quantity, 0)`. */
  function Total(items: seq<OrderItem>): int
  {
    if |items| == 0 then 0 else Total(items[..|items| - 1]) + LineAmount(items[|items| - 1])
  }

  /** The recomputed total of cancelOrder: the same sum over items that are
      not cancelled. */
  function ActiveTotal(items: seq<OrderItem>): int
  {
    if |items| == 0 then 0
    else
      var last := items[|items| - 1];
      ActiveTotal(items[..|items| - 1]) + (if last.sellerStatus != SellerStatus.Cancelled then LineAmount(last) else 0)
  }

  /** `items.findIndex(item => item.productId === id)`. */
  function FindItem(items: seq<OrderItem>, id: ProductId): (r: int)
    ensures -1 <= r < |items|
    ensures r == -1 <==> forall i :: 0 <= i < |items| ==> items[i].productId != id
    ensures r >= 0 ==> items[r].productId == id && forall i :: 0 <= i < r ==> items[i].productId != id
  {
    var ids := seq(|items|, i requires 0 <= i < |items| => items[i].productId);
    assert forall i :: 0 <= i < |items| ==> ids[i] == items[i].productId;
    FirstIndexOf(ids, id)
  }

  /** The quantity the items of an order hold of one product. */
  function QuantityOf(items: seq<OrderItem>, id: ProductId): int
  {
    if |items| == 0 then 0
    else QuantityOf(items[..|items| - 1], id) + (if items[|items| - 1].productId == id then items[|items| - 1].quantity else 0)
  }

  /** Sums, like the `reduce` calls they model, are taken over prefixes;
      these lemmas let a loop extend them by one element. */
  lemma TotalAppend(items: seq<OrderItem>, x: OrderItem)
    ensures Total(items + [x]) == Total(items) + LineAmount(x)
  {
    assert (items + [x])[..|items|] == items;
  }

  lemma ActiveTotalAppend(items: seq<OrderItem>, x: OrderItem)
    ensures ActiveTotal(items + [x]) == ActiveTotal(items) + (if x.sellerStatus != SellerStatus.Cancelled then LineAmount(x) else 0)
  {
    assert (items + [x])[..|items|] == items;
  }

  lemma QuantityOfAppend(items: seq<OrderItem>, x: OrderItem, id: ProductId)
    ensures QuantityOf(items + [x], id) == QuantityOf(items, id) + (if x.productId == id then x.quantity else 0)
  {
    assert (items + [x])[..|items|] == items;
  }

  /** A total counts each non-cancelled item at most once: if every item is
      cancelled the recomputed total is 0, and if none is it equals the
      creation total. */
  lemma {:induction false} ActiveTotalBounds(items: seq<OrderItem>)
    ensures (forall i :: 0 <= i < |items| ==> items[i].sellerStatus == SellerStatus.Cancelled) ==> ActiveTotal(items) == 0
    ensures (forall i :: 0 <= i < |items| ==> items[i].sellerStatus != SellerStatus.Cancelled) ==> ActiveTotal(items) == Total(items)
  {
    if |items| > 0 {
      var init := items[..|items| - 1];
      assert forall i :: 0 <= i < |init| ==> init[i] == items[i];
      ActiveTotalBounds(init);
    }
  }
}
