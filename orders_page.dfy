/** app/admin/orders/page.tsx: the administrator's list of service requests, with a
    status filter, the count per status and the actions on a pending order. */
module OrdersPage {
  import opened Common
  import opened Lists
  import opened Store
  import opened OrderModel

  /** The filter buttons: every order, or the orders with one status. */
  datatype StatusFilter = All | WithStatus(status: string)

  /** `o => o.status === status` */
  function StatusIs(status: string): Row<Order> -> bool {
    (o: Row<Order>) => o.doc.status == Present(status)
  }

  /** `filteredOrders` */
  function Filtered(orders: seq<Row<Order>>, f: StatusFilter): (r: seq<Row<Order>>)
    ensures f.All? ==> r == orders
  {
    match f
    case All => FilterAll(orders, (_: Row<Order>) => true); Lists.Filter(orders, (_: Row<Order>) => true)
    case WithStatus(s) => Lists.Filter(orders, StatusIs(s))
  }

  /** The number of orders with one status. */
  function Count(orders: seq<Row<Order>>, status: string): nat {
    |Lists.Filter(orders, StatusIs(status))|
  }

  /** A status filter shows exactly the orders with that status, as many as are
      counted for it. */
  lemma FilteredIff(orders: seq<Row<Order>>, s: string)
    ensures var r := Filtered(orders, WithStatus(s));
      |r| == Count(orders, s)
      && (forall i :: 0 <= i < |r| ==> r[i].doc.status == Present(s))
      && (forall i :: 0 <= i < |orders| && orders[i].doc.status == Present(s) ==> orders[i] in r)
      && (forall x :: x in r ==> x in orders)
  {
    var r := Filtered(orders, WithStatus(s));
    forall i | 0 <= i < |r|
      ensures r[i].doc.status == Present(s)
    {
      assert StatusIs(s)(r[i]);
    }
  }

  /** The filter keeps the list's order: the orders it shows are a subsequence. */
  lemma {:induction false} FilteredKeepsOrder(orders: seq<Row<Order>>, extra: seq<Row<Order>>, s: string)
    ensures Filtered(orders + extra, WithStatus(s)) == Filtered(orders, WithStatus(s)) + Filtered(extra, WithStatus(s))
  {
    FilterAppend(orders, extra, StatusIs(s));
  }

  /** `statusCounts` */
  datatype Counts = Counts(all: nat, pending: nat, completed: nat, cancelled: nat)

  function StatusCounts(orders: seq<Row<Order>>): (r: Counts)
    ensures r.all == |orders|
    ensures r.pending == Count(orders, "pending") && r.completed == Count(orders, "completed")
    ensures r.cancelled == Count(orders, "cancelled")
  {
    Counts(|orders|, Count(orders, "pending"), Count(orders, "completed"), Count(orders, "cancelled"))
  }

  /** Every stored order has one of the four statuses (the schema fills in "pending"
      and the `enum` refuses anything else). */
  predicate KnownStatuses(orders: seq<Row<Order>>) {
    forall i :: 0 <= i < |orders| ==> orders[i].doc.status.Present? && orders[i].doc.status.value in Statuses
  }

  /** The three counted statuses and "processing" together account for every order;
      the counts shown add up to at most `all`, short by the orders in processing. */
  lemma {:induction false} CountsAddUp(orders: seq<Row<Order>>)
    requires KnownStatuses(orders)
    ensures Count(orders, "pending") + Count(orders, "processing") + Count(orders, "completed")
            + Count(orders, "cancelled") == |orders|
    ensures var c := StatusCounts(orders);
      c.pending + c.completed + c.cancelled + Count(orders, "processing") == c.all
    decreases |orders|
  {
    if orders != [] {
      assert KnownStatuses(orders[1..]) by {
        forall i | 0 <= i < |orders[1..]|
          ensures orders[1..][i].doc.status.Present? && orders[1..][i].doc.status.value in Statuses
        {
          assert orders[1..][i] == orders[i + 1];
        }
      }
      CountsAddUp(orders[1..]);
      assert orders[0].doc.status.value in Statuses;
    }
  }

  /** The stored orders are valid documents made by `Order.create`. */
  lemma CreatedStatusKnown(b: Order)
    requires Create(b).Ok?
    ensures Create(b).value.status.Present? && Create(b).value.status.value in Statuses
  {
  }

  /** `orders.map(order => order._id === orderId ? { ...order, status } : order)` */
  function Restatus(orders: seq<Row<Order>>, id: Id, status: string): (r: seq<Row<Order>>)
    ensures |r| == |orders|
    ensures forall i :: 0 <= i < |orders| && orders[i].id == id ==>
      r[i] == orders[i].(doc := orders[i].doc.(status := Present(status)))
    ensures forall i :: 0 <= i < |orders| && orders[i].id != id ==> r[i] == orders[i]
  {
    Map(orders, (o: Row<Order>) => if o.id == id then o.(doc := o.doc.(status := Present(status))) else o)
  }

  const UpdateRejected := "Failed to update order status"
  const UpdateError := "Error updating order status"

  /** `updateOrderStatus(orderId, newStatus)`. `reply` is the `success` flag of the
      PATCH to /api/orders/[id], or what was thrown; the result is the new list and
      the alert shown, if any. */
  function UpdateOrderStatus(orders: seq<Row<Order>>, id: Id, status: string, reply: Result<bool>)
    : (r: (seq<Row<Order>>, Option<string>))
    ensures reply == Ok(true) ==> r == (Restatus(orders, id, status), None)
    ensures reply == Ok(false) ==> r == (orders, Some(UpdateRejected))
    ensures reply.Err? ==> r == (orders, Some(UpdateError))
  {
    match reply
    case Ok(true) => (Restatus(orders, id, status), None)
    case Ok(false) => (orders, Some(UpdateRejected))
    case Err(_) => (orders, Some(UpdateError))
  }

  /** The list changes only when the server reports success, and an alert is shown
      exactly when it does not: a rejected or failed update keeps every order as it
      was, status included. */
  lemma UpdateAlertsIffKept(orders: seq<Row<Order>>, id: Id, status: string, reply: Result<bool>)
    ensures var (after, alert) := UpdateOrderStatus(orders, id, status, reply);
      (alert.None? <==> reply == Ok(true))
      && (alert.Some? ==> after == orders)
      && (after != orders ==> reply == Ok(true) && exists i :: 0 <= i < |orders| && orders[i].id == id)
  {
    var (after, alert) := UpdateOrderStatus(orders, id, status, reply);
    if forall i :: 0 <= i < |orders| ==> orders[i].id != id {
      assert after == orders;
    }
  }

  /** A successful update moves the updated order between the counts and changes no
      other order; with ids unique exactly one order was moved. */
  lemma UpdateMovesOne(orders: seq<Row<Order>>, i: nat, status: string)
    requires i < |orders|
    requires forall j :: 0 <= j < |orders| && j != i ==> orders[j].id != orders[i].id
    ensures var after := UpdateOrderStatus(orders, orders[i].id, status, Ok(true)).0;
      after[i].doc.status == Present(status) && after[i].id == orders[i].id
      && after[i].doc.(status := orders[i].doc.status) == orders[i].doc
      && forall j :: 0 <= j < |orders| && j != i ==> after[j] == orders[j]
  {
  }

  /** `getStatusColor` */
  function StatusColor(status: string): (r: string)
    ensures status !in Statuses <==> r == "bg-gray-100 text-gray-800"
  {
    match status
    case "pending" => "bg-yellow-100 text-yellow-800"
    case "processing" => "bg-blue-100 text-blue-800"
    case "completed" => "bg-green-100 text-green-800"
    case "cancelled" => "bg-red-100 text-red-800"
    case _ => "bg-gray-100 text-gray-800"
  }

  /** Each of the four statuses has its own colour. */
  lemma ColorsDistinct(s: string, t: string)
    requires s in Statuses && t in Statuses && s != t
    ensures StatusColor(s) != StatusColor(t)
  {
  }

  /** The two buttons under an order. */
  datatype Action = MarkCompleted | CancelOrder

  /** The buttons shown for an order: both while it is pending, none otherwise. */
  function Actions(o: Row<Order>): (r: seq<Action>)
    ensures r != [] <==> o.doc.status == Present("pending")
  {
    if o.doc.status == Present("pending") then [MarkCompleted, CancelOrder] else []
  }

  /** The status an action sends. */
  function Target(a: Action): string {
    match a
    case MarkCompleted => "completed"
    case CancelOrder => "cancelled"
  }

  /** Only a pending order can be changed from the list, and only to completed or
      cancelled; after the change it offers no action again. */
  lemma ActionsOnlyWhilePending(orders: seq<Row<Order>>, i: nat, a: Action)
    requires i < |orders| && a in Actions(orders[i])
    requires forall j :: 0 <= j < |orders| && j != i ==> orders[j].id != orders[i].id
    ensures orders[i].doc.status == Present("pending")
    ensures Target(a) in Statuses && Target(a) != "pending"
    ensures Actions(Restatus(orders, orders[i].id, Target(a))[i]) == []
  {
  }
}
