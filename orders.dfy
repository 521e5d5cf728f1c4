/** The order service: an order row with its item rows. Creation saves the
    order before its items, and an update deletes the old items before it
    checks the new ones, so a request rejected part-way leaves the earlier
    writes in place. Status changes overwrite the status from any prior
    status; there is no transition table. */
module Orders {
  import opened Common

  /** The statuses the order service and the sales rollup name. */
  datatype OrderStatus = Pending | Shipped | Cancelled

  /** An order row; `createdAt` is the creation timestamp. */
  datatype Order = Order(id: Id, userId: Id, totalAmount: int, status: OrderStatus, createdAt: int)

  /** An item row, pointing at its order by `orderId`. */
  datatype OrderItem = OrderItem(id: Id, orderId: Id, productId: Id, quantity: int, price: int)

  /** One item of a create or update request; a missing product id is the
      empty string, which is not a UUID. */
  datatype NewItem = NewItem(productId: Id, quantity: int, price: int)

  datatype NewOrder = NewOrder(userId: Id, items: seq<NewItem>, totalAmount: int, status: Option<OrderStatus>)

  /** An update request; `None` is an absent field. */
  datatype OrderUpdate = OrderUpdate(items: Option<seq<NewItem>>, totalAmount: Option<int>, status: Option<OrderStatus>)

  function OrderIdOf(o: Order): Id { o.id }

  function CreatedAt(o: Order): int { o.createdAt }

  /** The filter `where: { orders: { id } }` on the item table. */
  function BelongsTo(id: Id): OrderItem -> bool {
    (it: OrderItem) => it.orderId == id
  }

  function NotBelongsTo(id: Id): OrderItem -> bool {
    (it: OrderItem) => it.orderId != id
  }

  /** The item rows of order `id`, in table order. */
  function ItemsOf(items: seq<OrderItem>, id: Id): seq<OrderItem> {
    Filter(items, BelongsTo(id))
  }

  /** The item table after `delete({ orders: { id } })`. */
  function OtherItems(items: seq<OrderItem>, id: Id): seq<OrderItem> {
    Filter(items, NotBelongsTo(id))
  }

  function ItemRow(orderId: Id, item: NewItem, id: Id): OrderItem {
    OrderItem(id, orderId, item.productId, item.quantity, item.price)
  }

  /** The rows built for `orderId`, one per request item in request order;
      `ids` are the ids the database generates for them. */
  function ItemRows(orderId: Id, items: seq<NewItem>, ids: seq<Id>): seq<OrderItem>
    requires |ids| == |items|
  {
    seq(|items|, k requires 0 <= k < |items| => ItemRow(orderId, items[k], ids[k]))
  }

  /** Where the `map` over the request items throws: the first item whose
      product id is not a UUID, if any. */
  function FirstInvalid(items: seq<NewItem>): (r: Option<nat>)
    ensures r.None? <==> forall k :: 0 <= k < |items| ==> IsUuid(items[k].productId)
    ensures r.Some? ==> r.value < |items| && !IsUuid(items[r.value].productId)
    ensures r.Some? ==> forall k :: 0 <= k < r.value ==> IsUuid(items[k].productId)
  {
    if items == [] then None
    else if !IsUuid(items[0].productId) then Some(0)
    else match FirstInvalid(items[1..])
      case None => None
      case Some(i) => Some(i + 1)
  }

  function InvalidProductMessage(productId: Id): string {
    "Invalid product ID: " + productId
  }

  /** The order as `updateOrder` leaves it: the total when one is given
      (zero included), the status when one is given. */
  function Applied(o: Order, u: OrderUpdate): Order {
    o.(totalAmount := u.totalAmount.GetOr(o.totalAmount), status := u.status.GetOr(o.status))
  }

  function SetStatus(s: OrderStatus): Order -> Order {
    (o: Order) => o.(status := s)
  }

  // ---------------------------------------------------------------------
  // Building the item rows

  /** The `map` over the request items: it stops at the first item whose
      product id is not a UUID, and otherwise yields one row per item. */
  method BuildItems(orderId: Id, items: seq<NewItem>, ids: seq<Id>) returns (rows: seq<OrderItem>, bad: Option<nat>)
    requires |ids| == |items|
    ensures bad == FirstInvalid(items)
    ensures bad.None? ==> rows == ItemRows(orderId, items, ids)
  {
    rows := [];
    var i := 0;
    while i < |items|
      invariant 0 <= i <= |items|
      invariant forall k :: 0 <= k < i ==> IsUuid(items[k].productId)
      invariant |rows| == i
      invariant forall k :: 0 <= k < i ==> rows[k] == ItemRow(orderId, items[k], ids[k])
    {
      if !IsUuid(items[i].productId) {
        return rows, Some(i);
      }
      rows := rows + [ItemRow(orderId, items[i], ids[i])];
      i := i + 1;
    }
    bad := None;
  }

  // ---------------------------------------------------------------------
  // Queries

  /** `findAllOrders()`: every order, newest first. */
  function FindAllOrders(orders: seq<Order>): (r: Response<seq<Order>>)
    ensures r.Ok? || r == NotFound("No orders found")
    ensures r.NotFound? <==> orders == []
    ensures r.Ok? ==> r.status == 200 && SortedDesc(r.data, CreatedAt)
    ensures r.Ok? ==> multiset(r.data) == multiset(orders)
  {
    if orders == [] then NotFound("No orders found")
    else Ok(200, "Orders fetched successfully", SortDesc(orders, CreatedAt))
  }

  /** `findUserOrders(id)`: the user's orders, newest first. */
  function FindUserOrders(orders: seq<Order>, userId: Id): (r: Response<seq<Order>>)
    ensures r.BadRequest? <==> !IsUuid(userId)
    ensures r.BadRequest? ==> r.message == "Invalid user ID"
    ensures r.NotFound? <==> IsUuid(userId) && forall k :: 0 <= k < |orders| ==> orders[k].userId != userId
    ensures r.NotFound? ==> r.message == "No orders found for this user"
    ensures r.Ok? ==> r.status == 200 && SortedDesc(r.data, CreatedAt)
    ensures r.Ok? ==> forall k :: 0 <= k < |r.data| ==> r.data[k] in orders && r.data[k].userId == userId
    ensures r.Ok? ==> forall k :: 0 <= k < |orders| && orders[k].userId == userId ==> orders[k] in r.data
    ensures r.Ok? ==> multiset(r.data) == multiset(Filter(orders, (o: Order) => o.userId == userId))
  {
    if !IsUuid(userId) then BadRequest("Invalid user ID")
    else
      var rows := NewestFirst(orders, (o: Order) => o.userId == userId, CreatedAt);
      if rows == [] then NotFound("No orders found for this user")
      else Ok(200, "User orders fetched successfully", rows)
  }

  // ---------------------------------------------------------------------
  // What the writes do to an order's items

  /** After creation the new order's items are exactly the request's items,
      and every other order keeps its items. */
  lemma CreatedItems(items: seq<OrderItem>, orderId: Id, newItems: seq<NewItem>, ids: seq<Id>, other: Id)
    requires |ids| == |newItems|
    requires forall k :: 0 <= k < |items| ==> items[k].orderId != orderId
    ensures ItemsOf(items + ItemRows(orderId, newItems, ids), orderId) == ItemRows(orderId, newItems, ids)
    ensures other != orderId ==> ItemsOf(items + ItemRows(orderId, newItems, ids), other) == ItemsOf(items, other)
  {
    var rows := ItemRows(orderId, newItems, ids);
    OwnRowsAreItems(items, rows, orderId);
    if other != orderId {
      AppendedRowsHidden(items, rows, orderId, other);
    }
  }

  /** Rows appended for one order do not show among another order's items. */
  lemma AppendedRowsHidden(items: seq<OrderItem>, rows: seq<OrderItem>, id: Id, other: Id)
    requires other != id && forall k :: 0 <= k < |rows| ==> rows[k].orderId == id
    ensures ItemsOf(items + rows, other) == ItemsOf(items, other)
  {
    FilterConcat(items, rows, BelongsTo(other));
    FilterNone(rows, BelongsTo(other));
  }

  /** After a replacement the order's items are exactly the new list, and
      every other order keeps its items. */
  lemma ReplacedItems(items: seq<OrderItem>, id: Id, newItems: seq<NewItem>, ids: seq<Id>, other: Id)
    requires |ids| == |newItems|
    ensures ItemsOf(OtherItems(items, id) + ItemRows(id, newItems, ids), id) == ItemRows(id, newItems, ids)
    ensures other != id ==> ItemsOf(OtherItems(items, id) + ItemRows(id, newItems, ids), other) == ItemsOf(items, other)
  {
    var rest := OtherItems(items, id);
    var rows := ItemRows(id, newItems, ids);
    OwnRowsAreItems(rest, rows, id);
    if other != id {
      AppendedRowsHidden(rest, rows, id, other);
      FilterFilter(items, NotBelongsTo(id), BelongsTo(other));
    }
  }

  /** Rows appended for an order to a table holding none of its rows are
      exactly that order's items. */
  lemma OwnRowsAreItems(rest: seq<OrderItem>, rows: seq<OrderItem>, id: Id)
    requires forall k :: 0 <= k < |rest| ==> rest[k].orderId != id
    requires forall k :: 0 <= k < |rows| ==> rows[k].orderId == id
    ensures ItemsOf(rest + rows, id) == rows
  {
    FilterConcat(rest, rows, BelongsTo(id));
    FilterNone(rest, BelongsTo(id));
    FilterAll(rows, BelongsTo(id));
  }

  /** An update rejected for a bad product id has already deleted the
      order's items: the order is left with none, and the other orders keep
      theirs. */
  lemma RejectedReplaceEmptiesOrder(items: seq<OrderItem>, id: Id, other: Id)
    ensures ItemsOf(OtherItems(items, id), id) == []
    ensures other != id ==> ItemsOf(OtherItems(items, id), other) == ItemsOf(items, other)
  {
    FilterNone(OtherItems(items, id), BelongsTo(id));
    if other != id {
      FilterFilter(items, NotBelongsTo(id), BelongsTo(other));
    }
  }

  /** `updateOrder` touches only the total and the status; each takes the
      given value when there is one and stays as it was otherwise. */
  lemma AppliedTouchesOnlyGivenFields(o: Order, u: OrderUpdate)
    ensures Applied(o, u).(totalAmount := o.totalAmount, status := o.status) == o
    ensures u.totalAmount.None? ==> Applied(o, u).totalAmount == o.totalAmount
    ensures u.totalAmount.Some? ==> Applied(o, u).totalAmount == u.totalAmount.value
    ensures u.status.None? ==> Applied(o, u).status == o.status
    ensures u.status.Some? ==> Applied(o, u).status == u.status.value
  {
  }

  /** A status change sets the status of the order with that id, from
      whatever status it had, and changes nothing else in the table. */
  lemma StatusChangeTouchesOnlyStatus(orders: seq<Order>, id: Id, s: OrderStatus)
    ensures var after := MapWhere(orders, OrderIdOf, id, SetStatus(s));
            |after| == |orders| &&
            (forall k :: 0 <= k < |orders| ==> after[k].(status := orders[k].status) == orders[k]) &&
            (forall k :: 0 <= k < |orders| && orders[k].id == id ==> after[k].status == s) &&
            (forall k :: 0 <= k < |orders| && orders[k].id != id ==> after[k] == orders[k])
  {
    var after := MapWhere(orders, OrderIdOf, id, SetStatus(s));
    forall k | 0 <= k < |orders| ensures after[k].(status := orders[k].status) == orders[k] {
    }
  }

  /** Cancelling twice is the same as cancelling once. */
  lemma CancelIdempotent(orders: seq<Order>, id: Id)
    ensures MapWhere(MapWhere(orders, OrderIdOf, id, SetStatus(Cancelled)), OrderIdOf, id, SetStatus(Cancelled))
         == MapWhere(orders, OrderIdOf, id, SetStatus(Cancelled))
  {
    var once := MapWhere(orders, OrderIdOf, id, SetStatus(Cancelled));
    var twice := MapWhere(once, OrderIdOf, id, SetStatus(Cancelled));
    forall k | 0 <= k < |orders| ensures twice[k] == once[k] {
    }
  }

  // ---------------------------------------------------------------------
  // The service over the order and item tables

  class OrderService {
    var orders: seq<Order>
    var items: seq<OrderItem>

    ghost predicate Valid()
      reads this
    {
      UniqueKeys(orders, OrderIdOf)
    }

    constructor ()
      ensures Valid() && orders == [] && items == []
    {
      orders := [];
      items := [];
    }

    /** `createOrder(dto)`. `orderId` and `itemIds` are the ids the database
        generates and `now` the creation time. The order is saved before the
        items are built, so a bad product id leaves an order without items. */
    method CreateOrder(dto: NewOrder, orderId: Id, itemIds: seq<Id>, now: int) returns (r: Response<()>)
      requires Valid() && Absent(orders, OrderIdOf, orderId)
      requires forall k :: 0 <= k < |items| ==> items[k].orderId != orderId
      requires |itemIds| == |dto.items|
      modifies this
      ensures Valid()
      ensures !IsUuid(dto.userId) ==>
        r == BadRequest("Invalid user ID") && orders == old(orders) && items == old(items)
      ensures IsUuid(dto.userId) ==>
        orders == old(orders) + [Order(orderId, dto.userId, dto.totalAmount, dto.status.GetOr(Pending), now)]
      ensures IsUuid(dto.userId) && FirstInvalid(dto.items).None? ==>
        r == Ok(201, "Order created successfully", ()) &&
        items == old(items) + ItemRows(orderId, dto.items, itemIds) &&
        ItemsOf(items, orderId) == ItemRows(orderId, dto.items, itemIds)
      ensures IsUuid(dto.userId) && FirstInvalid(dto.items).Some? ==>
        r == BadRequest(InvalidProductMessage(dto.items[FirstInvalid(dto.items).value].productId)) &&
        items == old(items) && ItemsOf(items, orderId) == []
    {
      if !IsUuid(dto.userId) {
        return BadRequest("Invalid user ID");
      }
      var order := Order(orderId, dto.userId, dto.totalAmount, dto.status.GetOr(Pending), now);
      AppendKeepsUnique(orders, OrderIdOf, order);
      orders := orders + [order];
      var rows, bad := BuildItems(orderId, dto.items, itemIds);
      if bad.Some? {
        FilterNone(items, BelongsTo(orderId));
        return BadRequest(InvalidProductMessage(dto.items[bad.value].productId));
      }
      CreatedItems(items, orderId, dto.items, itemIds, orderId);
      items := items + rows;
      r := Ok(201, "Order created successfully", ());
    }

    /** `updateOrder(id, dto)`. The new total and status are applied to the
        loaded order, which is saved last; new items first delete all the
        order's items and are then built one by one, so a bad product id
        leaves the order unchanged but without items. */
    method UpdateOrder(id: Id, dto: OrderUpdate, itemIds: seq<Id>) returns (r: Response<()>)
      requires Valid()
      requires dto.items.Some? ==> |itemIds| == |dto.items.value|
      modifies this
      ensures Valid()
      ensures !IsUuid(id) ==>
        r == BadRequest("Invalid order ID") && orders == old(orders) && items == old(items)
      ensures IsUuid(id) && Absent(old(orders), OrderIdOf, id) ==>
        r == NotFound("Order not found") && orders == old(orders) && items == old(items)
      ensures IsUuid(id) && !Absent(old(orders), OrderIdOf, id) && dto.items.None? ==>
        r == Ok(200, "Order updated successfully", ()) && items == old(items) &&
        orders == MapWhere(old(orders), OrderIdOf, id, o => Applied(o, dto))
      ensures IsUuid(id) && !Absent(old(orders), OrderIdOf, id) && dto.items.Some? &&
              FirstInvalid(dto.items.value).None? ==>
        r == Ok(200, "Order updated successfully", ()) &&
        items == OtherItems(old(items), id) + ItemRows(id, dto.items.value, itemIds) &&
        orders == MapWhere(old(orders), OrderIdOf, id, o => Applied(o, dto))
      ensures IsUuid(id) && !Absent(old(orders), OrderIdOf, id) && dto.items.Some? &&
              FirstInvalid(dto.items.value).Some? ==>
        r == BadRequest(InvalidProductMessage(dto.items.value[FirstInvalid(dto.items.value).value].productId)) &&
        items == OtherItems(old(items), id) && orders == old(orders)
    {
      if !IsUuid(id) {
        return BadRequest("Invalid order ID");
      }
      var found := IndexOf(orders, OrderIdOf, id);
      if found.None? {
        return NotFound("Order not found");
      }
      var i := found.value;
      var order := Applied(orders[i], dto);
      if dto.items.Some? {
        items := OtherItems(items, id);
        var rows, bad := BuildItems(id, dto.items.value, itemIds);
        if bad.Some? {
          return BadRequest(InvalidProductMessage(dto.items.value[bad.value].productId));
        }
        items := items + rows;
      }
      UpdateAtIsMapWhere(orders, OrderIdOf, i, o => Applied(o, dto));
      UpdateKeepsUnique(orders, OrderIdOf, i, order);
      orders := orders[i := order];
      r := Ok(200, "Order updated successfully", ());
    }

    /** `changeOrderStatus(id, dto)`: existence is checked before the status
        is required; any status may follow any other. */
    method ChangeOrderStatus(id: Id, status: Option<OrderStatus>) returns (r: Response<()>)
      requires Valid()
      modifies this`orders
      ensures Valid()
      ensures !IsUuid(id) ==> r == BadRequest("Invalid order ID") && orders == old(orders)
      ensures IsUuid(id) && Absent(old(orders), OrderIdOf, id) ==>
        r == NotFound("Order not found") && orders == old(orders)
      ensures IsUuid(id) && !Absent(old(orders), OrderIdOf, id) && status.None? ==>
        r == BadRequest("Status is required") && orders == old(orders)
      ensures IsUuid(id) && !Absent(old(orders), OrderIdOf, id) && status.Some? ==>
        r == Ok(200, "Order status updated successfully", ()) &&
        orders == MapWhere(old(orders), OrderIdOf, id, SetStatus(status.value))
    {
      if !IsUuid(id) {
        return BadRequest("Invalid order ID");
      }
      var found := IndexOf(orders, OrderIdOf, id);
      if found.None? {
        return NotFound("Order not found");
      }
      if status.None? {
        return BadRequest("Status is required");
      }
      var i := found.value;
      UpdateAtIsMapWhere(orders, OrderIdOf, i, SetStatus(status.value));
      UpdateKeepsUnique(orders, OrderIdOf, i, SetStatus(status.value)(orders[i]));
      orders := orders[i := SetStatus(status.value)(orders[i])];
      r := Ok(200, "Order status updated successfully", ());
    }

    /** `cancelOrder(id)`: Cancelled from any status. */
    method CancelOrder(id: Id) returns (r: Response<()>)
      requires Valid()
      modifies this`orders
      ensures Valid()
      ensures !IsUuid(id) ==> r == BadRequest("Invalid order ID") && orders == old(orders)
      ensures IsUuid(id) && Absent(old(orders), OrderIdOf, id) ==>
        r == NotFound("Order not found") && orders == old(orders)
      ensures IsUuid(id) && !Absent(old(orders), OrderIdOf, id) ==>
        r == Ok(200, "Order canceled successfully", ()) &&
        orders == MapWhere(old(orders), OrderIdOf, id, SetStatus(Cancelled))
    {
      if !IsUuid(id) {
        return BadRequest("Invalid order ID");
      }
      var found := IndexOf(orders, OrderIdOf, id);
      if found.None? {
        return NotFound("Order not found");
      }
      var i := found.value;
      UpdateAtIsMapWhere(orders, OrderIdOf, i, SetStatus(Cancelled));
      UpdateKeepsUnique(orders, OrderIdOf, i, SetStatus(Cancelled)(orders[i]));
      orders := orders[i := SetStatus(Cancelled)(orders[i])];
      r := Ok(200, "Order canceled successfully", ());
    }
  }
}
