/** A customer's orders: placing one (POST /api/user/order) and listing the ones
    the customer may see (GET /api/user/myorder). */
module UserOrders {
  import opened Common
  import opened Models

  /** An order is shown to its customer when it is cash on delivery or paid:
      the filter {user, $or: [{paymentMethod: "cod"}, {isPaid: true}]}. */
  predicate VisibleTo(o: Order, userId: Id) {
    o.user == userId && (o.paymentMethod == Cod || o.isPaid)
  }

  function Visible(userId: Id): Order -> bool {
    (o: Order) => VisibleTo(o, userId)
  }

  function CreatedAt(o: Order): int {
    o.createdAt
  }

  datatype OrdersResponse = OrdersResponse(status: int, orders: seq<Order>)

  /** GET /api/user/myorder: the caller's visible orders, newest first. A
      database error answers 400. */
  function MyOrders(st: Store, caller: Option<Id>, dbFails: bool): (r: OrdersResponse)
    ensures r.status == 401 <==> !Truthy(caller)
    ensures r.status == 400 <==> Truthy(caller) && dbFails
    ensures r.status != 200 ==> r.orders == []
    ensures r.status == 200 ==>
      && (forall i :: 0 <= i < |r.orders| ==> r.orders[i] in st.orders && VisibleTo(r.orders[i], caller.value))
      && (forall i :: 0 <= i < |st.orders| && VisibleTo(st.orders[i], caller.value) ==> st.orders[i] in r.orders)
      && multiset(r.orders) == multiset(Filter(st.orders, Visible(caller.value)))
      && SortedDesc(r.orders, CreatedAt)
  {
    if !Truthy(caller) then OrdersResponse(401, [])
    else if dbFails then OrdersResponse(400, [])
    else
      var mine := Filter(st.orders, Visible(caller.value));
      var sorted := SortDesc(mine, CreatedAt);
      SameMembers(sorted, mine);
      OrdersResponse(200, sorted)
  }

  /** The JSON body of POST /api/user/order; an absent field is None. */
  datatype PlaceOrderBody = PlaceOrderBody(
    userId: Option<Id>, items: Option<seq<OrderItem>>, paymentMethod: Option<string>,
    address: Option<Address>, totalAmount: Option<int>)

  /** The route's presence check: userId, paymentMethod, address and
      totalAmount must be truthy (so a total of 0 is refused) and items a
      non-empty list. */
  predicate FieldsPresent(b: PlaceOrderBody) {
    Truthy(b.userId) && b.items.Some? && |b.items.value| > 0 && Truthy(b.paymentMethod) &&
    b.address.Some? && b.totalAmount.Some? && b.totalAmount.value != 0
  }

  /** What the schema validates on create: the payment method is one of the
      enum values and every item references a grocery. */
  predicate SchemaValid(b: PlaceOrderBody)
    requires FieldsPresent(b)
  {
    ParsePaymentMethod(b.paymentMethod.value).Some? &&
    forall i :: 0 <= i < |b.items.value| ==> b.items.value[i].grocery != ""
  }

  datatype PlaceOrderResult = PlaceOrderResult(status: int, store: Store, order: Option<Order>)

  /** POST /api/user/order. The new order gets the id `newId` and the creation
      time `now`; a failed schema validation is the thrown error answered 500. */
  function PlaceOrder(st: Store, b: PlaceOrderBody, newId: Id, now: int): (r: PlaceOrderResult)
    ensures r.status in {201, 400, 404, 500}
    ensures r.status == 400 <==> !FieldsPresent(b)
    ensures r.status == 404 <==>
      FieldsPresent(b) && forall i :: 0 <= i < |st.users| ==> st.users[i].id != b.userId.value
    ensures r.status == 500 <==>
      FieldsPresent(b) && (exists i :: 0 <= i < |st.users| && st.users[i].id == b.userId.value) && !SchemaValid(b)
    ensures r.status != 201 ==> r.store == st && r.order.None?
    ensures r.status == 201 ==>
      && r.order.Some?
      && r.store == st.(orders := st.orders + [r.order.value])
      && r.order.value.id == newId
      && r.order.value.user == b.userId.value
      && r.order.value.address == b.address.value
      && (exists i :: 0 <= i < |st.users| && st.users[i].id == r.order.value.user)
      && r.order.value.items == b.items.value
      && r.order.value.status == Pending && !r.order.value.isPaid
      && r.order.value.totalAmount == b.totalAmount.value
      && ParsePaymentMethod(b.paymentMethod.value) == Some(r.order.value.paymentMethod)
      && r.order.value.createdAt == now
  {
    if !FieldsPresent(b) then PlaceOrderResult(400, st, None)
    else if FindFirst(st.users, UserHasId(b.userId.value)).None? then PlaceOrderResult(404, st, None)
    else if !SchemaValid(b) then PlaceOrderResult(500, st, None)
    else
      var o := NewOrder(newId, b.userId.value, b.items.value, ParsePaymentMethod(b.paymentMethod.value).value,
                        b.address.value, b.totalAmount.value, now);
      PlaceOrderResult(201, st.(orders := st.orders + [o]), Some(o))
  }

  /** A placed order reaches the customer's list exactly when it is cash on
      delivery: an order paid by upi or card is stored unpaid and stays hidden. */
  lemma {:induction false} PlacedOrderVisibleIffCod(st: Store, b: PlaceOrderBody, newId: Id, now: int)
    requires PlaceOrder(st, b, newId, now).status == 201
    ensures var r := PlaceOrder(st, b, newId, now);
      var listed := MyOrders(r.store, b.userId, false).orders;
      r.order.value in listed <==> b.paymentMethod == Some("cod")
  {
    var r := PlaceOrder(st, b, newId, now);
    var o := r.order.value;
    assert r.store.orders[|st.orders|] == o;
    if b.paymentMethod == Some("cod") {
      assert VisibleTo(o, b.userId.value);
    } else {
      assert !VisibleTo(o, b.userId.value);
    }
  }
}
