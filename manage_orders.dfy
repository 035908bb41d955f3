/** The admin's manage-orders page: the searchable order list, the order open
    in the detail panel, the socket events that keep both current, and the
    local patch after the admin changes a status. */
module ManageOrders {
  import opened Common
  import opened Models
  import opened OrderFeed

  /** The page's state: the list and the order open in the detail panel. */
  datatype OrdersPage = OrdersPage(orders: seq<FeedOrder>, selected: Option<FeedOrder>)

  // ---------------------------------------------------------------------------
  // The search box

  /** The order's id, or its customer's name, includes the term, both lowercased. */
  predicate Matches(o: FeedOrder, term: string) {
    Contains(ToLower(o.id), ToLower(term)) ||
    (o.fullname.Some? && Contains(ToLower(o.fullname.value), ToLower(term)))
  }

  function MatchesTerm(term: string): FeedOrder -> bool {
    (o: FeedOrder) => Matches(o, term)
  }

  /** filteredOrders: the orders that match the term, in list order. */
  function FilteredOrders(orders: seq<FeedOrder>, term: string): (r: seq<FeedOrder>)
    ensures forall i :: 0 <= i < |r| ==> r[i] in orders && Matches(r[i], term)
    ensures forall i :: 0 <= i < |orders| ==> (orders[i] in r <==> Matches(orders[i], term))
  {
    Filter(orders, MatchesTerm(term))
  }

  /** An empty search shows every order. */
  lemma EmptyTermShowsAll(orders: seq<FeedOrder>)
    ensures FilteredOrders(orders, "") == orders
  {
    forall i | 0 <= i < |orders|
      ensures Matches(orders[i], "")
    {
      ContainsEmpty(ToLower(orders[i].id));
    }
    FilterAll(orders, MatchesTerm(""));
  }

  /** The search ignores the case of the term. */
  lemma SearchIgnoresCase(orders: seq<FeedOrder>, term: string)
    ensures FilteredOrders(orders, ToLower(term)) == FilteredOrders(orders, term)
  {
    assert ToLower(ToLower(term)) == ToLower(term);
    FilterAgree(orders, MatchesTerm(ToLower(term)), MatchesTerm(term));
  }

  /** Searching for an order's own id finds it. */
  lemma OwnIdFound(orders: seq<FeedOrder>, k: nat)
    requires k < |orders|
    ensures orders[k] in FilteredOrders(orders, orders[k].id)
  {
    ContainsSelf(ToLower(orders[k].id));
  }

  // ---------------------------------------------------------------------------
  // The socket events

  /** The open order matches the list: every listed order with its id is it. */
  predicate InSync(p: OrdersPage) {
    p.selected.Some? ==> forall i :: 0 <= i < |p.orders| && p.orders[i].id == p.selected.value.id ==> p.orders[i] == p.selected.value
  }

  /** new-Order: the list upserts the order; the open order is left as it is. */
  function OnNewOrder(p: OrdersPage, o: FeedOrder): (r: OrdersPage)
    ensures r.orders == UpsertOrder(p.orders, o) && r.selected == p.selected
  {
    OrdersPage(UpsertOrder(p.orders, o), p.selected)
  }

  /** order-status-updated: ignored without an orderId; otherwise the list is
      patched, and so is the open order, but only when it has that id. */
  function OnStatusUpdate(p: OrdersPage, orderId: Option<string>, status: OrderStatus, order: Option<FeedOrder>): (r: OrdersPage)
    ensures !Truthy(orderId) ==> r == p
    ensures r.orders == PatchStatus(p.orders, orderId, status, order)
    ensures Truthy(orderId) && p.selected.Some? && p.selected.value.id == orderId.value ==>
      r.selected == Some(WithStatus(status, order)(p.selected.value)) && r.selected.value.status == Some(status)
    ensures !(Truthy(orderId) && p.selected.Some? && p.selected.value.id == orderId.value) ==> r.selected == p.selected
  {
    if !Truthy(orderId) then p
    else
      var sel := if p.selected.Some? && p.selected.value.id == orderId.value
                 then Some(WithStatus(status, order)(p.selected.value)) else p.selected;
      OrdersPage(PatchStatus(p.orders, orderId, status, order), sel)
  }

  /** delivery-assignment-accepted: ignored without an orderId; otherwise the
      list and the open order with that id get the assignment. */
  function OnAssignmentAccepted(p: OrdersPage, orderId: Option<string>, assignmentId: Option<string>,
                                status: Option<string>, assignedTo: AssignedTo): (r: OrdersPage)
    ensures !Truthy(orderId) ==> r == p
    ensures r.orders == PatchAssignment(p.orders, orderId, assignmentId, status, assignedTo)
    ensures Truthy(orderId) && p.selected.Some? && p.selected.value.id == orderId.value ==>
      r.selected == Some(p.selected.value.(assignment := Accepted(assignmentId, status, assignedTo)))
    ensures !(Truthy(orderId) && p.selected.Some? && p.selected.value.id == orderId.value) ==> r.selected == p.selected
  {
    if !Truthy(orderId) then p
    else
      var a := Accepted(assignmentId, status, assignedTo);
      var sel := if p.selected.Some? && p.selected.value.id == orderId.value
                 then Some(p.selected.value.(assignment := a)) else p.selected;
      OrdersPage(PatchAssignment(p.orders, orderId, assignmentId, status, assignedTo), sel)
  }

  /** A status event keeps the open order in step with the list, as long as the
      order it carries, if any, has the event's id. */
  lemma StatusUpdateKeepsInSync(p: OrdersPage, orderId: Option<string>, status: OrderStatus, order: Option<FeedOrder>)
    requires InSync(p)
    requires Truthy(orderId) && order.Some? ==> order.value.id == orderId.value
    ensures InSync(OnStatusUpdate(p, orderId, status, order))
  {
    var r := OnStatusUpdate(p, orderId, status, order);
    if Truthy(orderId) && r.selected.Some? {
      var id := orderId.value;
      forall i | 0 <= i < |r.orders| && r.orders[i].id == r.selected.value.id
        ensures r.orders[i] == r.selected.value
      {
        if p.orders[i].id == id {
          assert r.orders[i].id == id;
        }
      }
    }
  }

  /** An assignment event keeps the open order in step with the list. */
  lemma AssignmentKeepsInSync(p: OrdersPage, orderId: Option<string>, assignmentId: Option<string>,
                              status: Option<string>, assignedTo: AssignedTo)
    requires InSync(p)
    ensures InSync(OnAssignmentAccepted(p, orderId, assignmentId, status, assignedTo))
  {
  }

  // ---------------------------------------------------------------------------
  // Saving a status from the detail panel

  /** updateStatus as written: when the POST fails nothing changes; when it
      succeeds the list entry with the id gets the status, and the open order
      gets it whatever its id. */
  function StatusSavedAsWritten(p: OrdersPage, orderId: string, status: OrderStatus, posted: bool): (r: OrdersPage)
    ensures !posted ==> r == p
    ensures posted ==> |r.orders| == |p.orders| && forall i :: 0 <= i < |p.orders| ==>
      r.orders[i] == if p.orders[i].id == orderId then p.orders[i].(status := Some(status)) else p.orders[i]
    ensures posted && p.selected.Some? ==> r.selected == Some(p.selected.value.(status := Some(status)))
  {
    if !posted then p
    else
      OrdersPage(PatchWhere(p.orders, orderId, WithStatus(status, None)),
                 if p.selected.Some? then Some(p.selected.value.(status := Some(status))) else None)
  }

  /** The open order can change while the POST is in flight; the answer then
      gives the newly opened order the status saved for the other one, and the
      panel no longer agrees with the list. */
  lemma StaleSelectionOverwritten()
    ensures var listed := FeedOrder("b", Some(Pending), None, "cod", false, 100, NoAssignment, None);
      var p := OrdersPage([listed], Some(listed));
      InSync(p) && !InSync(StatusSavedAsWritten(p, "a", Delivered, true))
  {
    var listed := FeedOrder("b", Some(Pending), None, "cod", false, 100, NoAssignment, None);
    var r := StatusSavedAsWritten(OrdersPage([listed], Some(listed)), "a", Delivered, true);
    assert r.orders[0] == listed;
  }

  /** updateStatus with the open order patched only when it is the saved one,
      as the socket handlers do. */
  function StatusSaved(p: OrdersPage, orderId: string, status: OrderStatus, posted: bool): (r: OrdersPage)
    ensures !posted ==> r == p
    ensures posted ==> |r.orders| == |p.orders| && forall i :: 0 <= i < |p.orders| ==>
      r.orders[i] == if p.orders[i].id == orderId then p.orders[i].(status := Some(status)) else p.orders[i]
    ensures posted && p.selected.Some? && p.selected.value.id == orderId ==> r.selected == Some(p.selected.value.(status := Some(status)))
    ensures !(posted && p.selected.Some? && p.selected.value.id == orderId) ==> r.selected == p.selected
  {
    if !posted then p
    else
      OrdersPage(PatchWhere(p.orders, orderId, WithStatus(status, None)),
                 if p.selected.Some? && p.selected.value.id == orderId then Some(p.selected.value.(status := Some(status)))
                 else p.selected)
  }

  /** Saving a status keeps the open order in step with the list. */
  lemma StatusSavedKeepsInSync(p: OrdersPage, orderId: string, status: OrderStatus, posted: bool)
    requires InSync(p)
    ensures InSync(StatusSaved(p, orderId, status, posted))
  {
  }
}
