/** The admin dashboard: the order list kept current by the socket events, the
    activity feed, and the figures derived from the list (the stat cards, the
    recent orders, revenue by weekday and the status chart).

    The manage-orders page applies the same upsert and patches to its own
    list, so they are defined here once. */
module OrderFeed {
  import opened Common
  import opened Models

  /** assignedTo of an assignment: absent or null, a bare id, or a populated user. */
  datatype AssignedTo = Unassigned | AssignedRef(ref: string) | AssignedUser(id: Option<string>, name: Option<string>, mobile: Option<string>)

  datatype FeedAssignment = FeedAssignment(id: Option<string>, status: Option<string>, assignedTo: AssignedTo)

  /** The assignment field of an order: absent or null, a bare id, or an object. */
  datatype AssignmentField = NoAssignment | AssignmentRef(ref: string) | AssignmentDoc(doc: FeedAssignment)

  /** An order as the admin pages hold it: the id as text, the customer's name
      when there is an address, and the creation instant in milliseconds since
      the epoch when there is one. */
  datatype FeedOrder = FeedOrder(
    id: string, status: Option<OrderStatus>, fullname: Option<string>, paymentMethod: string,
    isPaid: bool, totalAmount: int, assignment: AssignmentField, createdAt: Option<int>)

  predicate IdsUnique(orders: seq<FeedOrder>) {
    forall i, j :: 0 <= i < j < |orders| ==> orders[i].id != orders[j].id
  }

  // ---------------------------------------------------------------------------
  // The list reducers

  /** list.map(o => o._id === id ? f(o) : o). */
  function PatchWhere(orders: seq<FeedOrder>, id: string, f: FeedOrder -> FeedOrder): (r: seq<FeedOrder>)
    ensures |r| == |orders|
    ensures forall i :: 0 <= i < |orders| ==> r[i] == if orders[i].id == id then f(orders[i]) else orders[i]
  {
    if orders == [] then []
    else [if orders[0].id == id then f(orders[0]) else orders[0]] + PatchWhere(orders[1..], id, f)
  }

  function Becomes(o: FeedOrder): FeedOrder -> FeedOrder {
    (_: FeedOrder) => o
  }

  /** An incoming order replaces every order with its id, or is put first when
      there is none: the list grows by at most one, holds the new order, and
      holds no other version of it. */
  function UpsertOrder(orders: seq<FeedOrder>, o: FeedOrder): (r: seq<FeedOrder>)
    ensures |orders| <= |r| <= |orders| + 1
    ensures o in r
    ensures forall i :: 0 <= i < |r| && r[i].id == o.id ==> r[i] == o
    ensures (exists i :: 0 <= i < |orders| && orders[i].id == o.id) ==>
      |r| == |orders| && forall i :: 0 <= i < |orders| && orders[i].id != o.id ==> r[i] == orders[i]
    ensures (forall i :: 0 <= i < |orders| ==> orders[i].id != o.id) ==> r == [o] + orders
  {
    if exists i :: 0 <= i < |orders| && orders[i].id == o.id then PatchWhere(orders, o.id, Becomes(o))
    else [o] + orders
  }

  /** The upsert keeps the ids unique. */
  lemma UpsertKeepsIdsUnique(orders: seq<FeedOrder>, o: FeedOrder)
    requires IdsUnique(orders)
    ensures IdsUnique(UpsertOrder(orders, o))
  {
    var r := UpsertOrder(orders, o);
    if forall i :: 0 <= i < |orders| ==> orders[i].id != o.id {
      forall i, j | 0 <= i < j < |r| ensures r[i].id != r[j].id {
        if i > 0 {
          assert r[i] == orders[i - 1] && r[j] == orders[j - 1];
        }
      }
    }
  }

  /** Receiving the same order twice leaves the list as receiving it once. */
  lemma UpsertIdempotent(orders: seq<FeedOrder>, o: FeedOrder)
    ensures UpsertOrder(UpsertOrder(orders, o), o) == UpsertOrder(orders, o)
  {
    var r := UpsertOrder(orders, o);
    var k :| 0 <= k < |r| && r[k] == o;
    assert r[k].id == o.id;
    var rr := UpsertOrder(r, o);
    assert rr == PatchWhere(r, o.id, Becomes(o));
    assert forall i :: 0 <= i < |r| ==> rr[i] == r[i];
  }

  /** The status update: with a falsy orderId nothing changes; otherwise each
      order with that id takes the fields of the order sent along, if any, and
      the status sent. */
  function PatchStatus(orders: seq<FeedOrder>, orderId: Option<string>, status: OrderStatus, order: Option<FeedOrder>): (r: seq<FeedOrder>)
    ensures !Truthy(orderId) ==> r == orders
    ensures |r| == |orders|
    ensures Truthy(orderId) ==> forall i :: 0 <= i < |orders| ==>
      if orders[i].id == orderId.value then
        r[i].status == Some(status) && r[i] == (if order.Some? then order.value else orders[i]).(status := Some(status))
      else r[i] == orders[i]
  {
    if !Truthy(orderId) then orders else PatchWhere(orders, orderId.value, WithStatus(status, order))
  }

  function WithStatus(status: OrderStatus, order: Option<FeedOrder>): FeedOrder -> FeedOrder {
    (o: FeedOrder) => (if order.Some? then order.value else o).(status := Some(status))
  }

  /** The assignment an accepted-assignment event carries. */
  function Accepted(assignmentId: Option<string>, status: Option<string>, assignedTo: AssignedTo): AssignmentField {
    AssignmentDoc(FeedAssignment(assignmentId, status, assignedTo))
  }

  /** The accepted assignment: with a falsy orderId nothing changes; otherwise
      each order with that id gets the new assignment object and keeps every
      other field. */
  function PatchAssignment(orders: seq<FeedOrder>, orderId: Option<string>, assignmentId: Option<string>,
                           status: Option<string>, assignedTo: AssignedTo): (r: seq<FeedOrder>)
    ensures !Truthy(orderId) ==> r == orders
    ensures |r| == |orders|
    ensures Truthy(orderId) ==> forall i :: 0 <= i < |orders| ==>
      if orders[i].id == orderId.value then r[i] == orders[i].(assignment := Accepted(assignmentId, status, assignedTo))
      else r[i] == orders[i]
  {
    if !Truthy(orderId) then orders
    else PatchWhere(orders, orderId.value, WithAssignment(Accepted(assignmentId, status, assignedTo)))
  }

  function WithAssignment(a: AssignmentField): FeedOrder -> FeedOrder {
    (o: FeedOrder) => o.(assignment := a)
  }

  // ---------------------------------------------------------------------------
  // The activity feed

  datatype ActivityKind = NewOrderEvent | StatusEvent | AssignedEvent

  /** A feed entry; `at` is the formatted clock time, taken as given. */
  datatype ActivityItem = ActivityItem(id: string, kind: ActivityKind, title: string, meta: string, at: string)

  const FeedLength: nat := 6

  /** [item, ...prev].slice(0, 6): the newest entry first, at most six kept. */
  function PushActivity(feed: seq<ActivityItem>, item: ActivityItem): (r: seq<ActivityItem>)
    ensures 1 <= |r| <= FeedLength && r[0] == item
    ensures r[1..] == Take(feed, FeedLength - 1)
  {
    Take([item] + feed, FeedLength)
  }

  /** The feed after the given entries are pushed, first one first. */
  function PushAll(feed: seq<ActivityItem>, items: seq<ActivityItem>): seq<ActivityItem>
    decreases |items|
  {
    if items == [] then feed else PushAll(PushActivity(feed, items[0]), items[1..])
  }

  lemma TakeOfTake<T>(a: seq<T>, b: seq<T>, n: nat)
    ensures Take(a + Take(b, n), n) == Take(a + b, n)
  {
    if |b| > n {
      assert (a + b[..n])[..n] == (a + b)[..n];
    }
  }

  /** However many events arrive, the feed holds the six newest of them and of
      what it held before, newest first. */
  lemma {:induction false} FeedHoldsNewest(feed: seq<ActivityItem>, items: seq<ActivityItem>)
    requires |feed| <= FeedLength
    ensures PushAll(feed, items) == Take(Reverse(items) + feed, FeedLength)
    decreases |items|
  {
    if items == [] {
      assert Reverse(items) + feed == feed;
    } else {
      FeedHoldsNewest(PushActivity(feed, items[0]), items[1..]);
      PushThenRest(feed, items);
    }
  }

  /** Pushing the first entry and then keeping the newest of the rest is
      keeping the newest of all of them. */
  lemma PushThenRest(feed: seq<ActivityItem>, items: seq<ActivityItem>)
    requires items != []
    ensures Take(Reverse(items[1..]) + PushActivity(feed, items[0]), FeedLength) ==
      Take(Reverse(items) + feed, FeedLength)
  {
    assert PushActivity(feed, items[0]) == Take([items[0]] + feed, FeedLength);
    assert Reverse(items) == Reverse(items[1..]) + [items[0]];
    TakeOfTake(Reverse(items[1..]), [items[0]] + feed, FeedLength);
    assert Reverse(items[1..]) + ([items[0]] + feed) == Reverse(items) + feed;
  }

  /** String(id).slice(-6).toUpperCase(): the order reference the feed shows. */
  function ShortRef(id: string): (r: string)
    ensures |r| == (if |id| <= 6 then |id| else 6)
    ensures forall i :: 0 <= i < |r| ==> r[i] == UpperChar(id[|id| - |r| + i])
  {
    ToUpper(if |id| <= 6 then id else id[|id| - 6..])
  }

  /** The separator the status entry puts before the status, exactly as the
      page's source text spells it. */
  const MetaSeparator: string := " â€¢ "

  /** The "new order" entry, keyed "new-" and the order id. */
  function NewOrderActivity(o: FeedOrder, at: string): (r: ActivityItem)
    ensures StartsWith(r.id, "new-") && r.id[4..] == o.id && r.kind == NewOrderEvent && r.at == at
    ensures StartsWith(r.meta, "Order #") && r.meta[7..] == ShortRef(o.id) && |r.meta| <= 13
  {
    ActivityItem("new-" + o.id, NewOrderEvent, "New order received", "Order #" + ShortRef(o.id), at)
  }

  /** The "status updated" entry, keyed by order and status, naming the status
      after the order reference. */
  function StatusActivity(orderId: string, status: OrderStatus, at: string): (r: ActivityItem)
    ensures StartsWith(r.id, "status-") && r.kind == StatusEvent && r.at == at
    ensures StartsWith(r.meta, "Order #" + ShortRef(orderId))
    ensures |StatusName(status)| <= |r.meta| && r.meta[|r.meta| - |StatusName(status)|..] == StatusName(status)
  {
    ActivityItem("status-" + orderId + "-" + StatusName(status), StatusEvent, "Status updated",
                 "Order #" + ShortRef(orderId) + MetaSeparator + StatusName(status), at)
  }

  /** The "delivery assigned" entry, keyed by order and assignment. */
  function AssignedActivity(orderId: string, assignmentId: string, at: string): (r: ActivityItem)
    ensures StartsWith(r.id, "assign-") && r.kind == AssignedEvent && r.at == at
    ensures StartsWith(r.meta, "Order #") && r.meta[7..] == ShortRef(orderId)
  {
    ActivityItem("assign-" + orderId + "-" + assignmentId, AssignedEvent, "Delivery assigned",
                 "Order #" + ShortRef(orderId), at)
  }

  /** Entries of different kinds never share a key: their ids begin with
      different words. */
  lemma ActivityKeysByKind(o: FeedOrder, orderId: string, status: OrderStatus, assignmentId: string, at: string)
    ensures NewOrderActivity(o, at).id != StatusActivity(orderId, status, at).id
    ensures NewOrderActivity(o, at).id != AssignedActivity(orderId, assignmentId, at).id
    ensures StatusActivity(orderId, status, at).id != AssignedActivity(orderId, assignmentId, at).id
  {
    assert NewOrderActivity(o, at).id[0] == 'n';
    assert StatusActivity(orderId, status, at).id[0] == 's';
    assert AssignedActivity(orderId, assignmentId, at).id[0] == 'a';
  }

  /** Two status entries of one order share a key exactly when they announce
      the same status. */
  lemma StatusKeyPerStatus(orderId: string, s1: OrderStatus, s2: OrderStatus, at1: string, at2: string)
    ensures StatusActivity(orderId, s1, at1).id == StatusActivity(orderId, s2, at2).id <==> s1 == s2
  {
    var prefix := "status-" + orderId + "-";
    var a := StatusActivity(orderId, s1, at1).id;
    var b := StatusActivity(orderId, s2, at2).id;
    assert a == prefix + StatusName(s1) && b == prefix + StatusName(s2);
    if a == b {
      assert a[|prefix|..] == StatusName(s1) && b[|prefix|..] == StatusName(s2);
      StatusNameInjective(s1, s2);
    }
  }

  // ---------------------------------------------------------------------------
  // The socket handlers

  datatype Dashboard = Dashboard(orders: seq<FeedOrder>, activity: seq<ActivityItem>)

  /** new-Order: the order is upserted and a "new" entry is pushed. */
  function OnNewOrder(d: Dashboard, o: FeedOrder, at: string): (r: Dashboard)
    ensures r.orders == UpsertOrder(d.orders, o)
    ensures r.activity == PushActivity(d.activity, NewOrderActivity(o, at))
  {
    Dashboard(UpsertOrder(d.orders, o), PushActivity(d.activity, NewOrderActivity(o, at)))
  }

  /** order-status-updated: ignored entirely without an orderId; otherwise the
      matching orders are patched and a "status" entry is pushed. */
  function OnStatusUpdate(d: Dashboard, orderId: Option<string>, status: OrderStatus, order: Option<FeedOrder>, at: string): (r: Dashboard)
    ensures !Truthy(orderId) ==> r == d
    ensures Truthy(orderId) ==> r.orders == PatchStatus(d.orders, orderId, status, order)
    ensures Truthy(orderId) ==> r.activity == PushActivity(d.activity, StatusActivity(orderId.value, status, at))
    ensures order.None? && IdsUnique(d.orders) ==> IdsUnique(r.orders)
  {
    if !Truthy(orderId) then d
    else
      var r := PatchStatus(d.orders, orderId, status, order);
      assert order.None? ==> forall i :: 0 <= i < |r| ==> r[i].id == d.orders[i].id;
      Dashboard(r, PushActivity(d.activity, StatusActivity(orderId.value, status, at)))
  }

  /** delivery-assignment-accepted: ignored entirely without an orderId;
      otherwise the matching orders get the assignment and an "assigned" entry
      is pushed. */
  function OnAssignmentAccepted(d: Dashboard, orderId: Option<string>, assignmentId: string,
                                status: Option<string>, assignedTo: AssignedTo, at: string): (r: Dashboard)
    ensures !Truthy(orderId) ==> r == d
    ensures Truthy(orderId) ==> r.orders == PatchAssignment(d.orders, orderId, Some(assignmentId), status, assignedTo)
    ensures Truthy(orderId) ==> r.activity == PushActivity(d.activity, AssignedActivity(orderId.value, assignmentId, at))
    ensures IdsUnique(d.orders) ==> IdsUnique(r.orders)
  {
    if !Truthy(orderId) then d
    else
      var r := PatchAssignment(d.orders, orderId, Some(assignmentId), status, assignedTo);
      assert forall i :: 0 <= i < |r| ==> r[i].id == d.orders[i].id;
      Dashboard(r, PushActivity(d.activity, AssignedActivity(orderId.value, assignmentId, at)))
  }

  // ---------------------------------------------------------------------------
  // The stat cards

  /** Orders that count towards revenue: paid, or cash on delivery. */
  predicate Counted(o: FeedOrder) {
    o.isPaid || o.paymentMethod == "cod"
  }

  function CountedOrder(): FeedOrder -> bool {
    (o: FeedOrder) => Counted(o)
  }

  function Amount(): FeedOrder -> int {
    (o: FeedOrder) => o.totalAmount
  }

  function IsStatus(s: OrderStatus): FeedOrder -> bool {
    (o: FeedOrder) => o.status == Some(s)
  }

  function HasStatus(): FeedOrder -> bool {
    (o: FeedOrder) => o.status.Some?
  }

  /** typeof assignment === "object" with a truthy assignedTo. */
  predicate HasPartner(o: FeedOrder) {
    o.assignment.AssignmentDoc? &&
    match o.assignment.doc.assignedTo
    case Unassigned => false
    case AssignedRef(ref) => ref != ""
    case AssignedUser(_, _, _) => true
  }

  function PartnerAssigned(): FeedOrder -> bool {
    (o: FeedOrder) => HasPartner(o)
  }

  function Count(orders: seq<FeedOrder>, p: FeedOrder -> bool): nat {
    |Filter(orders, p)|
  }

  function Revenue(orders: seq<FeedOrder>): int {
    SumOf(Filter(orders, CountedOrder()), Amount())
  }

  datatype Stats = Stats(totalOrders: nat, revenue: int, pending: nat, outForDelivery: nat, delivered: nat, assignedOrders: nat)

  /** The stat cards: the pending, out-for-delivery and delivered counts never
      add up to more than the orders, and revenue is never negative when no
      total is. */
  function ComputeStats(orders: seq<FeedOrder>): (s: Stats)
    ensures s.totalOrders == |orders|
    ensures s.revenue == Revenue(orders)
    ensures s.pending == Count(orders, IsStatus(Pending)) && s.outForDelivery == Count(orders, IsStatus(OutForDelivery))
    ensures s.delivered == Count(orders, IsStatus(Delivered)) && s.assignedOrders == Count(orders, PartnerAssigned())
    ensures s.pending + s.outForDelivery + s.delivered <= |orders|
    ensures s.assignedOrders <= |orders|
    ensures (forall i :: 0 <= i < |orders| ==> orders[i].totalAmount >= 0) ==> s.revenue >= 0
  {
    StatusCountsAddUp(orders);
    RevenueNonNegative(orders);
    Stats(|orders|, Revenue(orders), Count(orders, IsStatus(Pending)), Count(orders, IsStatus(OutForDelivery)),
          Count(orders, IsStatus(Delivered)), Count(orders, PartnerAssigned()))
  }

  lemma RevenueNonNegative(orders: seq<FeedOrder>)
    ensures (forall i :: 0 <= i < |orders| ==> orders[i].totalAmount >= 0) ==> Revenue(orders) >= 0
  {
    if forall i :: 0 <= i < |orders| ==> orders[i].totalAmount >= 0 {
      var paid := Filter(orders, CountedOrder());
      assert forall i :: 0 <= i < |paid| ==> paid[i].totalAmount >= 0;
      SumOfNonNegative(paid, Amount());
    }
  }

  /** The six status counts add up to the number of orders that have a status. */
  lemma {:induction false} StatusCountsAddUp(orders: seq<FeedOrder>)
    ensures Count(orders, IsStatus(Pending)) + Count(orders, IsStatus(Confirmed)) + Count(orders, IsStatus(Shipped)) +
            Count(orders, IsStatus(OutForDelivery)) + Count(orders, IsStatus(Delivered)) + Count(orders, IsStatus(Cancelled))
            == Count(orders, HasStatus())
  {
    if orders != [] {
      StatusCountsAddUp(orders[1..]);
      CountCons(orders, IsStatus(Pending));
      CountCons(orders, IsStatus(Confirmed));
      CountCons(orders, IsStatus(Shipped));
      CountCons(orders, IsStatus(OutForDelivery));
      CountCons(orders, IsStatus(Delivered));
      CountCons(orders, IsStatus(Cancelled));
      CountCons(orders, HasStatus());
      var t := orders[1..];
      var h := orders[0];
      assert IsStatus(Pending)(h) == (h.status == Some(Pending));
      assert IsStatus(Confirmed)(h) == (h.status == Some(Confirmed));
      assert IsStatus(Shipped)(h) == (h.status == Some(Shipped));
      assert IsStatus(OutForDelivery)(h) == (h.status == Some(OutForDelivery));
      assert IsStatus(Delivered)(h) == (h.status == Some(Delivered));
      assert IsStatus(Cancelled)(h) == (h.status == Some(Cancelled));
      assert HasStatus()(h) == h.status.Some?;
      if h.status.Some? {
        match h.status.value
        case Pending =>
        case Confirmed =>
        case Shipped =>
        case OutForDelivery =>
        case Delivered =>
        case Cancelled =>
      }
    }
  }

  lemma CountCons(orders: seq<FeedOrder>, p: FeedOrder -> bool)
    requires orders != []
    ensures Count(orders, p) == (if p(orders[0]) then 1 else 0) + Count(orders[1..], p)
  {
  }

  /** A new order counted towards revenue raises it by its total. */
  lemma RevenueAfterNewOrder(orders: seq<FeedOrder>, o: FeedOrder)
    requires forall i :: 0 <= i < |orders| ==> orders[i].id != o.id
    ensures Revenue(UpsertOrder(orders, o)) == Revenue(orders) + (if Counted(o) then o.totalAmount else 0)
  {
    assert ([o] + orders)[1..] == orders;
  }

  /** Patching the order at k, the only one with its id, changes a count by
      what the patch did to that order alone. */
  lemma {:induction false} CountAfterPatch(orders: seq<FeedOrder>, id: string, f: FeedOrder -> FeedOrder,
                                           p: FeedOrder -> bool, k: nat)
    requires IdsUnique(orders) && k < |orders| && orders[k].id == id
    ensures Count(PatchWhere(orders, id, f), p) + (if p(orders[k]) then 1 else 0)
            == Count(orders, p) + (if p(f(orders[k])) then 1 else 0)
  {
    var r := PatchWhere(orders, id, f);
    var t := orders[1..];
    var rt := PatchWhere(t, id, f);
    assert r[1..] == rt;
    CountCons(orders, p);
    CountCons(r, p);
    TailOfUnique(orders);
    if k == 0 {
      PatchNoMatch(t, id, f);
    } else {
      assert orders[0].id != id;
      CountAfterPatch(t, id, f, p, k - 1);
    }
  }

  /** The tail of a list with unique ids has unique ids, none equal to the head's. */
  lemma TailOfUnique(orders: seq<FeedOrder>)
    requires orders != [] && IdsUnique(orders)
    ensures IdsUnique(orders[1..])
    ensures forall i :: 0 <= i < |orders[1..]| ==> orders[1..][i].id != orders[0].id
  {
    var t := orders[1..];
    forall i, j | 0 <= i < j < |t|
      ensures t[i].id != t[j].id
    {
      assert t[i] == orders[i + 1] && t[j] == orders[j + 1];
    }
    forall i | 0 <= i < |t|
      ensures t[i].id != orders[0].id
    {
      assert t[i] == orders[i + 1];
    }
  }

  lemma PatchNoMatch(orders: seq<FeedOrder>, id: string, f: FeedOrder -> FeedOrder)
    requires forall i :: 0 <= i < |orders| ==> orders[i].id != id
    ensures PatchWhere(orders, id, f) == orders
  {
  }

  /** An accepted assignment with a partner on an order that had none raises
      the assigned card by exactly one. */
  lemma AcceptRaisesAssigned(orders: seq<FeedOrder>, k: nat, assignmentId: Option<string>, status: Option<string>,
                             assignedTo: AssignedTo)
    requires IdsUnique(orders) && k < |orders| && orders[k].id != ""
    requires !HasPartner(orders[k])
    requires assignedTo.AssignedUser? || (assignedTo.AssignedRef? && assignedTo.ref != "")
    ensures ComputeStats(PatchAssignment(orders, Some(orders[k].id), assignmentId, status, assignedTo)).assignedOrders
            == ComputeStats(orders).assignedOrders + 1
  {
    CountAfterPatch(orders, orders[k].id, WithAssignment(Accepted(assignmentId, status, assignedTo)), PartnerAssigned(), k);
  }

  // ---------------------------------------------------------------------------
  // Recent orders

  /** The sort key: the creation instant, or 0 without one. */
  function CreatedKey(): FeedOrder -> int {
    (o: FeedOrder) => if o.createdAt.Some? then o.createdAt.value else 0
  }

  /** The six newest orders, newest first. */
  function RecentOrders(orders: seq<FeedOrder>): (r: seq<FeedOrder>)
    ensures |r| == (if |orders| <= 6 then |orders| else 6)
    ensures SortedDesc(r, CreatedKey())
    ensures multiset(r) <= multiset(orders)
  {
    var sorted := SortDesc(orders, CreatedKey());
    var r := Take(sorted, 6);
    assert sorted == r + sorted[|r|..];
    assert multiset(sorted) == multiset(r) + multiset(sorted[|r|..]);
    r
  }

  /** No order left out of the recent list is newer than one in it. */
  lemma RecentOrdersAreNewest(orders: seq<FeedOrder>, j: nat)
    requires j < |orders| && orders[j] !in RecentOrders(orders)
    ensures forall i :: 0 <= i < |RecentOrders(orders)| ==> CreatedKey()(RecentOrders(orders)[i]) >= CreatedKey()(orders[j])
  {
    var sorted := SortDesc(orders, CreatedKey());
    var r := RecentOrders(orders);
    assert r == Take(sorted, 6);
    assert orders[j] in multiset(sorted);
    var m :| 0 <= m < |sorted| && sorted[m] == orders[j];
  }

  // ---------------------------------------------------------------------------
  // Revenue by weekday

  const DayMillis: int := 86400000

  /** getDay() of an instant, in UTC: the epoch fell on a Thursday. */
  function Weekday(t: int): (d: int)
    ensures 0 <= d < 7
  {
    (t / DayMillis + 4) % 7
  }

  function DayAmount(d: int): FeedOrder -> int {
    (o: FeedOrder) => if Counted(o) && o.createdAt.Some? && Weekday(o.createdAt.value) == d then o.totalAmount else 0
  }

  /** The revenue of the counted, dated orders created on weekday d. */
  function DayRevenue(orders: seq<FeedOrder>, d: int): int {
    SumOf(orders, DayAmount(d))
  }

  /** Math.max(1, ...values). */
  function MaxOrOne(values: seq<int>): (m: int)
    ensures m >= 1
    ensures forall i :: 0 <= i < |values| ==> values[i] <= m
    ensures m == 1 || m in values
  {
    if values == [] then 1
    else
      var rest := MaxOrOne(values[1..]);
      if values[0] > rest then values[0] else rest
  }

  /** revenueByDay: seven buckets, Sunday first, each holding the revenue of
      its weekday, and the largest bucket but at least 1. */
  method RevenueByDay(orders: seq<FeedOrder>) returns (buckets: array<int>, max: int)
    ensures fresh(buckets) && buckets.Length == 7
    ensures forall d :: 0 <= d < 7 ==> buckets[d] == DayRevenue(orders, d)
    ensures max == MaxOrOne(buckets[..])
  {
    buckets := new int[7](_ => 0);
    var i := 0;
    while i < |orders|
      invariant 0 <= i <= |orders|
      invariant forall d :: 0 <= d < 7 ==> buckets[d] == DayRevenue(orders[..i], d)
    {
      var o := orders[i];
      assert orders[..i + 1] == orders[..i] + [o];
      forall d | 0 <= d < 7
        ensures DayRevenue(orders[..i + 1], d) == DayRevenue(orders[..i], d) + DayAmount(d)(o)
      {
        SumOfAppend(orders[..i], [o], DayAmount(d));
      }
      if Counted(o) && o.createdAt.Some? {
        var idx := Weekday(o.createdAt.value);
        buckets[idx] := buckets[idx] + o.totalAmount;
      }
      i := i + 1;
    }
    assert orders[..|orders|] == orders;
    max := MaxOrOne(buckets[..]);
  }

  function DatedOrder(): FeedOrder -> bool {
    (o: FeedOrder) => Counted(o) && o.createdAt.Some?
  }

  function WeekRevenue(orders: seq<FeedOrder>): int {
    DayRevenue(orders, 0) + DayRevenue(orders, 1) + DayRevenue(orders, 2) + DayRevenue(orders, 3) +
    DayRevenue(orders, 4) + DayRevenue(orders, 5) + DayRevenue(orders, 6)
  }

  /** An order adds its total to the week when it is counted and dated. */
  lemma WeekCons(orders: seq<FeedOrder>)
    requires orders != []
    ensures WeekRevenue(orders) == (if DatedOrder()(orders[0]) then orders[0].totalAmount else 0) + WeekRevenue(orders[1..])
  {
    var h := orders[0];
    if DatedOrder()(h) {
      var d := Weekday(h.createdAt.value);
      assert 0 <= d < 7;
    }
  }

  /** The seven buckets together hold the revenue of the dated orders, which is
      the revenue card when every counted order has a date. */
  lemma {:induction false} BucketsAddUpToRevenue(orders: seq<FeedOrder>)
    ensures WeekRevenue(orders) == SumOf(Filter(orders, DatedOrder()), Amount())
    ensures (forall i :: 0 <= i < |orders| && Counted(orders[i]) ==> orders[i].createdAt.Some?) ==>
      WeekRevenue(orders) == Revenue(orders)
  {
    if orders != [] {
      BucketsAddUpToRevenue(orders[1..]);
      WeekCons(orders);
    }
  }

  // ---------------------------------------------------------------------------
  // The status chart

  datatype Breakdown = Breakdown(total: nat, byStatus: seq<(OrderStatus, nat)>)

  /** statusBreakdown: the total is never 0, and there is one row per status,
      in the order the page lists them, holding its count. */
  function StatusBreakdown(orders: seq<FeedOrder>): (b: Breakdown)
    ensures b.total >= 1 && b.total >= |orders|
    ensures |orders| >= 1 ==> b.total == |orders|
    ensures |b.byStatus| == 6
    ensures forall i :: 0 <= i < 6 ==> b.byStatus[i] == (AllStatuses[i], Count(orders, IsStatus(AllStatuses[i])))
  {
    Breakdown(if |orders| >= 1 then |orders| else 1,
              seq(6, i requires 0 <= i < 6 => (AllStatuses[i], Count(orders, IsStatus(AllStatuses[i])))))
  }

  datatype Pie = EmptyPie | Segments(stops: seq<(real, real)>)

  /** (count / total) * 100. */
  function Share(count: nat, total: nat): real
    requires total != 0
  {
    (count as real / total as real) * 100.0
  }

  /** The sum of the shares of the given counts. */
  function Shares(counts: seq<nat>, total: nat): real
    requires total != 0
  {
    if counts == [] then 0.0 else Shares(counts[..|counts| - 1], total) + Share(counts[|counts| - 1], total)
  }

  function Counts(rows: seq<(OrderStatus, nat)>): (r: seq<nat>)
    ensures |r| == |rows| && forall i :: 0 <= i < |rows| ==> r[i] == rows[i].1
  {
    seq(|rows|, i requires 0 <= i < |rows| => rows[i].1)
  }

  /** statusPie: a grey full circle when the total is 0, and otherwise one
      segment per row, each starting where the previous one ended. */
  method StatusPie(b: Breakdown) returns (p: Pie)
    ensures b.total == 0 ==> p == EmptyPie
    ensures b.total != 0 ==> p.Segments? && |p.stops| == |b.byStatus|
    ensures b.total != 0 ==> forall i :: 0 <= i < |b.byStatus| ==>
      p.stops[i] == (Shares(Counts(b.byStatus)[..i], b.total), Shares(Counts(b.byStatus)[..i + 1], b.total))
  {
    if b.total == 0 {
      return EmptyPie;
    }
    var counts := Counts(b.byStatus);
    var acc := 0.0;
    var stops: seq<(real, real)> := [];
    var i := 0;
    while i < |counts|
      invariant 0 <= i <= |counts| && |stops| == i
      invariant acc == Shares(counts[..i], b.total)
      invariant forall k :: 0 <= k < i ==> stops[k] == (Shares(counts[..k], b.total), Shares(counts[..k + 1], b.total))
    {
      var start := acc;
      acc := acc + Share(counts[i], b.total);
      assert counts[..i + 1][..i] == counts[..i];
      stops := stops + [(start, acc)];
      i := i + 1;
    }
    p := Segments(stops);
  }

  function AsInt(): nat -> int {
    (c: nat) => c as int
  }

  lemma ShareAdd(a: int, c: nat, total: nat)
    requires total != 0
    ensures (a as real / total as real) * 100.0 + Share(c, total) == ((a + c) as real / total as real) * 100.0
  {
    var t := total as real;
    assert a as real / t + c as real / t == (a + c) as real / t;
  }

  /** The shares add up to the counts' sum over the total, times 100. */
  lemma {:induction false} SharesSum(counts: seq<nat>, total: nat)
    requires total != 0
    ensures Shares(counts, total) == (SumOf(counts, AsInt()) as real / total as real) * 100.0
  {
    if counts != [] {
      var init := counts[..|counts| - 1];
      var last := counts[|counts| - 1];
      SharesSum(init, total);
      assert counts == init + [last];
      SumOfAppend(init, [last], AsInt());
      ShareAdd(SumOf(init, AsInt()), last, total);
    }
  }

  /** The counts of the breakdown's rows add up to the orders with a status. */
  lemma BreakdownCountsOrders(orders: seq<FeedOrder>)
    ensures SumOf(Counts(StatusBreakdown(orders).byStatus), AsInt()) == Count(orders, HasStatus())
  {
    var cs := Counts(StatusBreakdown(orders).byStatus);
    StatusCountsAddUp(orders);
    var f := AsInt();
    assert SumOf(cs, f) == cs[0] + SumOf(cs[1..], f);
    assert SumOf(cs[1..], f) == cs[1] + SumOf(cs[2..], f);
    assert SumOf(cs[2..], f) == cs[2] + SumOf(cs[3..], f);
    assert SumOf(cs[3..], f) == cs[3] + SumOf(cs[4..], f);
    assert SumOf(cs[4..], f) == cs[4] + SumOf(cs[5..], f);
    assert SumOf(cs[5..], f) == cs[5] + SumOf(cs[6..], f);
  }

  /** The chart's last segment ends at 100 * (orders with a status) / total:
      at 100 exactly when there are orders and every one has a status, and
      never past 100. */
  lemma PieEnd(orders: seq<FeedOrder>)
    ensures var b := StatusBreakdown(orders);
      Shares(Counts(b.byStatus), b.total) == (Count(orders, HasStatus()) as real / b.total as real) * 100.0
    ensures var b := StatusBreakdown(orders);
      Shares(Counts(b.byStatus), b.total) <= 100.0
    ensures var b := StatusBreakdown(orders);
      orders != [] && (forall i :: 0 <= i < |orders| ==> orders[i].status.Some?) ==> Shares(Counts(b.byStatus), b.total) == 100.0
  {
    var b := StatusBreakdown(orders);
    SharesSum(Counts(b.byStatus), b.total);
    BreakdownCountsOrders(orders);
    var n := Count(orders, HasStatus());
    if orders != [] && (forall i :: 0 <= i < |orders| ==> orders[i].status.Some?) {
      FilterAll(orders, HasStatus());
    }
    PercentBound(n, b.total);
  }

  lemma PercentBound(n: nat, total: nat)
    requires 0 < total && n <= total
    ensures (n as real / total as real) * 100.0 <= 100.0
    ensures n == total ==> (n as real / total as real) * 100.0 == 100.0
  {
    var t := total as real;
    assert n as real / t <= 1.0;
  }
}
