/** The delivery partner's history page: the completed assignments as fetched,
    the payout card, the count of deliveries and the search box. */
module Delivered {
  import opened Common

  /** The populated order of a completed assignment, as far as the page reads
      it; a fee that is absent, null or not a number is None. */
  datatype HistoryOrder = HistoryOrder(id: Option<string>, fullname: Option<string>, deliveryFee: Option<int>)

  /** A completed assignment; its order may be missing. */
  datatype HistoryItem = HistoryItem(order: Option<HistoryOrder>)

  /** The body of the history request: an array, an object whose assignments
      field may be absent, or anything else (null, a string, a number). */
  datatype HistoryBody = ArrayBody(items: seq<HistoryItem>) | ObjectBody(assignments: Option<seq<HistoryItem>>) | OtherBody

  /** The list taken from the body: the array itself, else its assignments,
      else the empty list. */
  function Normalise(body: HistoryBody): (r: seq<HistoryItem>)
    ensures body.ArrayBody? ==> r == body.items
    ensures body.ObjectBody? && body.assignments.Some? ==> r == body.assignments.value
    ensures (body.ObjectBody? && body.assignments.None?) || body.OtherBody? ==> r == []
  {
    match body
    case ArrayBody(items) => items
    case ObjectBody(assignments) => if assignments.Some? then assignments.value else []
    case OtherBody => []
  }

  /** The list after the fetch: a failed request leaves the previous list. */
  function AfterFetch(previous: seq<HistoryItem>, body: Option<HistoryBody>): (r: seq<HistoryItem>)
    ensures body.None? ==> r == previous
    ensures body.Some? ==> r == Normalise(body.value)
  {
    if body.None? then previous else Normalise(body.value)
  }

  /** order?.deliveryFee || 0. */
  function Fee(): HistoryItem -> int {
    (item: HistoryItem) => if item.order.Some? && item.order.value.deliveryFee.Some? then item.order.value.deliveryFee.value else 0
  }

  predicate FeesNonNegative(items: seq<HistoryItem>) {
    forall i :: 0 <= i < |items| ==> Fee()(items[i]) >= 0
  }

  /** totalEarnings: the sum of the fees over the whole list. */
  function TotalEarnings(items: seq<HistoryItem>): (total: int)
    ensures FeesNonNegative(items) ==> total >= 0
    ensures (forall i :: 0 <= i < |items| ==> items[i].order.None? || items[i].order.value.deliveryFee.None?) ==> total == 0
  {
    if FeesNonNegative(items) then
      SumOfNonNegative(items, Fee());
      SumOf(items, Fee())
    else SumOf(items, Fee())
  }

  /** Earnings add up over a list split in two. */
  lemma EarningsAdd(a: seq<HistoryItem>, b: seq<HistoryItem>)
    ensures TotalEarnings(a + b) == TotalEarnings(a) + TotalEarnings(b)
  {
    SumOfAppend(a, b, Fee());
  }

  /** The order's id, or its customer's name, includes the term, both
      lowercased; an item without an order, or without those fields, never
      matches. */
  predicate Matches(item: HistoryItem, term: string) {
    item.order.Some? &&
    ((item.order.value.id.Some? && Contains(ToLower(item.order.value.id.value), ToLower(term))) ||
     (item.order.value.fullname.Some? && Contains(ToLower(item.order.value.fullname.value), ToLower(term))))
  }

  function MatchesTerm(term: string): HistoryItem -> bool {
    (item: HistoryItem) => Matches(item, term)
  }

  /** filtered: the items that match the term, in list order. */
  function Filtered(items: seq<HistoryItem>, term: string): (r: seq<HistoryItem>)
    ensures |r| <= |items|
    ensures forall i :: 0 <= i < |r| ==> r[i] in items && Matches(r[i], term)
    ensures forall i :: 0 <= i < |items| ==> (items[i] in r <==> Matches(items[i], term))
  {
    Filter(items, MatchesTerm(term))
  }

  /** An empty search shows every item that has an order with an id or a name. */
  lemma EmptyTermShowsOrders(items: seq<HistoryItem>, k: nat)
    requires k < |items| && items[k].order.Some?
    requires items[k].order.value.id.Some? || items[k].order.value.fullname.Some?
    ensures items[k] in Filtered(items, "")
  {
    if items[k].order.value.id.Some? {
      ContainsEmpty(ToLower(items[k].order.value.id.value));
    } else {
      ContainsEmpty(ToLower(items[k].order.value.fullname.value));
    }
  }

  /** What the page shows: the count and the payout of the whole list, and the
      cards of the matching items. */
  datatype HistoryView = HistoryView(count: nat, earnings: int, shown: seq<HistoryItem>)

  /** The count and the payout do not follow the search: they cover the whole
      list, so they are never less than what the shown cards add up to. */
  function View(items: seq<HistoryItem>, term: string): (v: HistoryView)
    ensures v.count == |items| && v.earnings == TotalEarnings(items) && v.shown == Filtered(items, term)
    ensures |v.shown| <= v.count
    ensures FeesNonNegative(items) ==> TotalEarnings(v.shown) <= v.earnings
  {
    if FeesNonNegative(items) then
      FilteredEarnLess(items, MatchesTerm(term));
      HistoryView(|items|, TotalEarnings(items), Filtered(items, term))
    else HistoryView(|items|, TotalEarnings(items), Filtered(items, term))
  }

  /** Leaving items out never raises the payout when no fee is negative. */
  lemma {:induction false} FilteredEarnLess(items: seq<HistoryItem>, p: HistoryItem -> bool)
    requires FeesNonNegative(items)
    ensures TotalEarnings(Filter(items, p)) <= TotalEarnings(items)
  {
    if items != [] {
      FilteredEarnLess(items[1..], p);
      if p(items[0]) {
        assert Filter(items, p) == [items[0]] + Filter(items[1..], p);
        assert Filter(items, p)[1..] == Filter(items[1..], p);
      }
    }
  }
}
