/** The shopping cart: the Redux slice whose reducers change the cart list in
    place, and the bill the cart page shows. Prices are whole rupees. */
module Cart {
  import opened Common

  /** A cart line: a grocery with its id (absent ids compare equal, as
      undefined == undefined does), its price and the chosen quantity. */
  datatype CartItem = CartItem(
    id: Option<string>, name: string, category: string, price: int,
    image: string, unit: string, quantity: int)

  function HasId(id: Option<string>): CartItem -> bool {
    (item: CartItem) => item.id == id
  }

  function NotId(id: Option<string>): CartItem -> bool {
    (item: CartItem) => item.id != id
  }

  /** No two lines share an id. */
  predicate IdsUnique(cart: seq<CartItem>) {
    forall i, j :: 0 <= i < j < |cart| ==> cart[i].id != cart[j].id
  }

  // ---------------------------------------------------------------------------
  // The reducers as functions of the old cart

  /** addToCart: a line with the same id gains one unit (the payload's quantity
      is ignored); otherwise the payload is appended. */
  function AddToCart(cart: seq<CartItem>, item: CartItem): (r: seq<CartItem>)
    ensures FindFirst(cart, HasId(item.id)).Some? ==>
      var k := FindFirst(cart, HasId(item.id)).value;
      r == cart[k := cart[k].(quantity := cart[k].quantity + 1)]
    ensures FindFirst(cart, HasId(item.id)).None? ==> r == cart + [item]
  {
    match FindFirst(cart, HasId(item.id))
    case Some(k) => cart[k := cart[k].(quantity := cart[k].quantity + 1)]
    case None => cart + [item]
  }

  /** increment: the line with the id gains one unit; an unknown id changes nothing. */
  function Increment(cart: seq<CartItem>, id: Option<string>): (r: seq<CartItem>)
    ensures |r| == |cart|
    ensures forall i :: 0 <= i < |cart| ==> r[i].(quantity := cart[i].quantity) == cart[i]
    ensures FindFirst(cart, HasId(id)).None? ==> r == cart
    ensures FindFirst(cart, HasId(id)).Some? ==>
      var k := FindFirst(cart, HasId(id)).value;
      r[k].quantity == cart[k].quantity + 1 && forall i :: 0 <= i < |cart| && i != k ==> r[i] == cart[i]
  {
    match FindFirst(cart, HasId(id))
    case Some(k) => cart[k := cart[k].(quantity := cart[k].quantity + 1)]
    case None => cart
  }

  /** decrement: a line above one unit loses one; a line at one unit or less
      is removed, together with any other line of that id; an unknown id
      changes nothing. */
  function Decrement(cart: seq<CartItem>, id: Option<string>): (r: seq<CartItem>)
    ensures FindFirst(cart, HasId(id)).None? ==> r == cart
    ensures FindFirst(cart, HasId(id)).Some? && cart[FindFirst(cart, HasId(id)).value].quantity > 1 ==>
      var k := FindFirst(cart, HasId(id)).value;
      r == cart[k := cart[k].(quantity := cart[k].quantity - 1)]
    ensures FindFirst(cart, HasId(id)).Some? && cart[FindFirst(cart, HasId(id)).value].quantity <= 1 ==>
      r == Filter(cart, NotId(id)) && |r| < |cart| && forall i :: 0 <= i < |r| ==> r[i].id != id
  {
    match FindFirst(cart, HasId(id))
    case None => cart
    case Some(k) =>
      if cart[k].quantity > 1 then cart[k := cart[k].(quantity := cart[k].quantity - 1)]
      else
        FilterShorter(cart, NotId(id), k);
        Filter(cart, NotId(id))
  }

  /** A filter that rejects some element returns fewer elements. */
  lemma {:induction false} FilterShorter(s: seq<CartItem>, p: CartItem -> bool, k: nat)
    requires k < |s| && !p(s[k])
    ensures |Filter(s, p)| < |s|
  {
    if k > 0 {
      FilterShorter(s[1..], p, k - 1);
    } else {
      assert |Filter(s[1..], p)| <= |s[1..]|;
    }
  }

  /** With unique ids, removing a line at one unit removes that line alone and
      keeps the others in order. */
  lemma DecrementRemovesOneLine(cart: seq<CartItem>, id: Option<string>)
    requires IdsUnique(cart)
    requires FindFirst(cart, HasId(id)).Some? && cart[FindFirst(cart, HasId(id)).value].quantity <= 1
    ensures var k := FindFirst(cart, HasId(id)).value;
      Decrement(cart, id) == cart[..k] + cart[k + 1..]
  {
    var k := FindFirst(cart, HasId(id)).value;
    FilterDropsOne(cart, NotId(id), k);
  }

  /** Adding keeps ids unique: a known id only changes a quantity, a new one
      is appended. */
  lemma AddKeepsIdsUnique(cart: seq<CartItem>, item: CartItem)
    requires IdsUnique(cart)
    ensures IdsUnique(AddToCart(cart, item))
  {
    var added := AddToCart(cart, item);
    if FindFirst(cart, HasId(item.id)).None? {
      forall i, j | 0 <= i < j < |added| ensures added[i].id != added[j].id {
        if j == |cart| {
          assert added[i] == cart[i];
          assert !HasId(item.id)(cart[i]);
        }
      }
    }
  }

  /** Changing one line's quantity keeps ids unique. */
  lemma QuantityKeepsIdsUnique(cart: seq<CartItem>, k: nat, q: int)
    requires IdsUnique(cart) && k < |cart|
    ensures IdsUnique(cart[k := cart[k].(quantity := q)])
  {
    var d := cart[k := cart[k].(quantity := q)];
    assert forall i :: 0 <= i < |cart| ==> d[i].id == cart[i].id;
  }

  /** Dropping one line keeps ids unique. */
  lemma WithoutKeepsIdsUnique(cart: seq<CartItem>, k: nat)
    requires IdsUnique(cart) && k < |cart|
    ensures IdsUnique(cart[..k] + cart[k + 1..])
  {
    var d := cart[..k] + cart[k + 1..];
    forall i, j | 0 <= i < j < |d| ensures d[i].id != d[j].id {
      var i' := if i < k then i else i + 1;
      var j' := if j < k then j else j + 1;
      assert d[i] == cart[i'] && d[j] == cart[j'];
    }
  }

  /** Increment keeps ids unique: it changes a quantity only. */
  lemma IncrementKeepsIdsUnique(cart: seq<CartItem>, id: Option<string>)
    requires IdsUnique(cart)
    ensures IdsUnique(Increment(cart, id))
  {
    match FindFirst(cart, HasId(id))
    case None =>
    case Some(k) => QuantityKeepsIdsUnique(cart, k, cart[k].quantity + 1);
  }

  /** Decrement keeps ids unique: it changes a quantity or drops a line. */
  lemma DecrementKeepsIdsUnique(cart: seq<CartItem>, id: Option<string>)
    requires IdsUnique(cart)
    ensures IdsUnique(Decrement(cart, id))
  {
    match FindFirst(cart, HasId(id))
    case None =>
    case Some(k) =>
      if cart[k].quantity <= 1 {
        DecrementRemovesOneLine(cart, id);
        WithoutKeepsIdsUnique(cart, k);
      } else {
        QuantityKeepsIdsUnique(cart, k, cart[k].quantity - 1);
      }
  }

  /** Starting from the empty cart, any sequence of reducer calls leaves ids
      unique. */
  datatype CartAction = Add(item: CartItem) | Inc(id: Option<string>) | Dec(id: Option<string>)

  function Step(cart: seq<CartItem>, a: CartAction): seq<CartItem> {
    match a
    case Add(item) => AddToCart(cart, item)
    case Inc(id) => Increment(cart, id)
    case Dec(id) => Decrement(cart, id)
  }

  function Replay(cart: seq<CartItem>, actions: seq<CartAction>): seq<CartItem>
    decreases |actions|
  {
    if actions == [] then cart else Replay(Step(cart, actions[0]), actions[1..])
  }

  lemma {:induction false} ReplayKeepsIdsUnique(cart: seq<CartItem>, actions: seq<CartAction>)
    requires IdsUnique(cart)
    ensures IdsUnique(Replay(cart, actions))
    decreases |actions|
  {
    if actions != [] {
      var a := actions[0];
      if a.Add? {
        AddKeepsIdsUnique(cart, a.item);
      } else if a.Inc? {
        IncrementKeepsIdsUnique(cart, a.id);
      } else {
        DecrementKeepsIdsUnique(cart, a.id);
      }
      ReplayKeepsIdsUnique(Step(cart, a), actions[1..]);
    }
  }

  lemma InitialCartIdsUnique(actions: seq<CartAction>)
    ensures IdsUnique(Replay([], actions))
  {
    ReplayKeepsIdsUnique([], actions);
  }

  /** Pressing minus after plus restores the cart. */
  lemma {:induction false} DecrementUndoesIncrement(cart: seq<CartItem>, id: Option<string>)
    requires FindFirst(cart, HasId(id)).Some? && cart[FindFirst(cart, HasId(id)).value].quantity >= 1
    ensures Decrement(Increment(cart, id), id) == cart
  {
    var k := FindFirst(cart, HasId(id)).value;
    var inc := Increment(cart, id);
    assert inc == cart[k := cart[k].(quantity := cart[k].quantity + 1)];
    forall j | 0 <= j < k
      ensures !HasId(id)(inc[j])
    {
      assert inc[j] == cart[j];
    }
    FindFirstAt(inc, HasId(id), k);
    assert inc[k].(quantity := inc[k].quantity - 1) == cart[k];
    assert inc[k := inc[k].(quantity := inc[k].quantity - 1)] == cart;
  }

  /** Removing a new single-unit line right after adding it restores the cart. */
  lemma DecrementUndoesAdd(cart: seq<CartItem>, item: CartItem)
    requires IdsUnique(cart) && FindFirst(cart, HasId(item.id)).None? && item.quantity <= 1
    ensures Decrement(AddToCart(cart, item), item.id) == cart
  {
    var added := cart + [item];
    assert added[|cart|] == item;
    assert forall j :: 0 <= j < |cart| ==> added[j] == cart[j];
    assert FindFirst(added, HasId(item.id)) == Some(|cart|);
    AddKeepsIdsUnique(cart, item);
    DecrementRemovesOneLine(added, item.id);
    assert added[..|cart|] == cart;
  }

  // ---------------------------------------------------------------------------
  // The bill

  /** One line's amount: price times quantity; a single unit costs its price. */
  function LineTotal(item: CartItem): (t: int)
    ensures item.quantity == 0 ==> t == 0
    ensures item.quantity == 1 ==> t == item.price
  {
    item.price * item.quantity
  }

  /** itemTotal: the sum of price times quantity over the lines; nothing for an
      empty cart, and never negative when no line is. */
  function ItemTotal(cart: seq<CartItem>): (total: int)
    ensures cart == [] ==> total == 0
    ensures (forall i :: 0 <= i < |cart| ==> LineTotal(cart[i]) >= 0) ==> total >= 0
  {
    assert (forall i :: 0 <= i < |cart| ==> LineTotal(cart[i]) >= 0) ==> SumOf(cart, LineTotal) >= 0 by {
      if forall i :: 0 <= i < |cart| ==> LineTotal(cart[i]) >= 0 {
        SumOfNonNegative(cart, LineTotal);
      }
    }
    SumOf(cart, LineTotal)
  }

  const FlatDeliveryFee: int := 40

  /** The delivery fee: 40 on a positive subtotal, otherwise 0. */
  function DeliveryFee(subtotal: int): (fee: int)
    ensures fee == FlatDeliveryFee <==> subtotal > 0
    ensures fee == 0 <==> subtotal <= 0
  {
    if subtotal > 0 then FlatDeliveryFee else 0
  }

  /** totalToPay: the subtotal with the flat fee added when it is positive. */
  function TotalToPay(cart: seq<CartItem>): (total: int)
    ensures ItemTotal(cart) > 0 ==> total == ItemTotal(cart) + FlatDeliveryFee
    ensures ItemTotal(cart) <= 0 ==> total == ItemTotal(cart)
    ensures total >= ItemTotal(cart)
  {
    ItemTotal(cart) + DeliveryFee(ItemTotal(cart))
  }

  /** handleProceed and the button: checkout opens only for a non-empty cart,
      so a cart that cannot proceed has nothing to pay. */
  predicate CanProceed(cart: seq<CartItem>): (ok: bool)
    ensures !ok ==> ItemTotal(cart) == 0 && TotalToPay(cart) == 0
  {
    |cart| > 0
  }

  /** Lines with positive price and quantity. */
  predicate Priced(cart: seq<CartItem>) {
    forall i :: 0 <= i < |cart| ==> cart[i].price > 0 && cart[i].quantity > 0
  }

  /** For priced lines the fee is charged exactly when checkout is possible,
      and an empty cart costs nothing. */
  lemma {:induction false} FeeIffCanProceed(cart: seq<CartItem>)
    requires Priced(cart)
    ensures DeliveryFee(ItemTotal(cart)) == FlatDeliveryFee <==> CanProceed(cart)
    ensures cart == [] ==> TotalToPay(cart) == 0
  {
    if cart != [] {
      SumOfNonNegative(cart[1..], LineTotal);
      assert LineTotal(cart[0]) > 0;
    }
  }

  /** Adding raises the subtotal by one unit of the existing line, or by the
      new line's total. */
  lemma {:induction false} AddToCartTotal(cart: seq<CartItem>, item: CartItem)
    ensures FindFirst(cart, HasId(item.id)).Some? ==>
      ItemTotal(AddToCart(cart, item)) == ItemTotal(cart) + cart[FindFirst(cart, HasId(item.id)).value].price
    ensures FindFirst(cart, HasId(item.id)).None? ==>
      ItemTotal(AddToCart(cart, item)) == ItemTotal(cart) + LineTotal(item)
  {
    match FindFirst(cart, HasId(item.id))
    case Some(k) =>
      OneMoreUnitTotal(cart, k);
    case None =>
      SumOfAppend(cart, [item], LineTotal);
      assert SumOf([item], LineTotal) == LineTotal(item);
  }

  /** One more unit on line k raises the subtotal by that line's price. */
  lemma OneMoreUnitTotal(cart: seq<CartItem>, k: nat)
    requires k < |cart|
    ensures ItemTotal(cart[k := cart[k].(quantity := cart[k].quantity + 1)]) == ItemTotal(cart) + cart[k].price
  {
    var x := cart[k].(quantity := cart[k].quantity + 1);
    SumOfUpdate(cart, k, x);
    assert LineTotal(x) == LineTotal(cart[k]) + cart[k].price by {
      var p, q := cart[k].price, cart[k].quantity;
      assert p * (q + 1) == p * q + p;
    }
    assert ItemTotal(cart[k := x]) == SumOf(cart[k := x], LineTotal);
    assert ItemTotal(cart) == SumOf(cart, LineTotal);
  }

  lemma {:induction false} SumOfUpdate(cart: seq<CartItem>, k: nat, x: CartItem)
    requires k < |cart|
    ensures SumOf(cart[k := x], LineTotal) == SumOf(cart, LineTotal) - LineTotal(cart[k]) + LineTotal(x)
  {
    if k == 0 {
      assert cart[k := x][1..] == cart[1..];
    } else {
      assert cart[k := x][1..] == cart[1..][k - 1 := x];
      SumOfUpdate(cart[1..], k - 1, x);
    }
  }

  // ---------------------------------------------------------------------------
  // The slice

  /** The cart state, changed in place by the reducers; it starts empty. */
  class CartSlice {
    var cartData: seq<CartItem>

    constructor ()
      ensures cartData == []
    {
      cartData := [];
    }

    method AddToCartReducer(item: CartItem)
      modifies this
      ensures cartData == AddToCart(old(cartData), item)
    {
      var existing := Find(cartData, HasId(item.id));
      if existing.Some? {
        var k := existing.value;
        cartData := cartData[k := cartData[k].(quantity := cartData[k].quantity + 1)];
      } else {
        cartData := cartData + [item];
      }
    }

    method IncrementReducer(id: Option<string>)
      modifies this
      ensures cartData == Increment(old(cartData), id)
    {
      var found := Find(cartData, HasId(id));
      if found.Some? {
        var k := found.value;
        cartData := cartData[k := cartData[k].(quantity := cartData[k].quantity + 1)];
      }
    }

    method DecrementReducer(id: Option<string>)
      modifies this
      ensures cartData == Decrement(old(cartData), id)
    {
      var found := Find(cartData, HasId(id));
      if found.Some? {
        var k := found.value;
        if cartData[k].quantity > 1 {
          cartData := cartData[k := cartData[k].(quantity := cartData[k].quantity - 1)];
        } else {
          cartData := RemoveId(cartData, id);
        }
      }
    }
  }

  /** state.cartData.filter(i => i._id != id), one line at a time. */
  method RemoveId(cart: seq<CartItem>, id: Option<string>) returns (kept: seq<CartItem>)
    ensures kept == Filter(cart, NotId(id))
  {
    kept := [];
    var i := 0;
    while i < |cart|
      invariant 0 <= i <= |cart|
      invariant kept == Filter(cart[..i], NotId(id))
    {
      KeepStep(cart, id, i);
      if cart[i].id != id {
        kept := kept + [cart[i]];
      }
      i := i + 1;
    }
    assert cart[..i] == cart;
  }

  /** One more line of the cart passes through the filter exactly when its id differs. */
  lemma KeepStep(cart: seq<CartItem>, id: Option<string>, i: nat)
    requires i < |cart|
    ensures Filter(cart[..i + 1], NotId(id)) == Filter(cart[..i], NotId(id)) + (if cart[i].id != id then [cart[i]] else [])
  {
    assert cart[..i + 1] == cart[..i] + [cart[i]];
    FilterSnoc(cart[..i], cart[i], NotId(id));
  }
}
