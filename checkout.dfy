/** The checkout page: where the delivery coordinates come from, the guards of
    "confirm order", and the order payload built from the cart.

    The geocoder's answer, the browser's position fix and the conversion of a
    coordinate to text are parameters. */
module Checkout {
  import opened Common
  import opened Models
  import Cart
  import Presence
  import DeliveryOtp

  /** The coordinates held by the page; null is NonFinite, as Number.isFinite
      rejects it. */
  datatype Coords = Coords(lat: Num, lng: Num)

  /** The address form. */
  datatype AddressForm = AddressForm(city: string, state: string, pincode: string, fullAddress: string)

  predicate BothFinite(c: Coords) {
    c.lat.Finite? && c.lng.Finite?
  }

  /** join(", ") over pieces. */
  function JoinComma(parts: seq<string>): (r: string)
    ensures (forall i :: 0 <= i < |parts| ==> parts[i] != "") ==> (r == "" <==> parts == [])
  {
    if parts == [] then ""
    else if |parts| == 1 then parts[0]
    else parts[0] + ", " + JoinComma(parts[1..])
  }

  /** The geocoding query: the non-empty address fields joined by ", ". */
  function GeocodeQuery(a: AddressForm): (q: string)
    ensures q == "" <==> a.fullAddress == "" && a.city == "" && a.state == "" && a.pincode == ""
  {
    var parts := [a.fullAddress, a.city, a.state, a.pincode];
    var kept := Filter(parts, NonEmpty());
    assert a.fullAddress != "" ==> a.fullAddress in kept by { assert parts[0] == a.fullAddress; }
    assert a.city != "" ==> a.city in kept by { assert parts[1] == a.city; }
    assert a.state != "" ==> a.state in kept by { assert parts[2] == a.state; }
    assert a.pincode != "" ==> a.pincode in kept by { assert parts[3] == a.pincode; }
    JoinComma(kept)
  }

  function NonEmpty(): string -> bool {
    (s: string) => s != ""
  }

  /** resolveCoords: finite coordinates already held are used as they are;
      otherwise a non-empty address is geocoded and any finite answer is taken;
      otherwise a position fix is taken when it is finite and not (0, 0). */
  function ResolveCoords(held: Coords, a: AddressForm, geocode: string -> Coords, fix: Option<Coords>): (r: Option<(real, real)>)
    ensures BothFinite(held) ==> r == Some((held.lat.value, held.lng.value))
    ensures !BothFinite(held) && GeocodeQuery(a) != "" && BothFinite(geocode(GeocodeQuery(a))) ==>
      r == Some((geocode(GeocodeQuery(a)).lat.value, geocode(GeocodeQuery(a)).lng.value))
    ensures r.None? <==>
      !BothFinite(held) &&
      (GeocodeQuery(a) == "" || !BothFinite(geocode(GeocodeQuery(a)))) &&
      (fix.None? || !Presence.ValidFix(fix.value.lng, fix.value.lat))
    ensures r.Some? && !BothFinite(held) && (GeocodeQuery(a) == "" || !BothFinite(geocode(GeocodeQuery(a)))) ==>
      fix.Some? && Presence.ValidFix(fix.value.lng, fix.value.lat) &&
      r == Some((fix.value.lat.value, fix.value.lng.value)) && r.value != (0.0, 0.0)
  {
    if BothFinite(held) then Some((held.lat.value, held.lng.value))
    else
      var q := GeocodeQuery(a);
      if q != "" && BothFinite(geocode(q)) then Some((geocode(q).lat.value, geocode(q).lng.value))
      else if fix.Some? && Presence.ValidFix(fix.value.lng, fix.value.lat) then
        Some((fix.value.lat.value, fix.value.lng.value))
      else None
  }

  /** The two fallbacks disagree on (0, 0): a geocoded (0, 0) is taken, a
      position fix at (0, 0) is refused. */
  lemma ZeroFromGeocoderOnly(a: AddressForm, geocode: string -> Coords)
    requires a.city != "" && geocode(GeocodeQuery(a)) == Coords(Finite(0.0), Finite(0.0))
    ensures ResolveCoords(Coords(NonFinite, NonFinite), a, geocode, None) == Some((0.0, 0.0))
    ensures ResolveCoords(Coords(NonFinite, NonFinite), AddressForm("", "", "", ""), geocode,
                          Some(Coords(Finite(0.0), Finite(0.0)))).None?
  {
  }

  // ---------------------------------------------------------------------------
  // Confirm order

  /** The signed-in user's profile as the page holds it. */
  datatype Profile = Profile(id: Option<Id>, name: Option<string>, mobile: Option<string>)

  datatype OrderPayload = OrderPayload(
    userId: Id, items: seq<OrderItem>, paymentMethod: string, address: Address,
    totalAmount: int, deliveryFee: int)

  datatype ConfirmOutcome = LoginAlert | AddressAlert | EmptyCartAlert | CoordinatesAlert | Submit(payload: OrderPayload)

  /** String(n) for an integer. */
  function IntString(n: int): (s: string)
    ensures n >= 0 ==> s == DeliveryOtp.Decimal(n)
    ensures n < 0 ==> s == "-" + DeliveryOtp.Decimal(-n)
  {
    if n >= 0 then DeliveryOtp.Decimal(n) else "-" + DeliveryOtp.Decimal(-n)
  }

  /** Different prices never print the same. */
  lemma IntStringInjective(m: int, n: int)
    ensures IntString(m) == IntString(n) <==> m == n
  {
    if m >= 0 && n >= 0 {
      DeliveryOtp.DecimalInjective(m, n);
    } else if m < 0 && n < 0 {
      DeliveryOtp.DecimalInjective(-m, -n);
      if IntString(m) == IntString(n) {
        assert IntString(m)[1..] == DeliveryOtp.Decimal(-m);
        assert IntString(n)[1..] == DeliveryOtp.Decimal(-n);
      }
    } else if m >= 0 {
      assert IntString(m)[0] != '-';
    } else {
      assert IntString(n)[0] != '-';
    }
  }

  /** A cart line as an order item: the grocery id, the price as text, and
      "unit" when the line has no unit. */
  function PayloadItem(c: Cart.CartItem): (o: OrderItem)
    ensures o.quantity == c.quantity && o.name == c.name && o.image == c.image
    ensures o.price == IntString(c.price)
    ensures o.unit == (if c.unit == "" then "unit" else c.unit)
    ensures o.grocery == (if c.id.Some? then c.id.value else "")
  {
    OrderItem(if c.id.Some? then c.id.value else "", c.name, IntString(c.price),
              if c.unit == "" then "unit" else c.unit, c.image, c.quantity)
  }

  function Or(s: Option<string>, default: string): (r: string)
    ensures Truthy(s) ==> r == s.value
    ensures !Truthy(s) ==> r == default
  {
    if Truthy(s) then s.value else default
  }

  /** handleConfirmOrder: alerts, in order, for no signed-in user, a missing
      street address or city, and an empty cart; then the coordinates are
      resolved, and without them nothing is posted. Otherwise the payload has
      one item per cart line, the address with its defaults and the
      coordinates as text, and the cart page's total and fee. */
  function ConfirmOrder(user: Option<Profile>, form: AddressForm, cart: seq<Cart.CartItem>, paymentMethod: string,
                        held: Coords, geocode: string -> Coords, fix: Option<Coords>, show: real -> string): (r: ConfirmOutcome)
    ensures r == LoginAlert <==> user.None? || !Truthy(user.value.id)
    ensures r == AddressAlert <==> user.Some? && Truthy(user.value.id) && (form.fullAddress == "" || form.city == "")
    ensures r == EmptyCartAlert <==>
      user.Some? && Truthy(user.value.id) && form.fullAddress != "" && form.city != "" && cart == []
    ensures r == CoordinatesAlert <==>
      user.Some? && Truthy(user.value.id) && form.fullAddress != "" && form.city != "" && cart != [] &&
      ResolveCoords(held, form, geocode, fix).None?
    ensures r.Submit? ==>
      var p := r.payload;
      var at := ResolveCoords(held, form, geocode, fix).value;
      && p.userId == user.value.id.value
      && |p.items| == |cart| && (forall i :: 0 <= i < |cart| ==> p.items[i] == PayloadItem(cart[i]))
      && p.paymentMethod == paymentMethod
      && p.address == Address(Or(user.value.name, "Customer"), form.city, if form.state == "" then "Delhi" else form.state,
                               Or(user.value.mobile, "0000000000"), form.pincode, form.fullAddress, show(at.0), show(at.1))
      && p.totalAmount == Cart.TotalToPay(cart)
      && p.deliveryFee == Cart.DeliveryFee(Cart.ItemTotal(cart))
  {
    if user.None? || !Truthy(user.value.id) then LoginAlert
    else if form.fullAddress == "" || form.city == "" then AddressAlert
    else if cart == [] then EmptyCartAlert
    else match ResolveCoords(held, form, geocode, fix)
      case None => CoordinatesAlert
      case Some(at) =>
        var subtotal := Cart.ItemTotal(cart);
        var fee := Cart.DeliveryFee(subtotal);
        var items := seq(|cart|, i requires 0 <= i < |cart| => PayloadItem(cart[i]));
        var address := Address(Or(user.value.name, "Customer"), form.city, if form.state == "" then "Delhi" else form.state,
                               Or(user.value.mobile, "0000000000"), form.pincode, form.fullAddress, show(at.0), show(at.1));
        Submit(OrderPayload(user.value.id.value, items, paymentMethod, address, subtotal + fee, fee))
  }

  /** A submitted order of priced lines always carries the flat fee, so its
      total exceeds 40. */
  lemma SubmittedOrderPaysFee(user: Option<Profile>, form: AddressForm, cart: seq<Cart.CartItem>, paymentMethod: string,
                              held: Coords, geocode: string -> Coords, fix: Option<Coords>, show: real -> string)
    requires Cart.Priced(cart)
    requires ConfirmOrder(user, form, cart, paymentMethod, held, geocode, fix, show).Submit?
    ensures var p := ConfirmOrder(user, form, cart, paymentMethod, held, geocode, fix, show).payload;
      p.deliveryFee == Cart.FlatDeliveryFee && p.totalAmount == Cart.ItemTotal(cart) + Cart.FlatDeliveryFee &&
      p.totalAmount > Cart.FlatDeliveryFee
  {
    Cart.FeeIffCanProceed(cart);
  }
}
