/** The stored entities: orders, users, delivery assignments and delivery OTP
    records, with the enumerations and defaults their schemas declare. */
module Models {
  import opened Common

  /** A document id: a MongoDB ObjectId in its hexadecimal string form. */
  type Id = string

  datatype OrderStatus = Pending | Confirmed | Shipped | OutForDelivery | Delivered | Cancelled

  /** The six statuses in the order the admin pages list them. */
  const AllStatuses: seq<OrderStatus> := [Pending, Confirmed, Shipped, OutForDelivery, Delivered, Cancelled]

  /** The status names the schema's enum accepts. */
  function StatusName(s: OrderStatus): string {
    match s
    case Pending => "pending"
    case Confirmed => "confirmed"
    case Shipped => "shipped"
    case OutForDelivery => "out for delivery"
    case Delivered => "delivered"
    case Cancelled => "cancelled"
  }

  /** Distinct statuses have distinct names. */
  lemma StatusNameInjective(a: OrderStatus, b: OrderStatus)
    requires StatusName(a) == StatusName(b)
    ensures a == b
  {
  }

  datatype PaymentMethod = Cod | Upi | Card

  /** Mongoose's enum validation of paymentMethod: only "cod", "upi" and "card" pass. */
  function ParsePaymentMethod(s: string): (r: Option<PaymentMethod>)
    ensures r.Some? <==> s in {"cod", "upi", "card"}
    ensures r == Some(Cod) <==> s == "cod"
    ensures r == Some(Upi) <==> s == "upi"
    ensures r == Some(Card) <==> s == "card"
  {
    if s == "cod" then Some(Cod)
    else if s == "upi" then Some(Upi)
    else if s == "card" then Some(Card)
    else None
  }

  datatype Role = Customer | DeliveryBoy | Admin

  /** The role names the user schema's enum accepts; a customer's role is "user". */
  function RoleName(r: Role): string {
    match r
    case Customer => "user"
    case DeliveryBoy => "deliveryBoy"
    case Admin => "admin"
  }

  /** A JavaScript number as the location code sees it: a finite value, or one
      that Number.isFinite rejects (NaN, Infinity, -Infinity). */
  datatype Num = Finite(value: real) | NonFinite

  /** A GeoJSON point; coordinates are [longitude, latitude]. */
  datatype GeoPoint = GeoPoint(kind: string, coordinates: seq<Num>)

  /** The user schema's default location: the point [0, 0]. */
  const DefaultLocation: GeoPoint := GeoPoint("Point", [Finite(0.0), Finite(0.0)])

  datatype OrderItem = OrderItem(grocery: Id, name: string, price: string, unit: string, image: string, quantity: int)

  /** The delivery address; latitude and longitude are kept as strings. */
  datatype Address = Address(
    fullname: string, city: string, state: string, mobile: string,
    pincode: string, fullAddress: string, latitude: string, longitude: string)

  /** An order document. `user` is the required reference to its customer;
      createdAt is the creation timestamp in milliseconds. */
  datatype Order = Order(
    id: Id, user: Id, items: seq<OrderItem>, paymentMethod: PaymentMethod,
    address: Address, status: OrderStatus, totalAmount: int, isPaid: bool, createdAt: int)

  /** A new order document: the schema defaults status to pending and isPaid to false. */
  function NewOrder(id: Id, user: Id, items: seq<OrderItem>, paymentMethod: PaymentMethod,
                    address: Address, totalAmount: int, now: int): (o: Order)
    ensures o.status == Pending && !o.isPaid
    ensures o.id == id && o.user == user && o.items == items && o.paymentMethod == paymentMethod
    ensures o.address == address && o.totalAmount == totalAmount && o.createdAt == now
  {
    Order(id, user, items, paymentMethod, address, Pending, totalAmount, false, now)
  }

  /** A one-way password hash; only this, never the password, is stored. */
  datatype PasswordHash = Bcrypt(secret: string)

  /** A user document. */
  datatype User = User(
    id: Id, name: string, email: string, password: Option<PasswordHash>, mobile: Option<string>,
    role: Role, socketId: Option<string>, isOnline: bool, location: GeoPoint)

  /** A new user document with the schema defaults: role "user", offline, no
      socket, no mobile number, location [0, 0]. */
  function NewUser(id: Id, name: string, email: string, password: Option<PasswordHash>): (u: User)
    ensures u.role == Customer && !u.isOnline && u.socketId.None? && u.mobile.None?
    ensures u.location == DefaultLocation
    ensures u.id == id && u.name == name && u.email == email && u.password == password
  {
    User(id, name, email, password, None, Customer, None, false, DefaultLocation)
  }

  /** Email addresses are unique across the users collection. */
  predicate EmailsUnique(users: seq<User>) {
    forall i, j :: 0 <= i < j < |users| ==> users[i].email != users[j].email
  }

  datatype AssignmentStatus = Broadcasted | Assigned | Completed

  /** A delivery assignment. Its handlers (dispatch, accept, reject) are not part
      of this model; the verify route is the one place here that changes one. */
  datatype Assignment = Assignment(
    id: Id, order: Id, status: AssignmentStatus, assignedTo: Option<Id>, broadcastTo: seq<Id>)

  /** A SHA-256 digest, kept symbolic: equal digests come from equal inputs. */
  datatype Digest = Sha256(input: string)

  /** A delivery OTP record: the order it belongs to, the hash of the code, the
      expiry time, the time it was used (None while unused, the schema default)
      and its creation time. */
  datatype OtpRecord = OtpRecord(order: Id, codeHash: Digest, expiresAt: int, usedAt: Option<int>, createdAt: int)

  /** The database: each collection in its natural (insertion) order. */
  datatype Store = Store(orders: seq<Order>, users: seq<User>, assignments: seq<Assignment>, otps: seq<OtpRecord>)

  /** An HTTP response: its status code and the message of its JSON body. */
  datatype Response = Response(status: int, message: string)

  function OrderHasId(orderId: Id): Order -> bool {
    (o: Order) => o.id == orderId
  }

  function UserHasId(userId: Id): User -> bool {
    (u: User) => u.id == userId
  }
}
