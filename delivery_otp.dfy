/** Delivery confirmation by one-time code. A delivery partner holding the
    "assigned" assignment of an order asks for a code, which is mailed to the
    customer; the partner then submits the code the customer reads out, and a
    match marks the code used, the order delivered and the assignment completed.

    SHA-256 is the injective constructor Sha256, Math.random() is a real in
    [0, 1), Date.now() is the parameter `now`, and whether the SMTP settings are
    present and whether the mail transport accepts the mail are booleans. */
module DeliveryOtp {
  import opened Common
  import opened Models

  /** The "order-status-updated" event handed to the realtime relay. */
  datatype StatusEvent = OrderStatusUpdated(orderId: Id, status: OrderStatus, order: Order)

  /** The mail handed to the transport: recipient and code. */
  datatype OtpMail = OtpMail(to: string, code: string)

  datatype VerifyResult = VerifyResult(response: Response, store: Store, event: Option<StatusEvent>)

  datatype RequestResult = RequestResult(response: Response, store: Store, mail: Option<OtpMail>)

  /** Ten minutes in milliseconds: how long a code stays valid. */
  const OtpLifetime: int := 10 * 60 * 1000

  // ---------------------------------------------------------------------------
  // Lookups

  /** The assignment filter {order, assignedTo: partner, status: "assigned"}. */
  predicate HeldBy(a: Assignment, orderId: Id, partner: Id) {
    a.order == orderId && a.assignedTo == Some(partner) && a.status == Assigned
  }

  function Held(orderId: Id, partner: Id): Assignment -> bool {
    (a: Assignment) => HeldBy(a, orderId, partner)
  }

  function NotFor(orderId: Id): OtpRecord -> bool {
    (r: OtpRecord) => r.order != orderId
  }

  /** The record findOne({order}).sort({createdAt: -1}) returns: one of the
      order's records with the largest creation time (of equal times, the one
      stored last), or None when the order has no record. */
  function LatestOtp(otps: seq<OtpRecord>, orderId: Id): (k: Option<nat>)
    ensures k.Some? ==> k.value < |otps| && otps[k.value].order == orderId
    ensures k.Some? ==> forall j :: 0 <= j < |otps| && otps[j].order == orderId ==>
                          otps[j].createdAt <= otps[k.value].createdAt
    ensures k.None? <==> forall j :: 0 <= j < |otps| ==> otps[j].order != orderId
  {
    if otps == [] then None
    else
      var n := |otps| - 1;
      var rest := LatestOtp(otps[..n], orderId);
      assert forall j :: 0 <= j < n ==> otps[..n][j] == otps[j];
      if otps[n].order == orderId && (rest.None? || otps[rest.value].createdAt <= otps[n].createdAt) then Some(n)
      else rest
  }

  /** The customer's email: the order's user populated, and its email if truthy. */
  function CustomerEmail(users: seq<User>, order: Order): (e: Option<string>)
    ensures e.Some? ==> e.value != "" && exists j :: 0 <= j < |users| && users[j].id == order.user && users[j].email == e.value
    ensures (forall j :: 0 <= j < |users| ==> users[j].id != order.user) ==> e.None?
    ensures FindFirst(users, UserHasId(order.user)).Some? ==>
      (e.Some? <==> users[FindFirst(users, UserHasId(order.user)).value].email != "")
    ensures ((forall j :: 0 <= j < |users| && users[j].id == order.user ==> users[j].email != "") &&
             (exists j :: 0 <= j < |users| && users[j].id == order.user)) ==> e.Some?
  {
    match FindFirst(users, UserHasId(order.user))
    case None => None
    case Some(u) => if users[u].email == "" then None else Some(users[u].email)
  }

  // ---------------------------------------------------------------------------
  // The code

  /** Math.floor(100000 + Math.random() * 900000): always six digits long. */
  function OtpCode(random: real): (n: nat)
    requires 0.0 <= random < 1.0
    ensures 100000 <= n <= 999999
  {
    (100000.0 + random * 900000.0).Floor
  }

  function DigitChar(d: int): (c: char)
    requires 0 <= d < 10
    ensures '0' <= c <= '9'
  {
    ('0' as int + d) as char
  }

  /** String(n): the decimal digits of n, most significant first. */
  function Decimal(n: nat): (s: string)
    ensures |s| >= 1 && (n >= 10 ==> |s| >= 2)
    ensures forall i :: 0 <= i < |s| ==> '0' <= s[i] <= '9'
  {
    if n < 10 then [DigitChar(n)] else Decimal(n / 10) + [DigitChar(n % 10)]
  }

  function Pow10(k: nat): (p: nat)
    ensures p >= 1
  {
    if k == 0 then 1 else 10 * Pow10(k - 1)
  }

  /** A number in [10^(k-1), 10^k) has k decimal digits. */
  lemma {:induction false} DecimalLength(n: nat, k: nat)
    requires k >= 1 && Pow10(k - 1) <= n < Pow10(k)
    ensures |Decimal(n)| == k
  {
    if k > 1 {
      assert Pow10(k - 2) <= n / 10 < Pow10(k - 1);
      DecimalLength(n / 10, k - 1);
    }
  }

  /** Different numbers have different decimal strings. */
  lemma {:induction false} DecimalInjective(m: nat, n: nat)
    ensures Decimal(m) == Decimal(n) <==> m == n
  {
    if Decimal(m) == Decimal(n) && m >= 10 && n >= 10 {
      var s := Decimal(m);
      assert s[..|s| - 1] == Decimal(m / 10) && s[..|s| - 1] == Decimal(n / 10);
      DecimalInjective(m / 10, n / 10);
    }
  }

  /** The issued code is a string of six decimal digits, none of them white space,
      so trimming leaves it unchanged. */
  lemma CodeIsSixDigits(random: real)
    requires 0.0 <= random < 1.0
    ensures |Decimal(OtpCode(random))| == 6
    ensures Trim(Decimal(OtpCode(random))) == Decimal(OtpCode(random))
  {
    var n := OtpCode(random);
    assert Pow10(5) == 100000 && Pow10(6) == 1000000;
    DecimalLength(n, 6);
    DecimalTrimmed(n);
  }

  /** A decimal string has no white space to trim. */
  lemma DecimalTrimmed(n: nat)
    ensures Trim(Decimal(n)) == Decimal(n)
  {
    var s := Decimal(n);
    forall i | 0 <= i < |s|
      ensures !IsSpace(s[i])
    {
      assert '0' <= s[i] <= '9';
    }
    TrimNoSpace(s);
  }

  function HashOtp(code: string): Digest {
    Sha256(code)
  }

  // ---------------------------------------------------------------------------
  // The routes as functions of the store

  /** The store invariant the verify route relies on: no partner holds two
      "assigned" assignments for the same order. The handlers that create and
      accept assignments are not part of this model; the two routes here keep it. */
  predicate OneActivePerJob(assignments: seq<Assignment>) {
    forall i, j :: 0 <= i < j < |assignments| && assignments[i].status == Assigned && assignments[j].status == Assigned ==>
      assignments[i].order != assignments[j].order || assignments[i].assignedTo != assignments[j].assignedTo
  }

  /** The verify route's guards up to the assignment check, passed: a session,
      an order id and a code, and an assignment of the order held by the caller. */
  predicate VerifyHeld(st: Store, caller: Option<Id>, orderId: Option<Id>, otp: Option<string>) {
    Truthy(caller) && Truthy(orderId) && Truthy(otp) &&
    FindFirst(st.assignments, Held(orderId.value, caller.value)).Some?
  }

  /** The guards of the verify route, all passed: a session, an order id and a
      code, an assignment of the order held by the caller, a latest code for the
      order that is unused, not past its expiry and whose hash is that of the
      trimmed submitted code. */
  predicate VerifyAccepts(st: Store, caller: Option<Id>, orderId: Option<Id>, otp: Option<string>, now: int) {
    Truthy(caller) && Truthy(orderId) && Truthy(otp) &&
    FindFirst(st.assignments, Held(orderId.value, caller.value)).Some? &&
    var k := LatestOtp(st.otps, orderId.value);
    k.Some? && st.otps[k.value].usedAt.None? && !(st.otps[k.value].expiresAt < now) &&
    st.otps[k.value].codeHash == HashOtp(Trim(otp.value))
  }

  function VerifyFail(st: Store, status: int, message: string): VerifyResult {
    VerifyResult(Response(status, message), st, None)
  }

  /** POST /api/delivery/delivery-otp/verify. */
  function Verify(st: Store, caller: Option<Id>, orderId: Option<Id>, otp: Option<string>, now: int): (r: VerifyResult)
    ensures r.response.status in {200, 400, 401, 403}
    ensures r.response.status == 401 <==> !Truthy(caller)
    ensures r.response.status == 403 <==>
      Truthy(caller) && Truthy(orderId) && Truthy(otp) && FindFirst(st.assignments, Held(orderId.value, caller.value)).None?
    ensures r.response == Response(400, "orderId and otp required") <==>
      Truthy(caller) && (!Truthy(orderId) || !Truthy(otp))
    ensures r.response == Response(400, "otp not found") <==>
      VerifyHeld(st, caller, orderId, otp) && LatestOtp(st.otps, orderId.value).None?
    ensures r.response == Response(400, "otp already used") <==>
      VerifyHeld(st, caller, orderId, otp) && LatestOtp(st.otps, orderId.value).Some? &&
      st.otps[LatestOtp(st.otps, orderId.value).value].usedAt.Some?
    ensures r.response == Response(400, "otp expired") <==>
      VerifyHeld(st, caller, orderId, otp) && LatestOtp(st.otps, orderId.value).Some? &&
      var latest := st.otps[LatestOtp(st.otps, orderId.value).value];
      latest.usedAt.None? && latest.expiresAt < now
    ensures r.response == Response(400, "invalid otp") <==>
      VerifyHeld(st, caller, orderId, otp) && LatestOtp(st.otps, orderId.value).Some? &&
      var latest := st.otps[LatestOtp(st.otps, orderId.value).value];
      latest.usedAt.None? && !(latest.expiresAt < now) && latest.codeHash != HashOtp(Trim(otp.value))
    ensures r.response.status == 200 <==> VerifyAccepts(st, caller, orderId, otp, now)
    ensures r.response.status != 200 ==> r.store == st && r.event.None?
    ensures r.response.status == 200 ==>
      var a := FindFirst(st.assignments, Held(orderId.value, caller.value)).value;
      var k := LatestOtp(st.otps, orderId.value).value;
      && r.store.users == st.users
      && r.store.otps == st.otps[k := st.otps[k].(usedAt := Some(now))]
      && r.store.assignments == st.assignments[a := st.assignments[a].(status := Completed)]
      && |r.store.orders| == |st.orders|
      && (forall i :: 0 <= i < |st.orders| ==>
            r.store.orders[i] == if st.orders[i].id == orderId.value && FindFirst(st.orders, OrderHasId(orderId.value)) == Some(i)
                                 then st.orders[i].(status := Delivered) else st.orders[i])
    ensures r.event.Some? <==> r.response.status == 200 && exists i :: 0 <= i < |st.orders| && st.orders[i].id == orderId.value
    ensures r.event.Some? ==> r.event.value.status == Delivered && r.event.value.orderId == orderId.value
  {
    if !Truthy(caller) then VerifyFail(st, 401, "Login required")
    else if !Truthy(orderId) || !Truthy(otp) then VerifyFail(st, 400, "orderId and otp required")
    else
      match FindFirst(st.assignments, Held(orderId.value, caller.value))
      case None => VerifyFail(st, 403, "forbidden")
      case Some(a) =>
        match LatestOtp(st.otps, orderId.value)
        case None => VerifyFail(st, 400, "otp not found")
        case Some(k) =>
          var latest := st.otps[k];
          if latest.usedAt.Some? then VerifyFail(st, 400, "otp already used")
          else if latest.expiresAt < now then VerifyFail(st, 400, "otp expired")
          else if HashOtp(Trim(otp.value)) != latest.codeHash then VerifyFail(st, 400, "invalid otp")
          else Confirm(st, orderId.value, a, k, now)
  }

  /** The writes of a successful verify: the code record k is marked used, the
      order (if it still exists) becomes delivered and its update is announced,
      and the assignment a becomes completed. */
  function Confirm(st: Store, orderId: Id, a: nat, k: nat, now: int): (r: VerifyResult)
    requires a < |st.assignments| && k < |st.otps|
    ensures r.response.status == 200
    ensures r.store.users == st.users
    ensures r.store.otps == st.otps[k := st.otps[k].(usedAt := Some(now))]
    ensures r.store.assignments == st.assignments[a := st.assignments[a].(status := Completed)]
    ensures |r.store.orders| == |st.orders|
    ensures forall i :: 0 <= i < |st.orders| ==>
      r.store.orders[i] == if st.orders[i].id == orderId && FindFirst(st.orders, OrderHasId(orderId)) == Some(i)
                           then st.orders[i].(status := Delivered) else st.orders[i]
    ensures r.event.Some? <==> exists i :: 0 <= i < |st.orders| && st.orders[i].id == orderId
    ensures r.event.Some? ==> r.event.value.status == Delivered && r.event.value.orderId == orderId
  {
    var otps := st.otps[k := st.otps[k].(usedAt := Some(now))];
    var assignments := st.assignments[a := st.assignments[a].(status := Completed)];
    match FindFirst(st.orders, OrderHasId(orderId))
    case None =>
      VerifyResult(Response(200, "success"), Store(st.orders, st.users, assignments, otps), None)
    case Some(i) =>
      var order := st.orders[i].(status := Delivered);
      VerifyResult(Response(200, "success"), Store(st.orders[i := order], st.users, assignments, otps),
                   Some(OrderStatusUpdated(order.id, order.status, order)))
  }

  /** The records deleteMany({order}) leaves: those of the other orders, in order. */
  function WithoutOrder(otps: seq<OtpRecord>, orderId: Id): (r: seq<OtpRecord>)
    ensures forall i :: 0 <= i < |r| ==> r[i].order != orderId
  {
    Filter(otps, NotFor(orderId))
  }

  /** The record create({order, codeHash, expiresAt}) stores: unused, expiring ten
      minutes after it is created, holding only the hash of the code. */
  function NewOtp(orderId: Id, code: string, now: int): OtpRecord {
    OtpRecord(orderId, HashOtp(code), now + OtpLifetime, None, now)
  }

  function RequestFail(st: Store, status: int, message: string): RequestResult {
    RequestResult(Response(status, message), st, None)
  }

  /** The guards before the mail settings pass: a caller, an order id the caller
      holds an assigned assignment of, an existing order whose customer has an
      email. */
  predicate ReadyToMail(st: Store, caller: Option<Id>, orderId: Option<Id>) {
    && Truthy(caller) && Truthy(orderId)
    && FindFirst(st.assignments, Held(orderId.value, caller.value)).Some?
    && FindFirst(st.orders, OrderHasId(orderId.value)).Some?
    && CustomerEmail(st.users, st.orders[FindFirst(st.orders, OrderHasId(orderId.value)).value]).Some?
  }

  /** POST /api/delivery/delivery-otp/request. `random` is the value Math.random()
      returned, `smtpConfigured` whether the four SMTP settings are present and
      `mailAccepted` whether the transport accepted the mail. */
  function Request(st: Store, caller: Option<Id>, orderId: Option<Id>, smtpConfigured: bool,
                   random: real, now: int, mailAccepted: bool): (r: RequestResult)
    requires 0.0 <= random < 1.0
    ensures r.response.status in {200, 400, 401, 403, 404, 500}
    ensures r.response.status == 401 <==> !Truthy(caller)
    ensures r.response.status == 403 <==>
      Truthy(caller) && Truthy(orderId) && FindFirst(st.assignments, Held(orderId.value, caller.value)).None?
    ensures r.response == Response(400, "orderId required") <==> Truthy(caller) && !Truthy(orderId)
    ensures r.response.status == 404 <==>
      Truthy(caller) && Truthy(orderId) && FindFirst(st.assignments, Held(orderId.value, caller.value)).Some? &&
      forall i :: 0 <= i < |st.orders| ==> st.orders[i].id != orderId.value
    ensures r.response == Response(400, "user email missing") <==>
      Truthy(caller) && Truthy(orderId) && FindFirst(st.assignments, Held(orderId.value, caller.value)).Some? &&
      FindFirst(st.orders, OrderHasId(orderId.value)).Some? &&
      CustomerEmail(st.users, st.orders[FindFirst(st.orders, OrderHasId(orderId.value)).value]).None?
    ensures ReadyToMail(st, caller, orderId) ==> (r.mail.Some? <==> smtpConfigured)
    ensures ReadyToMail(st, caller, orderId) && !smtpConfigured ==> r.response == Response(500, "SMTP config missing")
    ensures r.mail.None? ==> r.store == st && r.response.status != 200
    ensures r.mail.Some? ==>
      && ReadyToMail(st, caller, orderId) && smtpConfigured
      && r.mail.value.code == Decimal(OtpCode(random))
      && r.mail.value.to == CustomerEmail(st.users, st.orders[FindFirst(st.orders, OrderHasId(orderId.value)).value]).value
      && r.store == st.(otps := WithoutOrder(st.otps, orderId.value) + [NewOtp(orderId.value, r.mail.value.code, now)])
      && r.response == (if mailAccepted then Response(200, "success") else Response(500, "request otp error"))
    ensures r.response.status == 200 ==> r.mail.Some?
  {
    if !Truthy(caller) then RequestFail(st, 401, "Login required")
    else if !Truthy(orderId) then RequestFail(st, 400, "orderId required")
    else if FindFirst(st.assignments, Held(orderId.value, caller.value)).None? then RequestFail(st, 403, "forbidden")
    else
      match FindFirst(st.orders, OrderHasId(orderId.value))
      case None => RequestFail(st, 404, "order not found")
      case Some(i) =>
        match CustomerEmail(st.users, st.orders[i])
        case None => RequestFail(st, 400, "user email missing")
        case Some(email) =>
          if !smtpConfigured then RequestFail(st, 500, "SMTP config missing")
          else
            var code := Decimal(OtpCode(random));
            var st' := st.(otps := WithoutOrder(st.otps, orderId.value) + [NewOtp(orderId.value, code, now)]);
            var response := if mailAccepted then Response(200, "success") else Response(500, "request otp error");
            RequestResult(response, st', Some(OtpMail(email, code)))
  }

  // ---------------------------------------------------------------------------
  // Properties relating several calls

  /** Both routes keep the invariant that no partner holds two active
      assignments for the same order. */
  lemma VerifyKeepsOneActivePerJob(st: Store, caller: Option<Id>, orderId: Option<Id>, otp: Option<string>, now: int)
    requires OneActivePerJob(st.assignments)
    ensures OneActivePerJob(Verify(st, caller, orderId, otp, now).store.assignments)
  {
    var r := Verify(st, caller, orderId, otp, now);
    if r.response.status == 200 {
      var a := FindFirst(st.assignments, Held(orderId.value, caller.value)).value;
      var s := r.store.assignments;
      forall i, j | 0 <= i < j < |s| && s[i].status == Assigned && s[j].status == Assigned
        ensures s[i].order != s[j].order || s[i].assignedTo != s[j].assignedTo
      {
        assert i != a && j != a;
        assert s[i] == st.assignments[i] && s[j] == st.assignments[j];
      }
    }
  }

  lemma RequestKeepsOneActivePerJob(st: Store, caller: Option<Id>, orderId: Option<Id>, smtpConfigured: bool,
                                    random: real, now: int, mailAccepted: bool)
    requires 0.0 <= random < 1.0
    requires OneActivePerJob(st.assignments)
    ensures OneActivePerJob(Request(st, caller, orderId, smtpConfigured, random, now, mailAccepted).store.assignments)
  {
  }

  /** A confirmed delivery cannot be confirmed again: once a verify succeeds,
      the caller holds no active assignment for the order, so any further verify
      for it is refused with 403, whatever code is submitted. */
  lemma {:induction false} SecondVerifyForbidden(st: Store, caller: Option<Id>, orderId: Option<Id>, otp: Option<string>,
                                                 now: int, otp2: Option<string>, now2: int)
    requires OneActivePerJob(st.assignments)
    requires Verify(st, caller, orderId, otp, now).response.status == 200
    requires Truthy(otp2)
    ensures Verify(Verify(st, caller, orderId, otp, now).store, caller, orderId, otp2, now2).response.status == 403
  {
    var s := Verify(st, caller, orderId, otp, now).store.assignments;
    var p := Held(orderId.value, caller.value);
    var a := FindFirst(st.assignments, p).value;
    forall j | 0 <= j < |s|
      ensures !p(s[j])
    {
      if j != a {
        assert s[j] == st.assignments[j];
        if j > a {
          assert st.assignments[a].status == Assigned;
        }
      }
    }
  }

  /** After a request succeeds, or the mail fails after the record is stored,
      the order has exactly one code record, the new one, stored last; the
      records of every other order are the ones it had before, in the same
      order, with the new one added only to the view of the requested order. */
  lemma RequestReplacesOrderCodes(st: Store, caller: Option<Id>, orderId: Option<Id>, smtpConfigured: bool,
                                  random: real, now: int, mailAccepted: bool, other: Id)
    requires 0.0 <= random < 1.0
    requires Request(st, caller, orderId, smtpConfigured, random, now, mailAccepted).mail.Some?
    requires other != orderId.value
    ensures var otps := Request(st, caller, orderId, smtpConfigured, random, now, mailAccepted).store.otps;
      && (forall i :: 0 <= i < |otps| - 1 ==> otps[i].order != orderId.value)
      && otps[|otps| - 1] == NewOtp(orderId.value, Decimal(OtpCode(random)), now)
      && Filter(otps, NotFor(orderId.value)) == Filter(st.otps, NotFor(orderId.value))
      && Filter(otps, NotFor(other)) == Filter(Filter(st.otps, NotFor(orderId.value)), NotFor(other)) + [otps[|otps| - 1]]
  {
    ReplaceCodes(st.otps, NewOtp(orderId.value, Decimal(OtpCode(random)), now), other);
  }

  /** Dropping an order's records and appending a new one for that order. */
  lemma ReplaceCodes(otps: seq<OtpRecord>, rec: OtpRecord, other: Id)
    requires other != rec.order
    ensures var r := WithoutOrder(otps, rec.order) + [rec];
      && Filter(r, NotFor(rec.order)) == Filter(otps, NotFor(rec.order))
      && Filter(r, NotFor(other)) == Filter(Filter(otps, NotFor(rec.order)), NotFor(other)) + [rec]
  {
    var kept := Filter(otps, NotFor(rec.order));
    FilterAppend(kept, [rec], NotFor(rec.order));
    FilterAll(kept, NotFor(rec.order));
    FilterAppend(kept, [rec], NotFor(other));
  }

  /** A request followed by a verify of the mailed code succeeds as long as the
      assignment is still held and the verify comes no later than ten minutes
      after the request; the code is accepted with surrounding white space. */
  lemma RequestThenVerify(st: Store, caller: Option<Id>, orderId: Option<Id>, smtpConfigured: bool,
                          random: real, now: int, mailAccepted: bool, submitted: string, later: int)
    requires 0.0 <= random < 1.0
    requires Request(st, caller, orderId, smtpConfigured, random, now, mailAccepted).mail.Some?
    requires Trim(submitted) == Decimal(OtpCode(random))
    requires later <= now + OtpLifetime
    ensures Verify(Request(st, caller, orderId, smtpConfigured, random, now, mailAccepted).store,
                   caller, orderId, Some(submitted), later).response.status == 200
  {
    RequestCodeIsLatest(st, caller, orderId, smtpConfigured, random, now, mailAccepted);
  }

  /** After a request, a verify within the lifetime accepts exactly the
      submissions that trim to the mailed code; any other six-digit code is
      refused as invalid, and every submission is refused once the code has
      expired. */
  lemma RequestThenVerifyOnlyThatCode(st: Store, caller: Option<Id>, orderId: Option<Id>, smtpConfigured: bool,
                                      random: real, now: int, mailAccepted: bool, submitted: string, later: int)
    requires 0.0 <= random < 1.0
    requires Request(st, caller, orderId, smtpConfigured, random, now, mailAccepted).mail.Some?
    requires submitted != ""
    ensures var v := Verify(Request(st, caller, orderId, smtpConfigured, random, now, mailAccepted).store,
                            caller, orderId, Some(submitted), later);
      && (later <= now + OtpLifetime ==> (v.response.status == 200 <==> Trim(submitted) == Decimal(OtpCode(random))))
      && (later > now + OtpLifetime ==> v.response == Response(400, "otp expired"))
  {
    var r := Request(st, caller, orderId, smtpConfigured, random, now, mailAccepted);
    RequestCodeIsLatest(st, caller, orderId, smtpConfigured, random, now, mailAccepted);
    var k := |r.store.otps| - 1;
    var code := Decimal(OtpCode(random));
    assert r.store.assignments == st.assignments;
    assert r.store.otps[k] == NewOtp(orderId.value, code, now);
    if later <= now + OtpLifetime {
      VerifyAtLatest(r.store, caller, orderId, Some(submitted), later, k);
      DigestInjective(Trim(submitted), code);
    }
  }

  /** Hashing by the injective constructor: equal digests come from equal codes. */
  lemma DigestInjective(a: string, b: string)
    ensures HashOtp(a) == HashOtp(b) <==> a == b
  {
  }

  /** After a request the order's latest record is the new one. */
  lemma RequestCodeIsLatest(st: Store, caller: Option<Id>, orderId: Option<Id>, smtpConfigured: bool,
                            random: real, now: int, mailAccepted: bool)
    requires 0.0 <= random < 1.0
    requires Request(st, caller, orderId, smtpConfigured, random, now, mailAccepted).mail.Some?
    ensures var otps := Request(st, caller, orderId, smtpConfigured, random, now, mailAccepted).store.otps;
      LatestOtp(otps, orderId.value) == Some(|otps| - 1)
  {
    var otps := Request(st, caller, orderId, smtpConfigured, random, now, mailAccepted).store.otps;
    var k := LatestOtp(otps, orderId.value);
    assert otps[|otps| - 1].order == orderId.value;
  }

  /** Two different six-digit codes never verify against each other's record. */
  lemma OtherCodeRejected(st: Store, caller: Option<Id>, orderId: Option<Id>, smtpConfigured: bool,
                          random: real, now: int, mailAccepted: bool, wrong: nat, later: int)
    requires 0.0 <= random < 1.0
    requires Request(st, caller, orderId, smtpConfigured, random, now, mailAccepted).mail.Some?
    requires wrong != OtpCode(random)
    requires later <= now + OtpLifetime
    ensures Verify(Request(st, caller, orderId, smtpConfigured, random, now, mailAccepted).store,
                   caller, orderId, Some(Decimal(wrong)), later).response == Response(400, "invalid otp")
  {
    var st' := Request(st, caller, orderId, smtpConfigured, random, now, mailAccepted).store;
    RequestCodeIsLatest(st, caller, orderId, smtpConfigured, random, now, mailAccepted);
    DecimalTrimmed(wrong);
    DecimalInjective(wrong, OtpCode(random));
    VerifyAtLatest(st', caller, orderId, Some(Decimal(wrong)), later, |st'.otps| - 1);
  }

  /** Once the guards before the code comparison pass, the outcome is decided by
      the comparison alone. */
  lemma VerifyAtLatest(st: Store, caller: Option<Id>, orderId: Option<Id>, otp: Option<string>, now: int, k: nat)
    requires Truthy(caller) && Truthy(orderId) && Truthy(otp)
    requires FindFirst(st.assignments, Held(orderId.value, caller.value)).Some?
    requires LatestOtp(st.otps, orderId.value) == Some(k)
    requires st.otps[k].usedAt.None? && st.otps[k].expiresAt >= now
    ensures Verify(st, caller, orderId, otp, now).response ==
            if HashOtp(Trim(otp.value)) == st.otps[k].codeHash then Response(200, "success")
            else Response(400, "invalid otp")
  {
  }

  // ---------------------------------------------------------------------------
  // The collection scans the routes perform, as loops

  /** The sorted findOne: a scan keeping the latest record seen so far. */
  method FindLatestOtp(otps: seq<OtpRecord>, orderId: Id) returns (k: Option<nat>)
    ensures k == LatestOtp(otps, orderId)
  {
    k := None;
    var i := 0;
    while i < |otps|
      invariant 0 <= i <= |otps|
      invariant k == LatestOtp(otps[..i], orderId)
    {
      assert otps[..i + 1][..i] == otps[..i];
      if otps[i].order == orderId && (k.None? || otps[k.value].createdAt <= otps[i].createdAt) {
        k := Some(i);
      }
      i := i + 1;
    }
    assert otps[..i] == otps;
  }

  /** deleteMany({order}): copies the records of the other orders. */
  method DeleteOrderOtps(otps: seq<OtpRecord>, orderId: Id) returns (kept: seq<OtpRecord>)
    ensures kept == WithoutOrder(otps, orderId)
  {
    kept := [];
    var i := 0;
    while i < |otps|
      invariant 0 <= i <= |otps|
      invariant kept == Filter(otps[..i], NotFor(orderId))
    {
      FilterAppend(otps[..i], [otps[i]], NotFor(orderId));
      assert otps[..i + 1] == otps[..i] + [otps[i]];
      if otps[i].order != orderId {
        kept := kept + [otps[i]];
      }
      i := i + 1;
    }
    assert otps[..i] == otps;
  }

  /** The collections as the routes see them, updated in place. */
  class DeliveryDb {
    var orders: seq<Order>
    var users: seq<User>
    var assignments: seq<Assignment>
    var otps: seq<OtpRecord>

    function Snapshot(): Store
      reads this
    {
      Store(orders, users, assignments, otps)
    }

    constructor (st: Store)
      ensures Snapshot() == st
    {
      orders := st.orders;
      users := st.users;
      assignments := st.assignments;
      otps := st.otps;
    }

    /** The verify route: the guard chain, then the three writes. */
    method VerifyOtp(caller: Option<Id>, orderId: Option<Id>, otp: Option<string>, now: int)
      returns (response: Response, event: Option<StatusEvent>)
      modifies this
      ensures VerifyResult(response, Snapshot(), event) == Verify(old(Snapshot()), caller, orderId, otp, now)
    {
      event := None;
      if !Truthy(caller) {
        return Response(401, "Login required"), None;
      }
      if !Truthy(orderId) || !Truthy(otp) {
        return Response(400, "orderId and otp required"), None;
      }
      var a := Find(assignments, Held(orderId.value, caller.value));
      if a.None? {
        return Response(403, "forbidden"), None;
      }
      var k := FindLatestOtp(otps, orderId.value);
      if k.None? {
        return Response(400, "otp not found"), None;
      }
      var latest := otps[k.value];
      if latest.usedAt.Some? {
        return Response(400, "otp already used"), None;
      }
      if latest.expiresAt < now {
        return Response(400, "otp expired"), None;
      }
      if HashOtp(Trim(otp.value)) != latest.codeHash {
        return Response(400, "invalid otp"), None;
      }
      assert Verify(Snapshot(), caller, orderId, otp, now) == Confirm(Snapshot(), orderId.value, a.value, k.value, now);
      event := Apply(orderId.value, a.value, k.value, now);
      response := Response(200, "success");
    }

    /** The three writes of a successful verify. */
    method Apply(orderId: Id, a: nat, k: nat, now: int) returns (event: Option<StatusEvent>)
      requires a < |assignments| && k < |otps|
      modifies this
      ensures VerifyResult(Response(200, "success"), Snapshot(), event) == Confirm(old(Snapshot()), orderId, a, k, now)
    {
      event := None;
      otps := otps[k := otps[k].(usedAt := Some(now))];
      var i := Find(orders, OrderHasId(orderId));
      if i.Some? {
        var order := orders[i.value].(status := Delivered);
        orders := orders[i.value := order];
        event := Some(OrderStatusUpdated(order.id, order.status, order));
      }
      assignments := assignments[a := assignments[a].(status := Completed)];
    }

    /** The request route: the guard chain, then deleteMany and create, then the mail. */
    method RequestOtp(caller: Option<Id>, orderId: Option<Id>, smtpConfigured: bool,
                      random: real, now: int, mailAccepted: bool)
      returns (response: Response, mail: Option<OtpMail>)
      requires 0.0 <= random < 1.0
      modifies this
      ensures RequestResult(response, Snapshot(), mail) ==
              Request(old(Snapshot()), caller, orderId, smtpConfigured, random, now, mailAccepted)
    {
      if !Truthy(caller) {
        return Response(401, "Login required"), None;
      }
      if !Truthy(orderId) {
        return Response(400, "orderId required"), None;
      }
      var a := Find(assignments, Held(orderId.value, caller.value));
      if a.None? {
        return Response(403, "forbidden"), None;
      }
      var i := Find(orders, OrderHasId(orderId.value));
      if i.None? {
        return Response(404, "order not found"), None;
      }
      var email := CustomerEmail(users, orders[i.value]);
      if email.None? {
        return Response(400, "user email missing"), None;
      }
      if !smtpConfigured {
        return Response(500, "SMTP config missing"), None;
      }
      var code := Decimal(OtpCode(random));
      var kept := DeleteOrderOtps(otps, orderId.value);
      otps := kept + [NewOtp(orderId.value, code, now)];
      mail := Some(OtpMail(email.value, code));
      response := if mailAccepted then Response(200, "success") else Response(500, "request otp error");
    }
  }
}
