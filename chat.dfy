/** Order chat between a customer and the assigned delivery partner: the send
    route POST /api/chat/message, the reply-suggestion route POST
    /api/chat/suggestions with its normaliser of the language model's reply,
    and the chat room component's message list.

    The order, as the routes resolve it, is a view with its customer and its
    assigned partner (each with the socket id the relay knows), since the
    routes read a populated assignment from the order document. */
module Chat {
  import opened Common
  import opened Models
  import SocketServer

  // ---------------------------------------------------------------------------
  // The stored chat

  /** A participant as the populate step selects it: id and socket id. */
  datatype Party = Party(id: Id, socketId: Option<string>)

  /** The resolved order: its customer (None when the reference does not resolve)
      and the assigned partner (None while nobody is assigned). */
  datatype ChatOrder = ChatOrder(id: Id, customer: Option<Party>, assignee: Option<Party>)

  /** A chat room, one per order, identified here by its order. */
  datatype Room = Room(order: Id, user: Id, deliveryBoy: Id)

  /** A stored message; `room` is the order of its room. Messages are kept in
      creation order, so a later message has a later createdAt. */
  datatype ChatMessage = ChatMessage(room: Id, sender: Id, senderRole: string, text: string)

  datatype ChatStore = ChatStore(orders: seq<ChatOrder>, users: seq<User>, rooms: seq<Room>, messages: seq<ChatMessage>)

  function ChatOrderHasId(orderId: Id): ChatOrder -> bool {
    (o: ChatOrder) => o.id == orderId
  }

  function RoomFor(orderId: Id): Room -> bool {
    (r: Room) => r.order == orderId
  }

  /** The schema's cap on a message's length. */
  const MaxMessageLength: nat := 500

  predicate IsHexDigit(c: char) {
    ('0' <= c <= '9') || ('a' <= c <= 'f') || ('A' <= c <= 'F')
  }

  /** ObjectId.isValid on a string: twenty-four hexadecimal digits. The empty
      id and any id with white space are never valid, so the routes' separate
      emptiness test adds nothing. */
  predicate IsObjectId(s: string): (ok: bool)
    ensures ok ==> s != "" && Trim(s) == s
  {
    |s| == 24 && forall i :: 0 <= i < |s| ==> IsHexDigit(s[i])
  }

  /** At most one room per order: the unique index on the room's order. */
  predicate RoomsUnique(rooms: seq<Room>) {
    forall i, j :: 0 <= i < j < |rooms| ==> rooms[i].order != rooms[j].order
  }

  /** Find the order's room or create it. Creating needs both participants,
      because the room's user is required; None is the failed create. */
  function EnsureRoom(rooms: seq<Room>, o: ChatOrder): (r: Option<seq<Room>>)
    requires o.assignee.Some?
    ensures FindFirst(rooms, RoomFor(o.id)).Some? ==> r == Some(rooms)
    ensures r.Some? ==> FindFirst(r.value, RoomFor(o.id)).Some?
    ensures FindFirst(rooms, RoomFor(o.id)).None? ==>
      (r.Some? <==> o.customer.Some?) &&
      (r.Some? ==> r.value == rooms + [Room(o.id, o.customer.value.id, o.assignee.value.id)])
  {
    if FindFirst(rooms, RoomFor(o.id)).Some? then Some(rooms)
    else if o.customer.None? then None
    else
      var created := rooms + [Room(o.id, o.customer.value.id, o.assignee.value.id)];
      assert RoomFor(o.id)(created[|rooms|]);
      Some(created)
  }

  /** Create-if-missing keeps one room per order, and afterwards the order has one. */
  lemma {:induction false} EnsureRoomKeepsUnique(rooms: seq<Room>, o: ChatOrder)
    requires o.assignee.Some? && RoomsUnique(rooms)
    ensures var r := EnsureRoom(rooms, o);
      r.Some? ==> RoomsUnique(r.value) && FindFirst(r.value, RoomFor(o.id)).Some?
  {
    var r := EnsureRoom(rooms, o);
    if r.Some? && FindFirst(rooms, RoomFor(o.id)).None? {
      var rs := r.value;
      assert rs[|rooms|].order == o.id;
      forall i, j | 0 <= i < j < |rs| ensures rs[i].order != rs[j].order {
        if j == |rooms| {
          assert rs[i] == rooms[i];
          assert !RoomFor(o.id)(rooms[i]);
        }
      }
    }
  }

  // ---------------------------------------------------------------------------
  // POST /api/chat/message

  /** The stored role of the sender when the user exists, otherwise
      "deliveryBoy" for the assigned partner and "user" for anyone else. */
  function SenderRole(users: seq<User>, sender: Id, isDelivery: bool): (role: string)
    ensures FindFirst(users, UserHasId(sender)).Some? ==>
      role == RoleName(users[FindFirst(users, UserHasId(sender)).value].role)
    ensures FindFirst(users, UserHasId(sender)).None? ==> role == (if isDelivery then "deliveryBoy" else "user")
    ensures role in {"user", "deliveryBoy", "admin"}
  {
    match FindFirst(users, UserHasId(sender))
    case Some(i) => RoleName(users[i].role)
    case None => if isDelivery then "deliveryBoy" else "user"
  }

  /** `socketId || null` for a participant: only a truthy socket id survives. */
  function SocketOrNull(p: Option<Party>): (s: Option<string>)
    ensures s.Some? ==> p.Some? && s == p.value.socketId && s.value != ""
    ensures p.Some? && Truthy(p.value.socketId) ==> s == p.value.socketId
  {
    if p.Some? && Truthy(p.value.socketId) then p.value.socketId else None
  }

  /** The route's fan-out as written: one /notify call per participant with
      `socketId || null`, which the relay answers by broadcasting when the
      socket id is null. */
  function FanOutAsWritten(o: ChatOrder): (d: seq<SocketServer.Delivery>)
    ensures |d| == 2
    ensures d[0] == if o.customer.Some? && Truthy(o.customer.value.socketId)
      then SocketServer.ToSocket(o.customer.value.socketId.value) else SocketServer.ToAll
    ensures d[1] == if o.assignee.Some? && Truthy(o.assignee.value.socketId)
      then SocketServer.ToSocket(o.assignee.value.socketId.value) else SocketServer.ToAll
  {
    [SocketServer.Notify(SocketOrNull(o.customer)).1, SocketServer.Notify(SocketOrNull(o.assignee)).1]
  }

  /** A participant without a socket (never connected, or disconnected, which
      clears the socket id) turns the message into a broadcast to every
      connected socket, other customers and partners included. */
  lemma BroadcastWhenSocketMissing(o: ChatOrder)
    requires o.customer.None? || !Truthy(o.customer.value.socketId) ||
             o.assignee.None? || !Truthy(o.assignee.value.socketId)
    ensures SocketServer.ToAll in FanOutAsWritten(o)
  {
  }

  /** The intended fan-out: a notification to each participant that has a
      socket, and none to anyone else. */
  function FanOut(o: ChatOrder): (d: seq<SocketServer.Delivery>)
    ensures forall i :: 0 <= i < |d| ==> d[i].ToSocket?
    ensures forall i :: 0 <= i < |d| ==>
      Some(d[i].socketId) in {SocketOrNull(o.customer), SocketOrNull(o.assignee)}
    ensures SocketOrNull(o.customer).Some? ==> SocketServer.ToSocket(SocketOrNull(o.customer).value) in d
    ensures SocketOrNull(o.assignee).Some? ==> SocketServer.ToSocket(SocketOrNull(o.assignee).value) in d
  {
    Notified(SocketOrNull(o.customer)) + Notified(SocketOrNull(o.assignee))
  }

  function Notified(s: Option<string>): (d: seq<SocketServer.Delivery>)
    ensures s.None? ==> d == []
    ensures s.Some? ==> d == [SocketServer.ToSocket(s.value)]
  {
    if s.Some? then [SocketServer.ToSocket(s.value)] else []
  }

  datatype ChatResult = ChatResult(response: Response, store: ChatStore, sent: Option<ChatMessage>, deliveries: seq<SocketServer.Delivery>)

  /** The requester takes part in the order's chat: its customer or its partner. */
  predicate Participant(o: ChatOrder, requester: Id) {
    (o.customer.Some? && o.customer.value.id == requester) ||
    AssignedTo(o, requester)
  }

  /** The requester is the order's assigned partner. */
  predicate AssignedTo(o: ChatOrder, requester: Id) {
    o.assignee.Some? && o.assignee.value.id == requester
  }

  /** The guards before the order lookup pass and the order exists. */
  predicate Resolves(st: ChatStore, session: Option<Id>, orderId: string, rawText: string) {
    Truthy(session) && IsObjectId(orderId) && Trim(rawText) != "" &&
    FindFirst(st.orders, ChatOrderHasId(orderId)).Some?
  }

  /** The order with this id. */
  function Resolved(st: ChatStore, orderId: string): (o: ChatOrder)
    requires FindFirst(st.orders, ChatOrderHasId(orderId)).Some?
    ensures o in st.orders && o.id == orderId
  {
    st.orders[FindFirst(st.orders, ChatOrderHasId(orderId)).value]
  }

  /** The send route. The guards run in order: no session (401), an order id
      that is not an ObjectId (400), a blank message (400), an unknown order
      (404), no partner assigned (400), a requester who is neither participant
      (403). Then the room is found or created, and the trimmed text is stored
      with the sender's role; the schema refuses a missing room user or a text
      over 500 characters (500), in the second case after the room was made. */
  function PostMessage(st: ChatStore, session: Option<Id>, orderId: string, rawText: string): (r: ChatResult)
    ensures r.response.status in {200, 400, 401, 403, 404, 500}
    ensures r.response.status == 401 <==> !Truthy(session)
    ensures r.response == Response(400, "invalid order id") <==> Truthy(session) && !IsObjectId(orderId)
    ensures r.response == Response(400, "message required") <==>
      Truthy(session) && IsObjectId(orderId) && Trim(rawText) == ""
    ensures r.response.status == 404 <==>
      (Truthy(session) && IsObjectId(orderId) && Trim(rawText) != "" && FindFirst(st.orders, ChatOrderHasId(orderId)).None?)
    ensures r.response == Response(400, "delivery partner not assigned yet") <==>
      Resolves(st, session, orderId, rawText) && Resolved(st, orderId).assignee.None?
    ensures r.response.status == 403 <==>
      Resolves(st, session, orderId, rawText) &&
      Resolved(st, orderId).assignee.Some? && !Participant(Resolved(st, orderId), session.value)
    ensures r.response.status == 500 <==>
      Resolves(st, session, orderId, rawText) &&
      var o := Resolved(st, orderId);
      o.assignee.Some? && Participant(o, session.value) &&
      (EnsureRoom(st.rooms, o).None? || |Trim(rawText)| > MaxMessageLength)
    ensures r.response.status == 200 <==>
      Resolves(st, session, orderId, rawText) &&
      var o := Resolved(st, orderId);
      o.assignee.Some? && Participant(o, session.value) &&
      EnsureRoom(st.rooms, o).Some? && |Trim(rawText)| <= MaxMessageLength
    ensures r.response.status != 200 ==> r.sent.None? && r.deliveries == [] && r.store.messages == st.messages
    ensures r.response.status in {400, 401, 403, 404} ==> r.store == st
    ensures r.response.status == 200 ==> Resolves(st, session, orderId, rawText)
    ensures r.response.status == 200 ==>
      var o := Resolved(st, orderId);
      && r.sent == Some(ChatMessage(orderId, session.value,
           SenderRole(st.users, session.value, o.assignee.value.id == session.value), Trim(rawText)))
      && r.store == st.(rooms := EnsureRoom(st.rooms, o).value, messages := st.messages + [r.sent.value])
      && FindFirst(r.store.rooms, RoomFor(orderId)).Some?
      && r.deliveries == FanOutAsWritten(o)
  {
    if !Truthy(session) then ChatResult(Response(401, "Login required"), st, None, [])
    else if orderId == "" || !IsObjectId(orderId) then ChatResult(Response(400, "invalid order id"), st, None, [])
    else
      var text := Trim(rawText);
      if text == "" then ChatResult(Response(400, "message required"), st, None, [])
      else match FindFirst(st.orders, ChatOrderHasId(orderId))
        case None => ChatResult(Response(404, "order not found"), st, None, [])
        case Some(k) => Send(st, k, session.value, text)
  }

  /** The route after the order is found: the partner and participant checks,
      the room, and the stored message. */
  function Send(st: ChatStore, k: nat, requester: Id, text: string): (r: ChatResult)
    requires k < |st.orders| && text != ""
    ensures r.response.status in {200, 400, 403, 500}
    ensures r.response.status == 400 <==> st.orders[k].assignee.None?
    ensures r.response.status == 400 ==> r.response.message == "delivery partner not assigned yet"
    ensures r.response.status == 403 <==> st.orders[k].assignee.Some? && !Participant(st.orders[k], requester)
    ensures r.response.status == 500 <==>
      var o := st.orders[k];
      o.assignee.Some? && Participant(o, requester) &&
      (EnsureRoom(st.rooms, o).None? || |text| > MaxMessageLength)
    ensures r.response.status != 200 ==> r.sent.None? && r.deliveries == [] && r.store.messages == st.messages
    ensures r.response.status in {400, 403} ==> r.store == st
    ensures r.response.status == 500 ==>
      r.store == st.(rooms := if EnsureRoom(st.rooms, st.orders[k]).Some? then EnsureRoom(st.rooms, st.orders[k]).value else st.rooms)
    ensures r.response.status == 200 ==>
      var o := st.orders[k];
      && r.sent == Some(ChatMessage(o.id, requester, SenderRole(st.users, requester, o.assignee.value.id == requester), text))
      && r.store == st.(rooms := EnsureRoom(st.rooms, o).value, messages := st.messages + [r.sent.value])
      && FindFirst(r.store.rooms, RoomFor(o.id)).Some?
      && r.deliveries == FanOutAsWritten(o)
  {
    var o := st.orders[k];
    if o.assignee.None? then ChatResult(Response(400, "delivery partner not assigned yet"), st, None, [])
    else
      var isDelivery := requester == o.assignee.value.id;
      if !Participant(o, requester) then ChatResult(Response(403, "forbidden"), st, None, [])
      else match EnsureRoom(st.rooms, o)
        case None => ChatResult(Response(500, "send message error"), st, None, [])
        case Some(rooms) =>
          if |text| > MaxMessageLength then
            ChatResult(Response(500, "send message error"), st.(rooms := rooms), None, [])
          else
            var m := ChatMessage(o.id, requester, SenderRole(st.users, requester, isDelivery), text);
            ChatResult(Response(200, "sent"), st.(rooms := rooms, messages := st.messages + [m]), Some(m), FanOutAsWritten(o))
  }

  /** A message is stored under the order's one room. */
  lemma {:induction false} PostKeepsRoomsUnique(st: ChatStore, session: Option<Id>, orderId: string, rawText: string)
    requires RoomsUnique(st.rooms)
    ensures RoomsUnique(PostMessage(st, session, orderId, rawText).store.rooms)
  {
    var r := PostMessage(st, session, orderId, rawText);
    if Resolves(st, session, orderId, rawText) {
      var k := FindFirst(st.orders, ChatOrderHasId(orderId)).value;
      assert r == Send(st, k, session.value, Trim(rawText));
      SendKeepsRoomsUnique(st, k, session.value, Trim(rawText));
    } else {
      assert r.store == st;
    }
  }

  lemma SendKeepsRoomsUnique(st: ChatStore, k: nat, requester: Id, text: string)
    requires k < |st.orders| && text != "" && RoomsUnique(st.rooms)
    ensures RoomsUnique(Send(st, k, requester, text).store.rooms)
  {
    var o := st.orders[k];
    if o.assignee.Some? && Participant(o, requester) {
      EnsureRoomKeepsUnique(st.rooms, o);
    }
  }

  /** As written, a message sent while a participant has no socket reaches
      every connected socket. */
  lemma PostBroadcastsWhenSocketMissing(st: ChatStore, session: Option<Id>, orderId: string, rawText: string)
    requires PostMessage(st, session, orderId, rawText).response.status == 200
    requires var o := Resolved(st, orderId);
      o.customer.None? || !Truthy(o.customer.value.socketId) || !Truthy(o.assignee.value.socketId)
    ensures SocketServer.ToAll in PostMessage(st, session, orderId, rawText).deliveries
  {
    BroadcastWhenSocketMissing(Resolved(st, orderId));
  }

  /** The send route with the intended fan-out: the same answer and the same
      stored message, delivered only to the participants' sockets. */
  function PostMessageCorrected(st: ChatStore, session: Option<Id>, orderId: string, rawText: string): (r: ChatResult)
    ensures r.response.status == 200 ==>
      Resolves(st, session, orderId, rawText) && r.deliveries == FanOut(Resolved(st, orderId))
    ensures r.(deliveries := []) == PostMessage(st, session, orderId, rawText).(deliveries := [])
    ensures r.response.status != 200 ==> r.deliveries == []
    ensures forall i :: 0 <= i < |r.deliveries| ==> r.deliveries[i] != SocketServer.ToAll
  {
    var w := PostMessage(st, session, orderId, rawText);
    if w.response.status == 200 && Resolves(st, session, orderId, rawText) then
      w.(deliveries := FanOut(Resolved(st, orderId)))
    else w.(deliveries := [])
  }

  /** The chat store, written in place by the send route. */
  class ChatDb {
    var orders: seq<ChatOrder>
    var users: seq<User>
    var rooms: seq<Room>
    var messages: seq<ChatMessage>

    function Snapshot(): ChatStore
      reads this
    {
      ChatStore(orders, users, rooms, messages)
    }

    constructor (st: ChatStore)
      ensures Snapshot() == st
    {
      orders, users, rooms, messages := st.orders, st.users, st.rooms, st.messages;
    }

    method Post(session: Option<Id>, orderId: string, rawText: string)
      returns (response: Response, sent: Option<ChatMessage>, deliveries: seq<SocketServer.Delivery>)
      modifies this
      ensures ChatResult(response, Snapshot(), sent, deliveries) == PostMessage(old(Snapshot()), session, orderId, rawText)
    {
      if !Truthy(session) {
        return Response(401, "Login required"), None, [];
      }
      if orderId == "" || !IsObjectId(orderId) {
        return Response(400, "invalid order id"), None, [];
      }
      var text := Trim(rawText);
      if text == "" {
        return Response(400, "message required"), None, [];
      }
      var k := Find(orders, ChatOrderHasId(orderId));
      if k.None? {
        return Response(404, "order not found"), None, [];
      }
      response, sent, deliveries := SendFound(k.value, session.value, text);
    }

    /** The route after the order is found, on the store itself. */
    method SendFound(k: nat, requester: Id, text: string)
      returns (response: Response, sent: Option<ChatMessage>, deliveries: seq<SocketServer.Delivery>)
      requires k < |orders| && text != ""
      modifies this
      ensures ChatResult(response, Snapshot(), sent, deliveries) == Send(old(Snapshot()), k, requester, text)
    {
      var o := orders[k];
      if o.assignee.None? {
        return Response(400, "delivery partner not assigned yet"), None, [];
      }
      var isUser := o.customer.Some? && requester == o.customer.value.id;
      var isDelivery := requester == o.assignee.value.id;
      if !isUser && !isDelivery {
        return Response(403, "forbidden"), None, [];
      }
      var room := Find(rooms, RoomFor(o.id));
      if room.None? {
        if o.customer.None? {
          return Response(500, "send message error"), None, [];
        }
        rooms := rooms + [Room(o.id, o.customer.value.id, o.assignee.value.id)];
      }
      if |text| > MaxMessageLength {
        return Response(500, "send message error"), None, [];
      }
      var m := ChatMessage(o.id, requester, SenderRole(users, requester, isDelivery), text);
      messages := messages + [m];
      response, sent, deliveries := Response(200, "sent"), Some(m), FanOutAsWritten(o);
    }
  }

  // ---------------------------------------------------------------------------
  // Reply suggestions

  /** JSON.parse of the sliced reply: it throws, yields a non-array, or yields
      an array whose elements are given already converted with String(). */
  datatype Parsed = Threw | NotArray | Array(items: seq<string>)

  /** The characters the fallback strips from the front of a line: the class
      [-*\d.\s], where \d is an ASCII digit. */
  predicate IsMarker(c: char) {
    c == '-' || c == '*' || ('0' <= c <= '9') || c == '.' || IsSpace(c)
  }

  /** replace(/^[-*\d.\s]+/, ""): drops the leading run of marker characters. */
  function StripMarker(s: string): (r: string)
    ensures |r| <= |s| && r == s[|s| - |r|..]
    ensures forall i :: 0 <= i < |s| - |r| ==> IsMarker(s[i])
    ensures r != [] ==> !IsMarker(r[0])
  {
    if s != [] && IsMarker(s[0]) then StripMarker(s[1..]) else s
  }

  /** lastIndexOf for one character. */
  function LastIndexOfChar(s: string, c: char): (k: nat)
    requires c in s
    ensures k < |s| && s[k] == c && c !in s[k + 1..]
  {
    if s[|s| - 1] == c then |s| - 1
    else
      assert c in s[..|s| - 1] by {
        var j :| 0 <= j < |s| && s[j] == c;
        assert s[..|s| - 1][j] == c;
      }
      var k := LastIndexOfChar(s[..|s| - 1], c);
      assert s[k + 1..] == s[..|s| - 1][k + 1..] + [s[|s| - 1]];
      k
  }

  /** The bracketed part of the reply, from the first "[" to the last "]", when
      the last "]" comes after the first "[". */
  function Bracketed(raw: string): (b: Option<string>)
    ensures b.Some? ==> |b.value| >= 2 && b.value[0] == '[' && b.value[|b.value| - 1] == ']'
    ensures '[' !in raw ==> b.None?
  {
    if '[' in raw && ']' in raw && LastIndexOfChar(raw, ']') > IndexOfChar(raw, '[') then
      Some(raw[IndexOfChar(raw, '[')..LastIndexOfChar(raw, ']') + 1])
    else None
  }

  function NonBlank(): string -> bool {
    (s: string) => s != ""
  }

  /** Trimmed: empty, or neither end is white space. */
  predicate Tidy(s: string) {
    s == [] || (!IsSpace(s[0]) && !IsSpace(s[|s| - 1]))
  }

  /** .filter(Boolean).slice(0, 4): the first four non-blank entries, in their
      order; fewer only when there are fewer non-blank entries. */
  function FirstFour(s: seq<string>): (r: seq<string>)
    ensures var ix := PassingIndices(s, NonBlank());
      && |r| == (if |ix| < 4 then |ix| else 4)
      && forall k :: 0 <= k < |r| ==> r[k] == s[ix[k]]
    ensures forall i :: 0 <= i < |r| ==> r[i] != "" && r[i] in s
  {
    FilterPicksPassing(s, NonBlank());
    Take(Filter(s, NonBlank()), 4)
  }

  /** .map(s => String(s).trim()). */
  function TrimAll(items: seq<string>): (r: seq<string>)
    ensures |r| == |items| && forall i :: 0 <= i < |r| ==> r[i] == Trim(items[i]) && Tidy(r[i])
  {
    TrimsAreTidy(items);
    seq(|items|, i requires 0 <= i < |items| => Trim(items[i]))
  }

  lemma TrimsAreTidy(items: seq<string>)
    ensures forall i :: 0 <= i < |items| ==> Tidy(Trim(items[i]))
  {
    forall i | 0 <= i < |items|
      ensures Tidy(Trim(items[i]))
    {
      TrimmedEnds(items[i]);
    }
  }

  /** A fallback line cleaned: marker run stripped, then trimmed. */
  function CleanLine(line: string): (r: string)
    ensures Tidy(r)
    ensures r != [] ==> !IsMarker(r[0])
  {
    var s := StripMarker(line);
    var r := Trim(s);
    assert r != [] ==> r[0] == s[0] by {
      if r != [] { assert TrimStart(s) == s; }
    }
    r
  }

  function CleanLines(lines: seq<string>): (r: seq<string>)
    ensures |r| == |lines|
    ensures forall i :: 0 <= i < |r| ==> r[i] == CleanLine(lines[i]) && Tidy(r[i]) && (r[i] != [] ==> !IsMarker(r[i][0]))
  {
    seq(|lines|, i requires 0 <= i < |lines| => CleanLine(lines[i]))
  }

  /** The first "[...]" part of the reply parses to an array. */
  predicate UsableArray(raw: string, parse: string -> Parsed) {
    Bracketed(raw).Some? && parse(Bracketed(raw).value).Array?
  }

  /** The suggestions taken from a parsed array: the first four elements that
      are non-blank once trimmed, trimmed, in their order. */
  function FromArray(items: seq<string>): (r: seq<string>)
    ensures var ix := PassingIndices(TrimAll(items), NonBlank());
      && |r| == (if |ix| < 4 then |ix| else 4)
      && forall k :: 0 <= k < |r| ==> r[k] == Trim(items[ix[k]])
    ensures forall i :: 0 <= i < |r| ==> r[i] != "" && Tidy(r[i])
  {
    FirstFour(TrimAll(items))
  }

  /** The suggestions taken line by line: the first four lines that are
      non-blank once cleaned, cleaned, in their order. */
  function FromLines(raw: string): (r: seq<string>)
    ensures var lines := Split(raw, '\n'); var ix := PassingIndices(CleanLines(lines), NonBlank());
      && |r| == (if |ix| < 4 then |ix| else 4)
      && forall k :: 0 <= k < |r| ==> r[k] == CleanLine(lines[ix[k]])
    ensures forall i :: 0 <= i < |r| ==> r[i] != "" && Tidy(r[i]) && !IsMarker(r[i][0])
  {
    FirstFour(CleanLines(Split(raw, '\n')))
  }

  /** normalizeSuggestions: nothing for an empty reply. When the bracketed part
      parses to an array, its first four elements that are non-blank once
      trimmed, trimmed and in order; otherwise the first four lines of the
      reply that are non-blank once cleaned, cleaned and in order, never
      starting with a list marker, a digit or a dot. Never a blank entry, never
      white space at either end. */
  function NormalizeSuggestions(raw: string, parse: string -> Parsed): (r: seq<string>)
    ensures raw == "" ==> r == []
    ensures |r| <= 4
    ensures forall i :: 0 <= i < |r| ==> r[i] != "" && Tidy(r[i])
    ensures raw != "" && UsableArray(raw, parse) ==>
      var items := parse(Bracketed(raw).value).items;
      var ix := PassingIndices(TrimAll(items), NonBlank());
      && |r| == (if |ix| < 4 then |ix| else 4)
      && forall k :: 0 <= k < |r| ==> r[k] == Trim(items[ix[k]])
    ensures raw != "" && !UsableArray(raw, parse) ==>
      var lines := Split(raw, '\n');
      var ix := PassingIndices(CleanLines(lines), NonBlank());
      && |r| == (if |ix| < 4 then |ix| else 4)
      && (forall k :: 0 <= k < |r| ==> r[k] == CleanLine(lines[ix[k]]))
      && (forall i :: 0 <= i < |r| ==> !IsMarker(r[i][0]))
  {
    if raw == "" then []
    else if UsableArray(raw, parse) then FromArray(parse(Bracketed(raw).value).items)
    else FromLines(raw)
  }

  /** A reply whose bracketed part is an array of at most four non-blank,
      trimmed strings gives back exactly those strings. */
  lemma {:induction false} ArrayRoundTrip(raw: string, parse: string -> Parsed)
    requires raw != "" && UsableArray(raw, parse)
    requires var items := parse(Bracketed(raw).value).items;
      |items| <= 4 && forall i :: 0 <= i < |items| ==> items[i] != "" && Trim(items[i]) == items[i]
    ensures NormalizeSuggestions(raw, parse) == parse(Bracketed(raw).value).items
  {
    var items := parse(Bracketed(raw).value).items;
    assert TrimAll(items) == items;
    FilterAll(items, NonBlank());
    assert FromArray(items) == items;
  }

  /** Without a "[" the parser is never consulted. */
  lemma NoBracketNoParse(raw: string, p1: string -> Parsed, p2: string -> Parsed)
    requires '[' !in raw
    ensures NormalizeSuggestions(raw, p1) == NormalizeSuggestions(raw, p2)
  {
  }

  /** The fallback eats a leading number: a one-line reply "5 min" becomes
      "min", because digits belong to the stripped marker class. */
  lemma {:induction false} LeadingNumberStripped(parse: string -> Parsed)
    ensures NormalizeSuggestions("5 min", parse) == ["min"]
  {
    var raw := "5 min";
    assert '[' !in raw;
    assert !UsableArray(raw, parse);
    FromLinesFiveMin();
  }

  lemma FromLinesFiveMin()
    ensures FromLines("5 min") == ["min"]
  {
    LineOfFiveMin();
    KeepsOneLine("min");
  }

  lemma KeepsOneLine(line: string)
    requires line != ""
    ensures FirstFour([line]) == [line]
  {
    FilterAll([line], NonBlank());
  }

  lemma LineOfFiveMin()
    ensures CleanLines(Split("5 min", '\n')) == ["min"]
  {
    SplitFiveMin();
    CleanFiveMin();
    var r := CleanLines(["5 min"]);
    assert |r| == 1 && r[0] == CleanLine("5 min");
  }

  lemma SplitFiveMin()
    ensures Split("5 min", '\n') == ["5 min"]
  {
    var raw := "5 min";
    assert '\n' !in raw;
  }

  lemma CleanFiveMin()
    ensures CleanLine("5 min") == "min"
  {
    StripFiveMin();
    TrimMin();
    CleanedTo("5 min", "min");
  }

  lemma CleanedTo(line: string, rest: string)
    requires StripMarker(line) == rest && Trim(rest) == rest
    ensures CleanLine(line) == rest
  {
  }

  lemma TrimMin()
    ensures Trim("min") == "min"
  {
    var m := "min";
    assert |m| == 3 && m[0] == 'm' && m[1] == 'i' && m[2] == 'n';
    assert forall i :: 0 <= i < |m| ==> !IsSpace(m[i]);
    TrimNoSpace(m);
  }

  lemma StripFiveMin()
    ensures StripMarker("5 min") == "min"
  {
    assert IsMarker('5') && IsMarker(' ') && !IsMarker('m');
    StripStep("5 min");
    assert "5 min"[1..] == " min";
    StripStep(" min");
    assert " min"[1..] == "min";
    StripStop("min");
  }

  lemma StripStep(s: string)
    requires s != [] && IsMarker(s[0])
    ensures StripMarker(s) == StripMarker(s[1..])
  {
  }

  lemma StripStop(s: string)
    requires s != [] && !IsMarker(s[0])
    ensures StripMarker(s) == s
  {
  }

  /** A message of the order's room sent by the customer side. */
  predicate FromRoomCustomer(m: ChatMessage, orderId: Id) {
    m.room == orderId && m.senderRole == "user"
  }

  /** The room's latest message sent by the customer side, or "". */
  function LatestUserText(messages: seq<ChatMessage>, orderId: Id): (t: string)
    ensures t != "" ==>
      exists i :: 0 <= i < |messages| && messages[i].room == orderId && messages[i].senderRole == "user" && messages[i].text == t
    ensures (forall i :: 0 <= i < |messages| ==> !FromRoomCustomer(messages[i], orderId)) ==> t == ""
    ensures (exists i :: 0 <= i < |messages| && FromRoomCustomer(messages[i], orderId)) ==>
      exists i :: 0 <= i < |messages| && FromRoomCustomer(messages[i], orderId) && messages[i].text == t &&
        forall j :: i < j < |messages| ==> !FromRoomCustomer(messages[j], orderId)
  {
    if messages == [] then ""
    else
      var m := messages[|messages| - 1];
      if m.room == orderId && m.senderRole == "user" then m.text
      else
        var t := LatestUserText(messages[..|messages| - 1], orderId);
        assert forall i :: 0 <= i < |messages| - 1 ==> messages[..|messages| - 1][i] == messages[i];
        t
  }

  datatype SuggestResult = SuggestResult(response: Response, rooms: seq<Room>, context: string, suggestions: seq<string>)

  /** The customer's message the prompt quotes: the trimmed hint, or else the
      room's latest customer message. */
  function PromptContext(messages: seq<ChatMessage>, orderId: Id, hint: string): (t: string)
    ensures Trim(hint) != "" ==> t == Trim(hint)
    ensures Trim(hint) == "" ==> t == LatestUserText(messages, orderId)
  {
    if Trim(hint) != "" then Trim(hint) else LatestUserText(messages, orderId)
  }

  /** The requester's stored role is "deliveryBoy". */
  predicate IsStoredPartner(users: seq<User>, requester: Id) {
    FindFirst(users, UserHasId(requester)).Some? &&
    users[FindFirst(users, UserHasId(requester)).value].role == DeliveryBoy
  }

  /** The suggestion route. The guards run in order: no session (401), an
      invalid order id (400), a requester whose stored role is not
      "deliveryBoy" (403), an unknown order (404), a requester who is not the
      order's assigned partner (403). The room is then found or created, the
      prompt quotes the customer's message, a missing API key answers 500, and
      otherwise the model's reply is normalised. */
  function Suggest(st: ChatStore, session: Option<Id>, orderId: string, hint: string, apiKey: bool,
                   reply: string, parse: string -> Parsed): (r: SuggestResult)
    ensures r.response.status in {200, 400, 401, 403, 404, 500}
    ensures r.response.status == 401 <==> !Truthy(session)
    ensures r.response.status == 400 <==> Truthy(session) && !IsObjectId(orderId)
    ensures r.response.status == 403 <==>
      Truthy(session) && IsObjectId(orderId) &&
      (!IsStoredPartner(st.users, session.value) ||
       (FindFirst(st.orders, ChatOrderHasId(orderId)).Some? && !AssignedTo(Resolved(st, orderId), session.value)))
    ensures r.response.status == 404 <==>
      Truthy(session) && IsObjectId(orderId) && IsStoredPartner(st.users, session.value) &&
      FindFirst(st.orders, ChatOrderHasId(orderId)).None?
    ensures r.response.status == 500 <==>
      Truthy(session) && IsObjectId(orderId) && IsStoredPartner(st.users, session.value) &&
      FindFirst(st.orders, ChatOrderHasId(orderId)).Some? &&
      var o := Resolved(st, orderId);
      AssignedTo(o, session.value) && (EnsureRoom(st.rooms, o).None? || !apiKey)
    ensures r.response.status == 200 <==>
      Truthy(session) && IsObjectId(orderId) && IsStoredPartner(st.users, session.value) &&
      FindFirst(st.orders, ChatOrderHasId(orderId)).Some? &&
      var o := Resolved(st, orderId);
      AssignedTo(o, session.value) && EnsureRoom(st.rooms, o).Some? && apiKey
    ensures r.response.status == 200 ==>
      && FindFirst(r.rooms, RoomFor(orderId)).Some?
      && r.rooms == EnsureRoom(st.rooms, Resolved(st, orderId)).value
      && r.context == PromptContext(st.messages, orderId, hint)
      && r.suggestions == NormalizeSuggestions(reply, parse)
    ensures r.response.status != 200 ==> r.suggestions == []
    ensures r.response.status in {400, 401, 403, 404} ==> r.rooms == st.rooms
  {
    if !Truthy(session) then SuggestResult(Response(401, "Login required"), st.rooms, "", [])
    else if orderId == "" || !IsObjectId(orderId) then SuggestResult(Response(400, "invalid order id"), st.rooms, "", [])
    else if !IsStoredPartner(st.users, session.value) then SuggestResult(Response(403, "forbidden"), st.rooms, "", [])
    else match FindFirst(st.orders, ChatOrderHasId(orderId))
      case None => SuggestResult(Response(404, "order not found"), st.rooms, "", [])
      case Some(k) => SuggestFor(st, st.orders[k], session.value, hint, apiKey, reply, parse)
  }

  /** The suggestion route once the order is found. */
  function SuggestFor(st: ChatStore, o: ChatOrder, requester: Id, hint: string, apiKey: bool,
                      reply: string, parse: string -> Parsed): (r: SuggestResult)
    ensures r.response.status in {200, 403, 500}
    ensures r.response.status == 403 <==> !AssignedTo(o, requester)
    ensures r.response.status == 500 <==> AssignedTo(o, requester) && (EnsureRoom(st.rooms, o).None? || !apiKey)
    ensures r.response.status == 200 <==> AssignedTo(o, requester) && EnsureRoom(st.rooms, o).Some? && apiKey
    ensures AssignedTo(o, requester) ==>
      r.rooms == if EnsureRoom(st.rooms, o).Some? then EnsureRoom(st.rooms, o).value else st.rooms
    ensures r.response.status == 200 ==>
      && FindFirst(r.rooms, RoomFor(o.id)).Some?
      && r.context == PromptContext(st.messages, o.id, hint)
      && r.suggestions == NormalizeSuggestions(reply, parse)
    ensures r.response.status != 200 ==> r.suggestions == []
    ensures r.response.status == 403 ==> r.rooms == st.rooms
  {
    if !AssignedTo(o, requester) then
      SuggestResult(Response(403, "forbidden"), st.rooms, "", [])
    else match EnsureRoom(st.rooms, o)
      case None => SuggestResult(Response(500, "suggestions error"), st.rooms, "", [])
      case Some(rooms) =>
        var context := PromptContext(st.messages, o.id, hint);
        if !apiKey then SuggestResult(Response(500, "Groq API key missing"), rooms, context, [])
        else SuggestResult(Response(200, "ok"), rooms, context, NormalizeSuggestions(reply, parse))
  }

  /** A customer may chat about their order but never ask for suggestions:
      the send route admits both participants, the suggestion route only a
      stored delivery partner who is the order's assignee. */
  lemma CustomerCannotSuggest(st: ChatStore, session: Id, orderId: string, hint: string, apiKey: bool,
                              reply: string, parse: string -> Parsed)
    requires !IsStoredPartner(st.users, session)
    ensures Suggest(st, Some(session), orderId, hint, apiKey, reply, parse).response.status != 200
  {
  }

  // ---------------------------------------------------------------------------
  // The chat room component

  /** A message as the component holds it; an absent text is "". */
  datatype ClientMessage = ClientMessage(id: Option<string>, text: string, senderRole: Option<string>)

  /** The payload of a "chat-message" socket event. */
  datatype Incoming = Incoming(orderId: Option<string>, message: Option<ClientMessage>)

  /** A message with a truthy id that is already in the list. */
  predicate Known(prev: seq<ClientMessage>, m: ClientMessage) {
    Truthy(m.id) && exists j :: 0 <= j < |prev| && prev[j].id == m.id
  }

  /** The de-duplicating append both the socket handler and the send echo use. */
  function AppendUnique(prev: seq<ClientMessage>, m: ClientMessage): (r: seq<ClientMessage>)
    ensures Known(prev, m) ==> r == prev
    ensures !Known(prev, m) ==> r == prev + [m]
  {
    if Truthy(m.id) && exists j :: 0 <= j < |prev| && prev[j].id == m.id then prev else prev + [m]
  }

  /** Truthy ids occur at most once. */
  predicate IdsUnique(msgs: seq<ClientMessage>) {
    forall i, j :: 0 <= i < j < |msgs| && Truthy(msgs[i].id) ==> msgs[i].id != msgs[j].id
  }

  lemma AppendUniqueKeepsIdsUnique(prev: seq<ClientMessage>, m: ClientMessage)
    requires IdsUnique(prev)
    ensures IdsUnique(AppendUnique(prev, m))
  {
    var r := AppendUnique(prev, m);
    if !Known(prev, m) {
      forall i, j | 0 <= i < j < |r| && Truthy(r[i].id) ensures r[i].id != r[j].id {
        if j == |prev| {
          assert r[i] == prev[i];
        }
      }
    }
  }

  /** The socket handler: a payload for another order, or without a message
      text, is ignored; otherwise the message is appended unless already there. */
  function OnIncoming(prev: seq<ClientMessage>, orderId: string, p: Incoming): (r: seq<ClientMessage>)
    ensures !Truthy(p.orderId) || p.orderId.value != orderId || p.message.None? || p.message.value.text == "" ==> r == prev
    ensures r == prev || (r == prev + [p.message.value] && p.orderId == Some(orderId) && p.message.value.text != "")
    ensures Truthy(p.orderId) && p.orderId.value == orderId && p.message.Some? && p.message.value.text != "" ==>
      r == AppendUnique(prev, p.message.value)
  {
    if !Truthy(p.orderId) || p.orderId.value != orderId then prev
    else if p.message.None? || p.message.value.text == "" then prev
    else AppendUnique(prev, p.message.value)
  }

  datatype SendOutcome = SendOutcome(post: Option<string>, messages: seq<ClientMessage>)

  /** sendMessage: blank text or no order posts nothing; otherwise the trimmed
      text is posted and the echoed message, when the server returns one, is
      appended unless already there. */
  function SendMessage(prev: seq<ClientMessage>, orderId: string, text: string, echo: Option<ClientMessage>): (r: SendOutcome)
    ensures r.post.None? <==> Trim(text) == "" || orderId == ""
    ensures r.post.Some? ==> r.post.value == Trim(text) && r.post.value != ""
    ensures r.post.None? || echo.None? ==> r.messages == prev
    ensures r.post.Some? && echo.Some? ==> r.messages == AppendUnique(prev, echo.value)
  {
    var trimmed := Trim(text);
    if trimmed == "" || orderId == "" then SendOutcome(None, prev)
    else if echo.None? then SendOutcome(Some(trimmed), prev)
    else SendOutcome(Some(trimmed), AppendUnique(prev, echo.value))
  }

  /** The sender sees its message once whichever of the echo and the socket
      event arrives first, provided the server gave it an id. */
  lemma {:induction false} EchoAndEventOnce(prev: seq<ClientMessage>, orderId: string, text: string, m: ClientMessage)
    requires Trim(text) != "" && orderId != "" && Truthy(m.id) && m.text != "" && !Known(prev, m)
    ensures var viaEcho := SendMessage(prev, orderId, text, Some(m)).messages;
      var viaEvent := OnIncoming(prev, orderId, Incoming(Some(orderId), Some(m)));
      && OnIncoming(viaEcho, orderId, Incoming(Some(orderId), Some(m))) == prev + [m]
      && SendMessage(viaEvent, orderId, text, Some(m)).messages == prev + [m]
  {
    var once := prev + [m];
    assert once[|prev|].id == m.id;
    assert Known(once, m);
  }

  function FromUser(): ClientMessage -> bool {
    (m: ClientMessage) => m.senderRole == Some("user")
  }

  /** lastUserMessage: the text of the latest message whose sender role is
      "user", or "" when there is none. */
  function LastUserMessage(msgs: seq<ClientMessage>): (t: string)
    ensures (forall i :: 0 <= i < |msgs| ==> msgs[i].senderRole != Some("user")) ==> t == ""
    ensures (exists i :: 0 <= i < |msgs| && msgs[i].senderRole == Some("user")) ==>
      exists i :: 0 <= i < |msgs| && msgs[i].senderRole == Some("user") && msgs[i].text == t &&
        forall j :: i < j < |msgs| ==> msgs[j].senderRole != Some("user")
  {
    var rev := Reverse(msgs);
    match FindFirst(rev, FromUser())
    case None =>
      assert forall i :: 0 <= i < |msgs| ==> msgs[i] == rev[|msgs| - 1 - i];
      ""
    case Some(k) =>
      var i := |msgs| - 1 - k;
      assert msgs[i] == rev[k];
      assert forall j :: i < j < |msgs| ==> msgs[j] == rev[|msgs| - 1 - j];
      rev[k].text
  }

  /** Appending a customer message makes it the latest; appending any other
      message leaves the latest customer message as it was. */
  lemma LastUserMessageAfterAppend(msgs: seq<ClientMessage>, m: ClientMessage)
    ensures m.senderRole == Some("user") ==> LastUserMessage(msgs + [m]) == m.text
    ensures m.senderRole != Some("user") ==> LastUserMessage(msgs + [m]) == LastUserMessage(msgs)
  {
    var rev := Reverse(msgs + [m]);
    assert rev == [m] + Reverse(msgs);
    assert rev[1..] == Reverse(msgs);
    if m.senderRole == Some("user") {
      assert FindFirst(rev, FromUser()) == Some(0);
    } else {
      assert !FromUser()(rev[0]);
      assert FindFirst(rev, FromUser()) ==
        match FindFirst(Reverse(msgs), FromUser()) case None => None case Some(k) => Some(k + 1);
    }
  }
}
