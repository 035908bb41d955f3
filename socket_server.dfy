/** The realtime relay: a socket.io server whose per-connection handlers report
    presence and location to the web application, and whose POST /notify
    endpoint forwards an event to one socket or to every socket.

    A handler's HTTP call to the web application is returned as a request value;
    whether that call succeeded is a parameter of the handler that waits for it. */
module SocketServer {
  import opened Common
  import opened Models
  import Presence
  import Access

  /** A payload field as the update-location handler sees it: a JavaScript
      number (possibly NaN or infinite), an object that may carry an accuracy,
      or any other value. */
  datatype JsField = Number(n: Num) | Object(accuracy: Option<real>) | Other

  /** The "location-updated" event; the accuracy is set only when one is found. */
  datatype LocationEvent = LocationUpdated(userId: Option<Id>, latitude: Num, longitude: Num, accuracy: Option<real>)

  /** The body posted to /api/socket/updatelocation. */
  datatype LocationPost = LocationPost(userId: Option<Id>, location: GeoPoint)

  /** The body posted to /api/socket/connect on identity: the socket's id, online. */
  function IdentityPost(socketId: string, userId: Option<Id>): (b: Presence.ConnectBody)
    ensures b.userId == userId && b.socketId == Some(Some(socketId)) && b.isOnline == Some(true)
  {
    Presence.ConnectBody(userId, Some(Some(socketId)), Some(true))
  }

  /** The body posted on disconnect: socket cleared, offline. */
  function DisconnectPost(userId: Option<Id>): (b: Presence.ConnectBody)
    ensures b.userId == userId && b.socketId == Some(None) && b.isOnline == Some(false)
  {
    Presence.ConnectBody(userId, Some(None), Some(false))
  }

  /** typeof latitude === "object" && latitude?.accuracy ? latitude.accuracy : undefined. */
  function AccuracyOf(latitude: JsField): Option<real> {
    match latitude
    case Object(acc) => if acc.Some? && acc.value != 0.0 then acc else None
    case _ => None
  }

  /** The update-location guard: both fields numbers (NaN and the infinities
      included) and not both zero. */
  predicate Forwarded(latitude: JsField, longitude: JsField) {
    latitude.Number? && longitude.Number? &&
    !(latitude.n == Finite(0.0) && longitude.n == Finite(0.0))
  }

  /** The stored point: [longitude, latitude]. */
  function PointOf(latitude: Num, longitude: Num): (p: GeoPoint)
    ensures Presence.Longitude(p) == longitude && Presence.Latitude(p) == latitude
    ensures p.kind == "Point"
  {
    GeoPoint("Point", [longitude, latitude])
  }

  datatype LocationHandling = LocationHandling(post: Option<LocationPost>, emitted: Option<LocationEvent>)

  /** The update-location handler: ignored unless the guard passes; otherwise the
      point is posted and, once the post has succeeded (`postOk`), the fix is broadcast. The
      accuracy never appears, because a field that passed the guard is a number. */
  function UpdateLocationHandler(userId: Option<Id>, latitude: JsField, longitude: JsField, postOk: bool): (h: LocationHandling)
    ensures h.post.Some? <==> Forwarded(latitude, longitude)
    ensures h.post.Some? ==> h.post.value == LocationPost(userId, PointOf(latitude.n, longitude.n))
    ensures h.emitted.Some? <==> h.post.Some? && postOk
    ensures h.emitted.Some? ==> h.emitted.value == LocationUpdated(userId, latitude.n, longitude.n, None)
  {
    if !latitude.Number? || !longitude.Number? || (latitude.n == Finite(0.0) && longitude.n == Finite(0.0)) then
      LocationHandling(None, None)
    else
      var post := LocationPost(userId, PointOf(latitude.n, longitude.n));
      var accuracy := AccuracyOf(latitude);
      if !postOk then LocationHandling(Some(post), None)
      else LocationHandling(Some(post), Some(LocationUpdated(userId, latitude.n, longitude.n, accuracy)))
  }

  // ---------------------------------------------------------------------------
  // From the relay to the web application

  const ConnectPath: string := "/api/socket/connect"
  const UpdateLocationPath: string := "/api/socket/updatelocation"

  /** socket.io carries an event's payload as JSON, which writes NaN and the
      infinities as null; typeof null is "object", so such a field reaches the
      handler as an object without an accuracy. */
  function OverJson(f: JsField): (g: JsField)
    ensures g.Number? ==> g.n.Finite? && g == f
    ensures f.Number? && f.n.Finite? ==> g == f
    ensures f.Number? && f.n.NonFinite? ==> g == Object(None)
    ensures !f.Number? ==> g == f
  {
    if f.Number? && f.n.NonFinite? then Object(None) else f
  }

  datatype LocationHop = LocationHop(handling: LocationHandling, users: seq<User>)

  /** One update-location event from the client to the users: the payload
      crosses socket.io, the handler's guard runs on what arrives, and a
      forwarded post meets `gate`. When the gate lets it through, the route
      runs and the fix is broadcast exactly when the route answered 200 (axios
      rejects any other status); otherwise no user is written and `redirectOk`
      says whether the page the post was redirected to answered with success. */
  function RelayLocation(users: seq<User>, userId: Option<Id>, latitude: JsField, longitude: JsField,
                         gate: Access.ProxyOutcome, redirectOk: bool): (h: LocationHop)
    ensures h.handling.post.Some? <==> Forwarded(OverJson(latitude), OverJson(longitude))
    ensures h.handling.post.Some? ==> latitude.Number? && latitude.n.Finite? && longitude.Number? && longitude.n.Finite?
    ensures h.handling.post.None? ==> h.handling.emitted.None? && h.users == users
    ensures h.handling.post.Some? && gate != Access.Next ==>
      h.users == users && (h.handling.emitted.Some? <==> redirectOk)
    ensures h.handling.post.Some? && gate == Access.Next ==>
      var routed := Presence.UpdateLocation(users, userId, Some(PointOf(latitude.n, longitude.n)));
      h.users == routed.users && (h.handling.emitted.Some? <==> routed.response.status == 200)
  {
    var lat := OverJson(latitude);
    var lng := OverJson(longitude);
    if !Forwarded(lat, lng) then LocationHop(UpdateLocationHandler(userId, lat, lng, false), users)
    else if gate == Access.Next then
      var routed := Presence.UpdateLocation(users, userId, Some(PointOf(lat.n, lng.n)));
      LocationHop(UpdateLocationHandler(userId, lat, lng, routed.response.status == 200), routed.users)
    else LocationHop(UpdateLocationHandler(userId, lat, lng, redirectOk), users)
  }

  /** A NaN or infinite coordinate never leaves the relay: it arrives as null,
      the typeof guard drops the event, and nothing is posted, stored or
      broadcast. */
  lemma NonFiniteDropped(users: seq<User>, userId: Option<Id>, latitude: JsField, longitude: JsField,
                         gate: Access.ProxyOutcome, redirectOk: bool)
    requires (latitude.Number? && latitude.n.NonFinite?) || (longitude.Number? && longitude.n.NonFinite?)
    ensures var h := RelayLocation(users, userId, latitude, longitude, gate, redirectOk);
      h.handling.post.None? && h.handling.emitted.None? && h.users == users
  {
  }

  /** The relay posts without a session cookie, and the proxy's matcher
      selects both of its routes, so the proxy redirects both posts to the
      login page. */
  lemma RelayPostsRedirected(url: string, lookup: Access.RoleLookup)
    ensures Access.Gate(ConnectPath, url, None, lookup) == Access.RedirectToLogin(url)
    ensures Access.Gate(UpdateLocationPath, url, None, lookup) == Access.RedirectToLogin(url)
  {
    RelayPathGated(ConnectPath);
    RelayPathGated(UpdateLocationPath);
  }

  /** A path under /api/socket/ is selected by the matcher and is not public. */
  lemma RelayPathGated(path: string)
    requires StartsWith(path, "/api/socket/")
    ensures Access.Matched(path) && !Access.IsPublic(path)
  {
    assert path[1] == 'a' && path[5] == 's';
    Access.DiffersAt(path, "/api/user/stripe/webhook", 5);
    Access.DiffersAt(path, "/_next/static", 1);
    Access.DiffersAt(path, "/_next/image", 1);
    Access.DiffersAt(path, "/favicon.ico", 1);
    Access.DiffersAt(path, "/login", 1);
    Access.DiffersAt(path, "/register", 1);
    Access.DiffersAt(path, "/api/auth", 5);
  }

  /** The relay's post to the connect route: the route runs on the users when
      the gate lets the post through, and nothing is written otherwise. */
  function RelayConnect(users: seq<User>, b: Presence.ConnectBody, gate: Access.ProxyOutcome): (r: seq<User>)
    ensures gate != Access.Next ==> r == users
    ensures gate == Access.Next ==> r == Presence.Connect(users, b).users
    ensures |r| == |users|
  {
    if gate == Access.Next then Presence.Connect(users, b).users else users
  }

  /** As written, no relay post writes a user: an identity, a disconnect or a
      forwarded fix leaves every user as it was, whatever the login page
      answers. */
  lemma RelayWritesNothing(users: seq<User>, b: Presence.ConnectBody, userId: Option<Id>,
                           latitude: JsField, longitude: JsField, url: string, lookup: Access.RoleLookup, redirectOk: bool)
    ensures RelayConnect(users, b, Access.Gate(ConnectPath, url, None, lookup)) == users
    ensures RelayLocation(users, userId, latitude, longitude, Access.Gate(UpdateLocationPath, url, None, lookup), redirectOk).users == users
  {
    RelayPostsRedirected(url, lookup);
  }

  /** With the relay's routes let through, a fix that leaves the relay is
      stored and broadcast exactly when its user exists and the index accepts
      the point, and is then the user's only change. */
  lemma ForwardedFixStoredIffValid(users: seq<User>, userId: Option<Id>, latitude: JsField, longitude: JsField,
                                   url: string, lookup: Access.RoleLookup, redirectOk: bool)
    requires Forwarded(OverJson(latitude), OverJson(longitude))
    ensures var h := RelayLocation(users, userId, latitude, longitude, Access.GateCorrected(UpdateLocationPath, url, None, lookup), redirectOk);
      var point := PointOf(latitude.n, longitude.n);
      && (h.handling.emitted.Some? <==>
            Truthy(userId) && (exists i :: 0 <= i < |users| && users[i].id == userId.value) && Presence.SphereIndexable(point))
      && (h.handling.emitted.None? ==> h.users == users)
      && (h.handling.emitted.Some? ==>
            var i := FindFirst(users, UserHasId(userId.value)).value;
            h.users == users[i := users[i].(location := point)])
  {
    assert StartsWith(UpdateLocationPath, "/api/socket/");
    var point := PointOf(latitude.n, longitude.n);
    assert Presence.ValidFix(Presence.Longitude(point), Presence.Latitude(point));
    var routed := Presence.UpdateLocation(users, userId, Some(point));
    if routed.response.status == 200 {
      var i := FindFirst(users, UserHasId(userId.value)).value;
      assert routed.users == users[i := users[i].(location := point)];
    }
  }

  // ---------------------------------------------------------------------------
  // POST /notify

  datatype Delivery = ToSocket(socketId: string) | ToAll

  /** /notify: a truthy socketId targets that socket, anything else (absent, null
      or "") broadcasts to every connected socket; the answer is always 200. */
  function Notify(socketId: Option<string>): (r: (int, Delivery))
    ensures r.0 == 200
    ensures r.1.ToSocket? <==> Truthy(socketId)
    ensures r.1.ToSocket? ==> r.1.socketId == socketId.value
  {
    if Truthy(socketId) then (200, ToSocket(socketId.value)) else (200, ToAll)
  }

  // ---------------------------------------------------------------------------
  // A connection

  /** One socket connection: its id and the user id it announced (socket.data.userId). */
  class Connection {
    const socketId: string
    var userId: Option<Id>

    constructor (socketId: string)
      requires socketId != ""
      ensures this.socketId == socketId && userId.None?
    {
      this.socketId := socketId;
      userId := None;
    }

    /** "identity": records the user id and reports this socket as the user's, online. */
    method Identity(user: Option<Id>) returns (post: Presence.ConnectBody)
      modifies this
      ensures userId == user
      ensures post == IdentityPost(socketId, user)
    {
      userId := user;
      post := Presence.ConnectBody(user, Some(Some(socketId)), Some(true));
    }

    /** "disconnect": nothing without a recorded user id, otherwise reports the
        user offline with no socket. */
    method Disconnect() returns (post: Option<Presence.ConnectBody>)
      ensures post.Some? <==> Truthy(userId)
      ensures post.Some? ==> post.value == DisconnectPost(userId)
    {
      if !Truthy(userId) {
        return None;
      }
      post := Some(Presence.ConnectBody(userId, Some(None), Some(false)));
    }
  }

  /** With the relay's routes let through, an identity followed by a
      disconnect leaves the user offline with no socket, every other field of
      the user and every other user unchanged, and both posts succeed. */
  lemma {:induction false} IdentityThenDisconnect(users: seq<User>, socketId: string, userId: Id,
                                                  url: string, lookup: Access.RoleLookup)
    requires userId != "" && socketId != ""
    requires exists i :: 0 <= i < |users| && users[i].id == userId
    ensures var gate := Access.GateCorrected(ConnectPath, url, None, lookup);
      var online := RelayConnect(users, IdentityPost(socketId, Some(userId)), gate);
      var offline := RelayConnect(online, DisconnectPost(Some(userId)), gate);
      var i := FindFirst(users, UserHasId(userId)).value;
      && Presence.Connect(users, IdentityPost(socketId, Some(userId))).response.status == 200
      && Presence.Connect(online, DisconnectPost(Some(userId))).response.status == 200
      && online[i].socketId == Some(socketId) && online[i].isOnline
      && |offline| == |users|
      && offline[i] == users[i].(socketId := None, isOnline := false)
      && (forall j :: 0 <= j < |users| && j != i ==> offline[j] == users[j])
  {
    assert StartsWith(ConnectPath, "/api/socket/");
    var online := Presence.Connect(users, IdentityPost(socketId, Some(userId)));
    var i := FindFirst(users, UserHasId(userId)).value;
    assert online.users[i].id == userId;
    assert forall j :: 0 <= j < i ==> online.users[j] == users[j];
    assert FindFirst(online.users, UserHasId(userId)) == Some(i);
  }
}
