/** Location and presence ingestion on the web application's side: the two
    internal routes the realtime relay posts to, POST /api/socket/updatelocation
    and POST /api/socket/connect, each writing one user document. */
module Presence {
  import opened Common
  import opened Models

  // ---------------------------------------------------------------------------
  // Coordinates

  /** Number(coords?.[i]): the i-th coordinate, or a non-finite value (NaN)
      when the list is too short. */
  function Coord(coords: seq<Num>, i: nat): (n: Num)
    ensures i < |coords| ==> n == coords[i]
    ensures i >= |coords| ==> n == NonFinite
  {
    if i < |coords| then coords[i] else NonFinite
  }

  /** The coordinate guard: both values finite and not both zero, since (0, 0)
      is the "no fix" value. */
  predicate ValidFix(lng: Num, lat: Num) {
    lng.Finite? && lat.Finite? && !(lat.value == 0.0 && lng.value == 0.0)
  }

  /** GeoJSON order: the first coordinate is the longitude, the second the latitude. */
  function Longitude(p: GeoPoint): Num { Coord(p.coordinates, 0) }

  function Latitude(p: GeoPoint): Num { Coord(p.coordinates, 1) }

  /** The schema's default location is exactly a point the guard refuses, so a
      user who never reported a fix cannot be mistaken for one at (0, 0) by
      these routes. A single zero coordinate, on the equator or the prime
      meridian, is accepted. */
  lemma DefaultLocationIsNoFix(x: real)
    requires x != 0.0
    ensures !ValidFix(Longitude(DefaultLocation), Latitude(DefaultLocation))
    ensures ValidFix(Finite(x), Finite(0.0)) && ValidFix(Finite(0.0), Finite(x))
  {
  }

  /** The 2dsphere index on a user's location: MongoDB refuses to write a
      GeoJSON point unless its type is "Point", its longitude lies in
      [-180, 180] and its latitude in [-90, 90]. */
  predicate SphereIndexable(p: GeoPoint) {
    && p.kind == "Point"
    && Longitude(p).Finite? && Latitude(p).Finite?
    && -180.0 <= Longitude(p).value <= 180.0
    && -90.0 <= Latitude(p).value <= 90.0
  }

  // ---------------------------------------------------------------------------
  // POST /api/socket/updatelocation

  datatype LocationResult = LocationResult(response: Response, users: seq<User>, echoed: Option<GeoPoint>)

  /** The route: body {userId, location}; the location is stored as submitted
      on the user with that id and echoed back. The write fails, and the route
      answers 500, when the user exists but the index refuses the point. */
  function UpdateLocation(users: seq<User>, userId: Option<Id>, location: Option<GeoPoint>): (r: LocationResult)
    ensures r.response.status in {200, 400, 500}
    ensures r.response.status == 200 <==>
      Truthy(userId) && location.Some? && ValidFix(Longitude(location.value), Latitude(location.value)) &&
      (exists i :: 0 <= i < |users| && users[i].id == userId.value) && SphereIndexable(location.value)
    ensures r.response.status == 500 <==>
      Truthy(userId) && location.Some? && ValidFix(Longitude(location.value), Latitude(location.value)) &&
      (exists i :: 0 <= i < |users| && users[i].id == userId.value) && !SphereIndexable(location.value)
    ensures r.response.status != 200 ==> r.users == users && r.echoed.None?
    ensures r.response.status == 200 ==>
      var i := FindFirst(users, UserHasId(userId.value)).value;
      && |r.users| == |users|
      && r.users[i] == users[i].(location := location.value)
      && (forall j :: 0 <= j < |users| && j != i ==> r.users[j] == users[j])
      && r.echoed == Some(location.value)
  {
    if !Truthy(userId) || location.None? then LocationResult(Response(400, "missing user id"), users, None)
    else if !ValidFix(Longitude(location.value), Latitude(location.value)) then
      LocationResult(Response(400, "invalid coordinates"), users, None)
    else
      match FindFirst(users, UserHasId(userId.value))
      case None => LocationResult(Response(400, "user not found"), users, None)
      case Some(i) =>
        if !SphereIndexable(location.value) then LocationResult(Response(500, "update location error"), users, None)
        else LocationResult(Response(200, "location updated"), users[i := users[i].(location := location.value)], Some(location.value))
  }

  // ---------------------------------------------------------------------------
  // POST /api/socket/connect

  /** The body {userId, socketId, isOnline}. socketId is None when the key is
      absent (undefined), Some(None) when it is null; isOnline is None unless it
      is a boolean. */
  datatype ConnectBody = ConnectBody(userId: Option<Id>, socketId: Option<Option<string>>, isOnline: Option<bool>)

  /** The partial update: a field is present when the route copies it. */
  datatype UserUpdate = UserUpdate(socketId: Option<Option<string>>, isOnline: Option<bool>)

  predicate IsEmpty(u: UserUpdate) {
    u.socketId.None? && u.isOnline.None?
  }

  /** Applying a partial update writes the present fields and nothing else. */
  function ApplyUpdate(u: User, upd: UserUpdate): (r: User)
    ensures r.socketId == (if upd.socketId.Some? then upd.socketId.value else u.socketId)
    ensures r.isOnline == (if upd.isOnline.Some? then upd.isOnline.value else u.isOnline)
    ensures r.(socketId := u.socketId, isOnline := u.isOnline) == u
  {
    var a := if upd.socketId.Some? then u.(socketId := upd.socketId.value) else u;
    if upd.isOnline.Some? then a.(isOnline := upd.isOnline.value) else a
  }

  datatype ConnectResult = ConnectResult(response: Response, users: seq<User>)

  /** The route: copies socketId whenever it is not undefined (so null clears
      it) and isOnline when it is a boolean, refuses an empty update, and
      applies it to the user with that id. */
  function Connect(users: seq<User>, b: ConnectBody): (r: ConnectResult)
    ensures r.response.status in {200, 400}
    ensures r.response.status == 200 <==>
      Truthy(b.userId) && (b.socketId.Some? || b.isOnline.Some?) &&
      exists i :: 0 <= i < |users| && users[i].id == b.userId.value
    ensures r.response.status != 200 ==> r.users == users
    ensures r.response.status == 200 ==>
      var i := FindFirst(users, UserHasId(b.userId.value)).value;
      && |r.users| == |users|
      && r.users[i] == ApplyUpdate(users[i], UserUpdate(b.socketId, b.isOnline))
      && (forall j :: 0 <= j < |users| && j != i ==> r.users[j] == users[j])
  {
    if !Truthy(b.userId) then ConnectResult(Response(400, "missing user id"), users)
    else
      var update := UserUpdate(b.socketId, b.isOnline);
      if IsEmpty(update) then ConnectResult(Response(400, "missing update fields"), users)
      else
        match FindFirst(users, UserHasId(b.userId.value))
        case None => ConnectResult(Response(400, "user not found"), users)
        case Some(i) => ConnectResult(Response(200, "success"), users[i := ApplyUpdate(users[i], update)])
  }

  /** Both routes keep the user ids and emails, so email uniqueness survives them. */
  lemma {:induction false} PresenceKeepsIdentity(users: seq<User>, userId: Option<Id>, location: Option<GeoPoint>, b: ConnectBody)
    requires EmailsUnique(users)
    ensures var r := UpdateLocation(users, userId, location).users;
      |r| == |users| && (forall j :: 0 <= j < |r| ==> r[j].id == users[j].id && r[j].email == users[j].email) && EmailsUnique(r)
    ensures var r := Connect(users, b).users;
      |r| == |users| && (forall j :: 0 <= j < |r| ==> r[j].id == users[j].id && r[j].email == users[j].email) && EmailsUnique(r)
  {
    var r1 := UpdateLocation(users, userId, location);
    var r2 := Connect(users, b);
    if r2.response.status == 200 {
      var i := FindFirst(users, UserHasId(b.userId.value)).value;
      assert r2.users[i].email == users[i].email;
    }
  }

  /** The users, updated in place by the two routes. */
  class UserDirectory {
    var users: seq<User>

    constructor (users0: seq<User>)
      ensures users == users0
    {
      users := users0;
    }

    method UpdateLocationRoute(userId: Option<Id>, location: Option<GeoPoint>) returns (response: Response, echoed: Option<GeoPoint>)
      modifies this
      ensures LocationResult(response, users, echoed) == UpdateLocation(old(users), userId, location)
    {
      if !Truthy(userId) || location.None? {
        return Response(400, "missing user id"), None;
      }
      var lng := Coord(location.value.coordinates, 0);
      var lat := Coord(location.value.coordinates, 1);
      if !lat.Finite? || !lng.Finite? || (lat.value == 0.0 && lng.value == 0.0) {
        return Response(400, "invalid coordinates"), None;
      }
      var i := Find(users, UserHasId(userId.value));
      if i.None? {
        return Response(400, "user not found"), None;
      }
      if !SphereIndexable(location.value) {
        return Response(500, "update location error"), None;
      }
      users := users[i.value := users[i.value].(location := location.value)];
      response, echoed := Response(200, "location updated"), Some(location.value);
    }

    method ConnectRoute(b: ConnectBody) returns (response: Response)
      modifies this
      ensures ConnectResult(response, users) == Connect(old(users), b)
    {
      if !Truthy(b.userId) {
        return Response(400, "missing user id");
      }
      var update := UserUpdate(None, None);
      if b.socketId.Some? {
        update := update.(socketId := b.socketId);
      }
      if b.isOnline.Some? {
        update := update.(isOnline := b.isOnline);
      }
      if IsEmpty(update) {
        return Response(400, "missing update fields");
      }
      var i := Find(users, UserHasId(b.userId.value));
      if i.None? {
        return Response(400, "user not found");
      }
      users := users[i.value := ApplyUpdate(users[i.value], update)];
      response := Response(200, "success");
    }
  }
}
