/** Access gating: the request proxy in front of every page, the home page's
    profile check and dashboard choice, and account registration. */
module Access {
  import opened Common
  import opened Models

  // ---------------------------------------------------------------------------
  // The proxy

  const PublicPrefixes: seq<string> := ["/login", "/register", "/api/auth"]

  /** publicRoutes.some(startsWith): a path under one of the three public
      prefixes (by plain string prefix, so "/loginx" is public too). No path
      of the three protected areas is public. */
  predicate IsPublic(path: string): (ok: bool)
    ensures ok <==> StartsWith(path, "/login") || StartsWith(path, "/register") || StartsWith(path, "/api/auth")
    ensures StartsWith(path, "/user") || StartsWith(path, "/delivery") || StartsWith(path, "/admin") ==> !ok
  {
    PublicPrefixesSpelled(path);
    exists i :: 0 <= i < |PublicPrefixes| && StartsWith(path, PublicPrefixes[i])
  }

  lemma PublicPrefixesSpelled(path: string)
    ensures (exists i :: 0 <= i < |PublicPrefixes| && StartsWith(path, PublicPrefixes[i])) <==>
      StartsWith(path, "/login") || StartsWith(path, "/register") || StartsWith(path, "/api/auth")
    ensures StartsWith(path, "/user") || StartsWith(path, "/delivery") || StartsWith(path, "/admin") ==>
      !StartsWith(path, "/login") && !StartsWith(path, "/register") && !StartsWith(path, "/api/auth")
  {
    assert PublicPrefixes[0] == "/login" && PublicPrefixes[1] == "/register" && PublicPrefixes[2] == "/api/auth";
    if StartsWith(path, "/user") || StartsWith(path, "/delivery") || StartsWith(path, "/admin") {
      assert path[1] in "uda";
      assert path[1] == 'a' ==> path[2] == 'd';
    }
  }

  /** The database lookup of the token's email: it threw, found no user, or
      found a user whose role field (possibly empty) is given. */
  datatype RoleLookup = LookupFailed | NoUser | UserRole(role: Option<string>)

  /** The session token, when there is one: its role and email claims. */
  datatype Token = Token(role: Option<string>, email: Option<string>)

  datatype ProxyOutcome = Next | RedirectToLogin(callbackUrl: string) | RedirectToUnauthorized

  /** The role the gate checks: the token's, replaced by the stored user's role
      when the token has an email and the lookup found a truthy role; a failed
      lookup keeps the token's role. */
  function EffectiveRole(token: Token, lookup: RoleLookup): (role: Option<string>)
    ensures Truthy(token.email) && lookup.UserRole? && Truthy(lookup.role) ==> role == lookup.role
    ensures !(Truthy(token.email) && lookup.UserRole? && Truthy(lookup.role)) ==> role == token.role
  {
    if Truthy(token.email) && lookup.UserRole? && Truthy(lookup.role) then lookup.role else token.role
  }

  /** The gate for one prefix: a path starting with it needs exactly that role. */
  predicate Denied(path: string, role: Option<string>) {
    (StartsWith(path, "/user") && role != Some("user")) ||
    (StartsWith(path, "/delivery") && role != Some("deliveryBoy")) ||
    (StartsWith(path, "/admin") && role != Some("admin"))
  }

  /** proxy(req): public paths pass, a request without a token goes to the login
      page with the request URL as callback, and the three areas need their role. */
  function Proxy(path: string, url: string, token: Option<Token>, lookup: RoleLookup): (r: ProxyOutcome)
    ensures IsPublic(path) ==> r == Next
    ensures !IsPublic(path) && token.None? ==> r == RedirectToLogin(url)
    ensures r == Next <==> IsPublic(path) || (token.Some? && !Denied(path, EffectiveRole(token.value, lookup)))
    ensures r == Next && !IsPublic(path) ==>
      var role := EffectiveRole(token.value, lookup);
      && (StartsWith(path, "/user") ==> role == Some("user"))
      && (StartsWith(path, "/delivery") ==> role == Some("deliveryBoy"))
      && (StartsWith(path, "/admin") ==> role == Some("admin"))
  {
    if exists i :: 0 <= i < |PublicPrefixes| && StartsWith(path, PublicPrefixes[i]) then Next
    else if token.None? then RedirectToLogin(url)
    else
      var role := EffectiveRole(token.value, lookup);
      if StartsWith(path, "/user") && role != Some("user") then RedirectToUnauthorized
      else if StartsWith(path, "/delivery") && role != Some("deliveryBoy") then RedirectToUnauthorized
      else if StartsWith(path, "/admin") && role != Some("admin") then RedirectToUnauthorized
      else Next
  }

  /** The proxy's matcher: every path except the Stripe webhook, Next.js's
      static files and the favicon. */
  predicate Matched(path: string) {
    && !StartsWith(path, "/api/user/stripe/webhook")
    && !StartsWith(path, "/_next/static")
    && !StartsWith(path, "/_next/image")
    && !StartsWith(path, "/favicon.ico")
  }

  /** What a request meets before its page or route: the proxy when the
      matcher selects the path, nothing otherwise. */
  function Gate(path: string, url: string, token: Option<Token>, lookup: RoleLookup): (r: ProxyOutcome)
    ensures r == Next <==>
      !Matched(path) || IsPublic(path) || (token.Some? && !Denied(path, EffectiveRole(token.value, lookup)))
    ensures Matched(path) && !IsPublic(path) && token.None? ==> r == RedirectToLogin(url)
  {
    if Matched(path) then Proxy(path, url, token, lookup) else Next
  }

  /** The Stripe webhook, called by Stripe without a session, is not gated. */
  lemma WebhookUngated(url: string, lookup: RoleLookup)
    ensures Gate("/api/user/stripe/webhook", url, None, lookup) == Next
  {
  }

  /** The gate with the realtime relay's routes under /api/socket/ left out of
      the matcher, as the webhook is, since the relay calls them without a
      session; every other path is gated as before. */
  function GateCorrected(path: string, url: string, token: Option<Token>, lookup: RoleLookup): (r: ProxyOutcome)
    ensures StartsWith(path, "/api/socket/") ==> r == Next
    ensures !StartsWith(path, "/api/socket/") ==> r == Gate(path, url, token, lookup)
  {
    if StartsWith(path, "/api/socket/") then Next else Gate(path, url, token, lookup)
  }

  /** Matching is by string prefix, not by path segment: "/users" is gated like
      "/user", "/administrator" like "/admin", and "/login-help" and
      "/api/authority" need no token at all. */
  lemma PrefixNotSegment(url: string, lookup: RoleLookup)
    ensures Proxy("/users", url, Some(Token(Some("admin"), None)), lookup) == RedirectToUnauthorized
    ensures Proxy("/administrator", url, Some(Token(Some("user"), None)), lookup) == RedirectToUnauthorized
    ensures Proxy("/login-help", url, None, lookup) == Next
    ensures Proxy("/api/authority", url, None, lookup) == Next
  {
    assert StartsWith("/login-help", PublicPrefixes[0]);
    assert StartsWith("/api/authority", PublicPrefixes[2]);
    DiffersAt("/users", "/login", 1);
    DiffersAt("/users", "/register", 1);
    DiffersAt("/users", "/api/auth", 1);
    DiffersAt("/administrator", "/login", 1);
    DiffersAt("/administrator", "/register", 1);
    DiffersAt("/administrator", "/api/auth", 2);
  }

  /** A path that differs from a prefix at some position does not start with it. */
  lemma DiffersAt(path: string, prefix: string, k: nat)
    requires k < |prefix| && k < |path| && path[k] != prefix[k]
    ensures !StartsWith(path, prefix)
  {
    if |prefix| <= |path| {
      assert path[..|prefix|][k] == path[k];
    }
  }

  /** A stale token role does not decide: when the stored role differs, the
      stored one is checked, and only a failed lookup falls back to the token. */
  lemma StoredRoleWins(url: string, email: string)
    requires email != ""
    ensures Proxy("/admin", url, Some(Token(Some("admin"), Some(email))), UserRole(Some("user"))) == RedirectToUnauthorized
    ensures Proxy("/admin", url, Some(Token(Some("admin"), Some(email))), LookupFailed) == Next
    ensures Proxy("/admin", url, Some(Token(Some("admin"), Some(email))), UserRole(Some(""))) == Next
  {
    DiffersAt("/admin", "/login", 1);
    DiffersAt("/admin", "/register", 1);
    DiffersAt("/admin", "/api/auth", 2);
    DiffersAt("/admin", "/user", 1);
    DiffersAt("/admin", "/delivery", 1);
  }

  // ---------------------------------------------------------------------------
  // The home page

  /** The fields of the user document the home page looks at. */
  datatype ProfileDoc = ProfileDoc(mobile: Option<string>, role: Option<string>)

  datatype HomeView = RedirectLogin | EditRoleMobile | UserDashboard(search: string) | AdminDashboard | DeliveryDashboard

  /** !mobile || !role || (!mobile && role == "user"). */
  predicate Incomplete(doc: ProfileDoc) {
    !Truthy(doc.mobile) || !Truthy(doc.role) || (!Truthy(doc.mobile) && doc.role == Some("user"))
  }

  /** The third disjunct adds nothing: a profile is incomplete exactly when the
      mobile number or the role is missing. */
  lemma IncompleteMeansMissingField(doc: ProfileDoc)
    ensures Incomplete(doc) <==> !Truthy(doc.mobile) || !Truthy(doc.role)
  {
  }

  /** The home page: no user document sends to the login page, an incomplete
      profile gets the role and mobile form, and otherwise "user" sees the
      customer dashboard with the search term (default ""), "admin" the admin
      dashboard, and any other role the delivery dashboard. */
  function Home(doc: Option<ProfileDoc>, q: Option<string>): (v: HomeView)
    ensures doc.None? <==> v == RedirectLogin
    ensures doc.Some? ==> (v == EditRoleMobile <==> !Truthy(doc.value.mobile) || !Truthy(doc.value.role))
    ensures v.UserDashboard? <==> doc.Some? && Truthy(doc.value.mobile) && doc.value.role == Some("user")
    ensures v.UserDashboard? ==> v.search == (if q.Some? then q.value else "")
    ensures v == AdminDashboard <==> doc.Some? && Truthy(doc.value.mobile) && doc.value.role == Some("admin")
    ensures v == DeliveryDashboard <==>
      doc.Some? && Truthy(doc.value.mobile) && Truthy(doc.value.role) && doc.value.role !in {Some("user"), Some("admin")}
  {
    if doc.None? then RedirectLogin
    else if Incomplete(doc.value) then EditRoleMobile
    else
      var search := if q.Some? then q.value else "";
      if doc.value.role == Some("user") then UserDashboard(search)
      else if doc.value.role == Some("admin") then AdminDashboard
      else DeliveryDashboard
  }

  // ---------------------------------------------------------------------------
  // Registration

  /** The JSON body of POST /api/auth/register; an absent field is None. */
  datatype RegisterBody = RegisterBody(name: Option<string>, email: Option<string>, password: Option<string>)

  datatype RegisterResult = RegisterResult(status: int, users: seq<User>, created: Option<User>)

  const MinPasswordLength: nat := 7

  function EmailIs(email: string): User -> bool {
    (u: User) => u.email == email
  }

  /** findOne({email}): with no email the filter is empty (Mongoose drops an
      undefined key) and any user matches. */
  predicate EmailTaken(users: seq<User>, email: Option<string>) {
    if email.None? then users != [] else FindFirst(users, EmailIs(email.value)).Some?
  }

  /** The route: an existing email is refused first; a missing password makes
      `password.length` throw (500); a password shorter than seven characters is
      refused; a missing or empty name or email fails the schema's required
      check (500); otherwise the user is created with only the bcrypt hash of
      the password and the schema defaults. */
  function Register(users: seq<User>, b: RegisterBody, newId: Id): (r: RegisterResult)
    ensures r.status in {201, 400, 500}
    ensures EmailTaken(users, b.email) ==> r.status == 400
    ensures !EmailTaken(users, b.email) && b.password.Some? ==>
      (r.status == 400 <==> |b.password.value| < MinPasswordLength)
    ensures !EmailTaken(users, b.email) && b.password.None? ==> r.status == 500
    ensures !EmailTaken(users, b.email) && b.password.Some? && |b.password.value| >= MinPasswordLength ==>
      (r.status == 201 <==> Truthy(b.name) && Truthy(b.email))
    ensures r.status != 201 ==> r.users == users && r.created.None?
    ensures r.status == 201 ==>
      && Truthy(b.name) && Truthy(b.email) && b.password.Some?
      && r.created.Some? && r.users == users + [r.created.value]
      && r.created.value.id == newId
      && r.created.value.email == b.email.value && r.created.value.name == b.name.value
      && r.created.value.password == Some(Bcrypt(b.password.value))
      && |b.password.value| >= MinPasswordLength
      && r.created.value.role == Customer && !r.created.value.isOnline
      && r.created.value.location == DefaultLocation
      && forall i :: 0 <= i < |users| ==> users[i].email != b.email.value
  {
    if EmailTaken(users, b.email) then RegisterResult(400, users, None)
    else if b.password.None? then RegisterResult(500, users, None)
    else if |b.password.value| < MinPasswordLength then RegisterResult(400, users, None)
    else if !Truthy(b.name) || !Truthy(b.email) then RegisterResult(500, users, None)
    else
      var u := NewUser(newId, b.name.value, b.email.value, Some(Bcrypt(b.password.value)));
      RegisterResult(201, users + [u], Some(u))
  }

  /** Registration keeps emails unique. */
  lemma RegisterKeepsEmailsUnique(users: seq<User>, b: RegisterBody, newId: Id)
    requires EmailsUnique(users)
    ensures EmailsUnique(Register(users, b, newId).users)
  {
    var r := Register(users, b, newId);
    if r.status == 201 {
      forall i, j | 0 <= i < j < |r.users| ensures r.users[i].email != r.users[j].email {
        if j == |users| {
          assert r.users[i] == users[i];
        }
      }
    }
  }

  /** The length rule at its boundary: seven characters are enough, six are not. */
  lemma PasswordBoundary(name: string, email: string, newId: Id)
    requires name != "" && email != ""
    ensures Register([], RegisterBody(Some(name), Some(email), Some("1234567")), newId).status == 201
    ensures Register([], RegisterBody(Some(name), Some(email), Some("123456")), newId).status == 400
  {
  }
}
