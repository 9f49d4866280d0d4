/**
 * Sign-up, login, logout and token refresh (backend/src/controllers/auth.controller.js)
 * over the user table and the refresh-token session table.
 *
 * bcrypt, JWT signing and SHA-256 are uninterpreted functions passed in a
 * `Crypto` value; the clock (`Date.now()`) and the random refresh token are
 * parameters. Cookies are recorded as the list of cookie operations the
 * handler performs on the response, in order, whether it then answers or throws.
 */
module Auth {
  import opened Common
  import opened Store

  datatype Crypto = Crypto(
    hash: string -> string,              // bcrypt.hash(password, 12)
    compare: (string, string) -> bool,   // bcrypt.compare(plain, hashed)
    sha256: string -> string,            // hex SHA-256 digest
    sign: UserId -> string)              // jwt.sign({userId}, secret, {expiresIn: '30m'})

  /** Thirty minutes, in milliseconds: the access-token cookie's lifetime. */
  const AccessTokenMaxAge: int := 30 * 60 * 1000
  /** Thirty days, in milliseconds: the refresh-token cookie's and the session's lifetime. */
  const RefreshTokenMaxAge: int := 30 * 24 * 60 * 60 * 1000

  datatype CookieOp = SetCookie(name: string, value: string, maxAge: int) | ClearCookie(name: string)

  /** A successful response: its status and message. */
  datatype Reply = Reply(status: int, message: string)

  /** The cookie operations performed, then the response or the thrown error. */
  datatype Outcome = Outcome(cookies: seq<CookieOp>, result: Result<Reply>)

  datatype SignupBody = SignupBody(name: Option<string>, email: Option<string>, password: Option<string>)
  datatype LoginBody = LoginBody(email: Option<string>, password: Option<string>)

  const ClearBoth: seq<CookieOp> := [ClearCookie("accessToken"), ClearCookie("refreshToken")]

  // ---------------------------------------------------------------------------
  // Lookups

  /** `Session.findOne({token})`: the first session with that digest. */
  function FindSession(sessions: seq<Session>, digest: string): (r: Option<nat>)
    ensures r.Some? ==> r.value < |sessions| && sessions[r.value].token == digest
    ensures r.Some? ==> forall i :: 0 <= i < r.value ==> sessions[i].token != digest
    ensures r.None? ==> forall i :: 0 <= i < |sessions| ==> sessions[i].token != digest
  {
    if sessions == [] then None
    else if sessions[0].token == digest then Some(0)
    else match FindSession(sessions[1..], digest)
      case Some(k) => Some(k + 1)
      case None => None
  }

  /** `Session.deleteOne({token})`: removes the first session with that digest, if any. */
  function DeleteSession(sessions: seq<Session>, digest: string): (r: seq<Session>) {
    match FindSession(sessions, digest)
    case Some(k) => sessions[..k] + sessions[k + 1..]
    case None => sessions
  }

  // ---------------------------------------------------------------------------
  // signup

  /** One entry per missing field, under the field's name. */
  function SignupErrors(b: SignupBody): (r: map<string, string>) {
    var e0: map<string, string> := map[];
    var e1 := if !Present(b.name) then e0["name" := "Name is required!"] else e0;
    var e2 := if !Present(b.email) then e1["email" := "Email is required!"] else e1;
    if !Present(b.password) then e2["password" := "Password is required!"] else e2
  }

  /** The outcome of `signup` and the user table after it. */
  function SignupSpec(users: map<UserId, User>, b: SignupBody, c: Crypto, newId: UserId): (r: (Outcome, map<UserId, User>)) {
    var errors := SignupErrors(b);
    if |errors| > 0 then (Outcome([], Err(ApiError(400, "Invalid input!", Some(errors)))), users)
    else if EmailTaken(users, b.email.value) then (Outcome([], Fail(409, "Email already registered!")), users)
    else if Utf16Length(b.password.value) < 6 then (Outcome([], Fail(400, "Password must be at least 6 characters long")), users)
    else
      (Outcome([], Ok(Reply(201, "User registered successfully!"))),
       users[newId := User(b.name.value, b.email.value, c.hash(b.password.value), UserRole)])
  }

  method Signup(db: Database, b: SignupBody, c: Crypto, newId: UserId) returns (out: Outcome)
    requires newId !in db.users
    modifies db`users
    ensures (out, db.users) == SignupSpec(old(db.users), b, c, newId)
    ensures old(db.Valid()) ==> db.Valid()
  {
    if db.Valid() {
      SignupKeepsConsistent(db.users, db.shops, db.products, db.orders, b, c, newId);
    }
    var errors: map<string, string> := map[];
    if !Present(b.name) { errors := errors["name" := "Name is required!"]; }
    if !Present(b.email) { errors := errors["email" := "Email is required!"]; }
    if !Present(b.password) { errors := errors["password" := "Password is required!"]; }
    if |errors| > 0 {
      return Outcome([], Err(ApiError(400, "Invalid input!", Some(errors))));
    }
    var email := b.email.value;
    if exists id :: id in db.users && db.users[id].email == email {
      return Outcome([], Fail(409, "Email already registered!"));
    }
    var password := b.password.value;
    if Utf16Length(password) < 6 {
      return Outcome([], Fail(400, "Password must be at least 6 characters long"));
    }
    var hashed := c.hash(password);
    db.users := db.users[newId := User(b.name.value, email, hashed, UserRole)];
    out := Outcome([], Ok(Reply(201, "User registered successfully!")));
  }

  // ---------------------------------------------------------------------------
  // login

  function LoginErrors(b: LoginBody): (r: map<string, string>) {
    var e0: map<string, string> := map[];
    var e1 := if !Present(b.email) then e0["email" := "Email is required!"] else e0;
    if !Present(b.password) then e1["password" := "Password is required!"] else e1
  }

  /** The outcome of `login` and the session table after it, for refresh token `rt` issued at time `now`. */
  ghost function LoginSpec(users: map<UserId, User>, sessions: seq<Session>, b: LoginBody, c: Crypto, rt: string, now: int): (r: (Outcome, seq<Session>)) {
    var errors := LoginErrors(b);
    if |errors| > 0 then (Outcome([], Err(ApiError(400, "Credentials are required!", Some(errors)))), sessions)
    else match UserWithEmail(users, b.email.value)
      case None => (Outcome([], Fail(401, "User does not exist!")), sessions)
      case Some(id) =>
        if !c.compare(b.password.value, users[id].password) then (Outcome([], Fail(401, "Invalid password!")), sessions)
        else
          (Outcome([SetCookie("accessToken", c.sign(id), AccessTokenMaxAge), SetCookie("refreshToken", rt, RefreshTokenMaxAge)],
                   Ok(Reply(200, "User login successfully!"))),
           sessions + [Session(id, c.sha256(rt), now + RefreshTokenMaxAge)])
  }

  method Login(db: Database, b: LoginBody, c: Crypto, rt: string, now: int) returns (out: Outcome)
    requires UniqueEmails(db.users)
    modifies db`sessions
    ensures (out, db.sessions) == LoginSpec(db.users, old(db.sessions), b, c, rt, now)
    ensures old(db.Valid()) ==> db.Valid()
  {
    var errors: map<string, string> := map[];
    if !Present(b.email) { errors := errors["email" := "Email is required!"]; }
    if !Present(b.password) { errors := errors["password" := "Password is required!"]; }
    assert errors == LoginErrors(b);
    if |errors| > 0 {
      return Outcome([], Err(ApiError(400, "Credentials are required!", Some(errors))));
    }
    var email := b.email.value;
    if !exists id :: id in db.users && db.users[id].email == email {
      assert UserWithEmail(db.users, email).None?;
      return Outcome([], Fail(401, "User does not exist!"));
    }
    var id :| id in db.users && db.users[id].email == email;
    ghost var found := UserWithEmail(db.users, email);
    assert found.Some? && db.users[found.value].email == email;
    assert found == Some(id);
    if !c.compare(b.password.value, db.users[id].password) {
      return Outcome([], Fail(401, "Invalid password!"));
    }
    var cookies := [SetCookie("accessToken", c.sign(id), AccessTokenMaxAge)];
    var hashed := c.sha256(rt);
    db.sessions := db.sessions + [Session(id, hashed, now + RefreshTokenMaxAge)];
    cookies := cookies + [SetCookie("refreshToken", rt, RefreshTokenMaxAge)];
    out := Outcome(cookies, Ok(Reply(200, "User login successfully!")));
    assert LoginSpec(db.users, old(db.sessions), b, c, rt, now).1 == db.sessions;
    assert LoginSpec(db.users, old(db.sessions), b, c, rt, now).0 == out;
  }

  // ---------------------------------------------------------------------------
  // logout and refresh

  /** The outcome of `logout` for the request's refresh-token cookie, and the session table after it. */
  function LogoutSpec(sessions: seq<Session>, token: Option<string>, c: Crypto): (r: (Outcome, seq<Session>)) {
    var after := if Present(token) then DeleteSession(sessions, c.sha256(token.value)) else sessions;
    (Outcome(ClearBoth, Ok(Reply(200, "User logged out successfully!"))), after)
  }

  method Logout(db: Database, token: Option<string>, c: Crypto) returns (out: Outcome)
    modifies db`sessions
    ensures (out, db.sessions) == LogoutSpec(old(db.sessions), token, c)
    ensures old(db.Valid()) ==> db.Valid()
  {
    if Present(token) {
      var hashed := c.sha256(token.value);
      db.sessions := DeleteSession(db.sessions, hashed);
    }
    out := Outcome(ClearBoth, Ok(Reply(200, "User logged out successfully!")));
  }

  /** The outcome of `refresh` at time `now`, and the session table after it. */
  function RefreshSpec(sessions: seq<Session>, token: Option<string>, c: Crypto, now: int): (r: (Outcome, seq<Session>)) {
    if !Present(token) then (Outcome([], Fail(401, "Unauthorized request!")), sessions)
    else
      var digest := c.sha256(token.value);
      match FindSession(sessions, digest)
      case None => (Outcome(ClearBoth, Fail(401, "Session expired")), DeleteSession(sessions, digest))
      case Some(k) =>
        if sessions[k].expiresAt < now then (Outcome(ClearBoth, Fail(401, "Session expired")), DeleteSession(sessions, digest))
        else (Outcome([SetCookie("accessToken", c.sign(sessions[k].userId), AccessTokenMaxAge)],
                      Ok(Reply(200, "Token created successfully!"))), sessions)
  }

  method Refresh(db: Database, token: Option<string>, c: Crypto, now: int) returns (out: Outcome)
    modifies db`sessions
    ensures (out, db.sessions) == RefreshSpec(old(db.sessions), token, c, now)
    ensures old(db.Valid()) ==> db.Valid()
  {
    if !Present(token) {
      return Outcome([], Fail(401, "Unauthorized request!"));
    }
    var hashed := c.sha256(token.value);
    var found := FindSession(db.sessions, hashed);
    if found.None? || db.sessions[found.value].expiresAt < now {
      db.sessions := DeleteSession(db.sessions, hashed);
      return Outcome(ClearBoth, Fail(401, "Session expired"));
    }
    var access := c.sign(db.sessions[found.value].userId);
    out := Outcome([SetCookie("accessToken", access, AccessTokenMaxAge)], Ok(Reply(200, "Token created successfully!")));
  }

  // ---------------------------------------------------------------------------
  // Properties

  /** The 400 lists exactly the missing fields, each under its own name. */
  lemma SignupMissingFields(users: map<UserId, User>, b: SignupBody, c: Crypto, newId: UserId)
    requires !Present(b.name) || !Present(b.email) || !Present(b.password)
    ensures var (out, after) := SignupSpec(users, b, c, newId);
      && after == users && out.cookies == []
      && out.result.Err? && out.result.error.statusCode == 400
      && out.result.error.errors.Some?
      && (forall k :: k in out.result.error.errors.value <==>
            (k == "name" && !Present(b.name)) || (k == "email" && !Present(b.email)) || (k == "password" && !Present(b.password)))
  {
    var e := SignupErrors(b);
    assert |e| > 0 by {
      if !Present(b.password) { assert "password" in e; }
      else if !Present(b.email) { assert "email" in e; }
      else { assert "name" in e; }
    }
  }

  /** A registered email is refused with 409 whatever the password's length, and nothing is added. */
  lemma SignupDuplicateEmail(users: map<UserId, User>, b: SignupBody, c: Crypto, newId: UserId)
    requires Present(b.name) && Present(b.email) && Present(b.password)
    requires EmailTaken(users, b.email.value)
    ensures SignupSpec(users, b, c, newId) == (Outcome([], Fail(409, "Email already registered!")), users)
  {
    assert SignupErrors(b) == map[];
  }

  /**
   * Signup succeeds exactly when every field is present, the email is new and
   * the password has at least 6 UTF-16 units; a refused signup adds nobody.
   */
  lemma SignupSucceedsIff(users: map<UserId, User>, b: SignupBody, c: Crypto, newId: UserId)
    ensures var (out, after) := SignupSpec(users, b, c, newId);
      && (out.result.Ok? <==>
            Present(b.name) && Present(b.email) && Present(b.password)
            && !EmailTaken(users, b.email.value) && Utf16Length(b.password.value) >= 6)
      && (out.result.Err? ==> after == users)
  {
    if Present(b.name) && Present(b.email) && Present(b.password) {
      assert SignupErrors(b) == map[];
    } else {
      SignupMissingFields(users, b, c, newId);
    }
  }

  /**
   * An accepted signup adds exactly one user, under the new id, holding the
   * password's hash (never the plaintext) and the `user` role; everyone else
   * is kept, and emails stay unique.
   */
  lemma SignupAddsUser(users: map<UserId, User>, b: SignupBody, c: Crypto, newId: UserId)
    requires newId !in users
    requires UniqueEmails(users)
    requires Present(b.name) && Present(b.email) && Present(b.password)
    requires !EmailTaken(users, b.email.value) && Utf16Length(b.password.value) >= 6
    ensures var (out, after) := SignupSpec(users, b, c, newId);
      && out == Outcome([], Ok(Reply(201, "User registered successfully!")))
      && after.Keys == users.Keys + {newId} && |after| == |users| + 1
      && after[newId] == User(b.name.value, b.email.value, c.hash(b.password.value), UserRole)
      && (forall id :: id in users ==> after[id] == users[id])
      && UniqueEmails(after)
  {
    assert SignupErrors(b) == map[];
    var u := User(b.name.value, b.email.value, c.hash(b.password.value), UserRole);
    assert SignupSpec(users, b, c, newId).1 == users[newId := u];
    InsertUser(users, newId, u);
  }

  /** Storing a user under a fresh id with an unused email keeps the emails unique. */
  lemma InsertUser(users: map<UserId, User>, newId: UserId, u: User)
    requires newId !in users && UniqueEmails(users) && !EmailTaken(users, u.email)
    ensures var after := users[newId := u];
      && after.Keys == users.Keys + {newId} && |after| == |users| + 1
      && (forall id :: id in users ==> after[id] == users[id])
      && UniqueEmails(after)
  {
    assert forall v :: v in users ==> users[v].email != u.email;
  }

  /** The 400 lists exactly the missing credentials. */
  lemma LoginMissingCredentials(users: map<UserId, User>, sessions: seq<Session>, b: LoginBody, c: Crypto, rt: string, now: int)
    requires !Present(b.email) || !Present(b.password)
    ensures var (out, after) := LoginSpec(users, sessions, b, c, rt, now);
      && after == sessions && out.cookies == []
      && out.result.Err? && out.result.error.statusCode == 400
      && out.result.error.message == "Credentials are required!"
      && out.result.error.errors.Some?
      && (forall k :: k in out.result.error.errors.value <==>
            (k == "email" && !Present(b.email)) || (k == "password" && !Present(b.password)))
  {
    var e := LoginErrors(b);
    assert |e| > 0 by {
      if !Present(b.password) { assert "password" in e; } else { assert "email" in e; }
    }
  }

  /**
   * With both credentials present: an unknown email and a wrong password are
   * 401s that store nothing; otherwise exactly one session is added, holding
   * the SHA-256 digest of the refresh token and expiring thirty days from now,
   * and both token cookies are set.
   */
  lemma LoginOutcomes(users: map<UserId, User>, sessions: seq<Session>, b: LoginBody, c: Crypto, rt: string, now: int)
    requires Present(b.email) && Present(b.password)
    requires UniqueEmails(users)
    ensures var (out, after) := LoginSpec(users, sessions, b, c, rt, now);
      && (!EmailTaken(users, b.email.value) ==> out == Outcome([], Fail(401, "User does not exist!")) && after == sessions)
      && (forall id :: id in users && users[id].email == b.email.value ==>
            if !c.compare(b.password.value, users[id].password) then
              out == Outcome([], Fail(401, "Invalid password!")) && after == sessions
            else
              && out.result == Ok(Reply(200, "User login successfully!"))
              && out.cookies == [SetCookie("accessToken", c.sign(id), 30 * 60 * 1000),
                                 SetCookie("refreshToken", rt, 30 * 24 * 60 * 60 * 1000)]
              && after == sessions + [Session(id, c.sha256(rt), now + 30 * 24 * 60 * 60 * 1000)])
  {
    assert LoginErrors(b) == map[];
    forall id | id in users && users[id].email == b.email.value
      ensures UserWithEmail(users, b.email.value) == Some(id)
    {
      var found := UserWithEmail(users, b.email.value);
      assert found.Some? && users[found.value].email == b.email.value;
    }
  }

  /** `deleteOne` removes the first session with the digest and only that one, keeping the others in order. */
  lemma DeleteSessionSpec(sessions: seq<Session>, digest: string)
    ensures var after := DeleteSession(sessions, digest);
      match FindSession(sessions, digest)
      case None => after == sessions
      case Some(k) =>
        && |after| == |sessions| - 1
        && multiset(after) + multiset{sessions[k]} == multiset(sessions)
        && after[..k] == sessions[..k] && after[k..] == sessions[k + 1..]
  {
    match FindSession(sessions, digest)
    case None =>
    case Some(k) => SpliceOut(sessions, k);
  }

  lemma SpliceOut(sessions: seq<Session>, k: nat)
    requires k < |sessions|
    ensures var after := sessions[..k] + sessions[k + 1..];
      && |after| == |sessions| - 1
      && multiset(after) + multiset{sessions[k]} == multiset(sessions)
      && after[..k] == sessions[..k] && after[k..] == sessions[k + 1..]
  {
    assert sessions == sessions[..k] + [sessions[k]] + sessions[k + 1..];
  }

  /** logout always clears both cookies and answers 200; it deletes a session only when a token is presented. */
  lemma LogoutClears(sessions: seq<Session>, token: Option<string>, c: Crypto)
    ensures var (out, after) := LogoutSpec(sessions, token, c);
      && out == Outcome([ClearCookie("accessToken"), ClearCookie("refreshToken")], Ok(Reply(200, "User logged out successfully!")))
      && (!Present(token) ==> after == sessions)
      && (Present(token) ==> after == DeleteSession(sessions, c.sha256(token.value)))
      && |after| <= |sessions|
  {
    if Present(token) {
      DeleteSessionSpec(sessions, c.sha256(token.value));
    }
  }

  /**
   * refresh: without a cookie, 401 and no change; with no session for the
   * token's digest, or one that expired strictly before now, that digest's
   * session is deleted, both cookies are cleared and the answer is 401;
   * otherwise a new access token for the session's user is set and the
   * sessions are unchanged.
   */
  lemma RefreshOutcomes(sessions: seq<Session>, token: Option<string>, c: Crypto, now: int)
    ensures var (out, after) := RefreshSpec(sessions, token, c, now);
      && (!Present(token) ==> out == Outcome([], Fail(401, "Unauthorized request!")) && after == sessions)
      && (Present(token) ==>
            var d := c.sha256(token.value);
            var k := FindSession(sessions, d);
            if k.None? || sessions[k.value].expiresAt < now then
              out == Outcome([ClearCookie("accessToken"), ClearCookie("refreshToken")], Fail(401, "Session expired"))
              && after == DeleteSession(sessions, d)
            else
              out == Outcome([SetCookie("accessToken", c.sign(sessions[k.value].userId), 30 * 60 * 1000)],
                             Ok(Reply(200, "Token created successfully!")))
              && after == sessions)
  {
  }

  lemma {:induction false} FindSessionAppend(sessions: seq<Session>, s: Session)
    requires FindSession(sessions, s.token).None?
    ensures FindSession(sessions + [s], s.token) == Some(|sessions|)
  {
    if sessions != [] {
      assert (sessions + [s])[1..] == sessions[1..] + [s];
      FindSessionAppend(sessions[1..], s);
    }
  }

  /**
   * The session lifecycle: a login whose refresh-token digest is new, followed
   * by a refresh with that token no later than thirty days on, mints an access
   * token for the user who logged in and keeps the session.
   */
  lemma LoginThenRefresh(users: map<UserId, User>, sessions: seq<Session>, b: LoginBody, c: Crypto, rt: string, t0: int, t1: int, id: UserId)
    requires Present(b.email) && Present(b.password) && UniqueEmails(users)
    requires id in users && users[id].email == b.email.value && c.compare(b.password.value, users[id].password)
    requires rt != "" && FindSession(sessions, c.sha256(rt)).None?
    requires t1 <= t0 + RefreshTokenMaxAge
    ensures var s1 := LoginSpec(users, sessions, b, c, rt, t0).1;
      RefreshSpec(s1, Some(rt), c, t1) ==
        (Outcome([SetCookie("accessToken", c.sign(id), AccessTokenMaxAge)], Ok(Reply(200, "Token created successfully!"))), s1)
  {
    LoginOutcomes(users, sessions, b, c, rt, t0);
    var s := Session(id, c.sha256(rt), t0 + RefreshTokenMaxAge);
    var s1 := sessions + [s];
    assert LoginSpec(users, sessions, b, c, rt, t0).1 == s1;
    FindSessionAppend(sessions, s);
    assert s1[|sessions|] == s;
  }

  lemma {:induction false} DeleteUniqueSession(sessions: seq<Session>, digest: string)
    requires forall i, j :: 0 <= i < j < |sessions| && sessions[i].token == digest ==> sessions[j].token != digest
    ensures FindSession(DeleteSession(sessions, digest), digest).None?
  {
    match FindSession(sessions, digest)
    case None =>
    case Some(k) =>
      var after := sessions[..k] + sessions[k + 1..];
      forall i | 0 <= i < |after| ensures after[i].token != digest {
        if i >= k { assert after[i] == sessions[i + 1]; }
      }
      assert FindSession(after, digest).None? by { FindNone(after, digest); }
  }

  lemma {:induction false} FindNone(sessions: seq<Session>, digest: string)
    requires forall i :: 0 <= i < |sessions| ==> sessions[i].token != digest
    ensures FindSession(sessions, digest).None?
  {
    if sessions != [] {
      FindNone(sessions[1..], digest);
    }
  }

  /** After logging out with a token whose digest names at most one session, refreshing with it is a 401. */
  lemma LogoutThenRefresh(sessions: seq<Session>, rt: string, c: Crypto, now: int)
    requires rt != ""
    requires forall i, j :: 0 <= i < j < |sessions| && sessions[i].token == c.sha256(rt) ==> sessions[j].token != c.sha256(rt)
    ensures var s1 := LogoutSpec(sessions, Some(rt), c).1;
      RefreshSpec(s1, Some(rt), c, now).0 == Outcome([ClearCookie("accessToken"), ClearCookie("refreshToken")], Fail(401, "Session expired"))
  {
    DeleteUniqueSession(sessions, c.sha256(rt));
  }

  /** signup keeps the tables consistent: emails stay unique and every existing user, owners included, is kept. */
  lemma SignupKeepsConsistent(users: map<UserId, User>, shops: map<ShopId, Shop>, products: map<ProductId, Product>,
                              orders: seq<Order>, b: SignupBody, c: Crypto, newId: UserId)
    requires newId !in users
    requires Consistent(users, shops, products, orders)
    ensures Consistent(SignupSpec(users, b, c, newId).1, shops, products, orders)
  {
    var after := SignupSpec(users, b, c, newId).1;
    SignupSucceedsIff(users, b, c, newId);
    if after != users {
      SignupAddsUser(users, b, c, newId);
      forall u, s | OwnsShop(shops, u, s) ensures u in after && after[u].role == OwnerRole {
        assert after[u] == users[u];
      }
    }
  }
}
