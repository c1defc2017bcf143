/** The `/auth` routes, as methods on an in-memory copy of the four tables. Each handler's
    inputs are its validated request fields; the clock (`Date.now()`, `new Date()`), the random
    column defaults (`defaultRandom()`), the Argon2 salt and the signed JWT are parameters. */
module Auth {
  import opened Wrappers
  import opened Schema
  import opened Queries
  import Password

  /** `7 * 24 * 60 * 60 * 1000`: a session lives for seven days, in milliseconds. */
  const SessionTtl: int := 7 * 24 * 60 * 60 * 1000

  /** The body-validation shape of `/signup`: `password: t.String({ minLength: 8 })`. */
  const MinPasswordLength: nat := 8

  /** A JavaScript string's `.length`, which the validation compares: UTF-16 code units, two for
      each code point beyond the Basic Multilingual Plane. */
  function Utf16Length(s: string): (n: nat)
    ensures |s| <= n <= 2 * |s|
  {
    if s == [] then 0 else (if s[0] as int >= 0x1_0000 then 2 else 1) + Utf16Length(s[1..])
  }

  /** Four emoji make an eight-unit password, long enough for sign-up. */
  lemma FourEmojiAreLongEnough()
    ensures Utf16Length("\U{1F600}\U{1F600}\U{1F600}\U{1F600}") == MinPasswordLength
  {
    var e := "\U{1F600}\U{1F600}\U{1F600}\U{1F600}";
    assert e[1..] == "\U{1F600}\U{1F600}\U{1F600}";
    assert e[1..][1..] == "\U{1F600}\U{1F600}";
    assert e[1..][1..][1..] == "\U{1F600}";
    assert e[1..][1..][1..][1..] == "";
  }

  /** Outcome of `POST /signup`. */
  datatype SignupResult =
    | Created(userId: Uuid)     // { success: true, userId }
    | EmailExists               // 400 'Email already exists'
    | CreateFailed              // 500 'Failed to create user'
  {
    function Status(): int {
      match this
      case Created(_) => 200
      case EmailExists => 400
      case CreateFailed => 500
    }
  }

  /** Outcome of `POST /signin`. A failed insert of the session is not caught by the route, so
      the framework answers it with a server error. */
  datatype SigninResult =
    | SignedIn(token: string)   // { success: true, token }
    | InvalidCredentials        // 401 'Invalid credentials', for an unknown email and a wrong password alike
    | ServerError               // the session insert violated a constraint
  {
    function Status(): int {
      match this
      case SignedIn(_) => 200
      case InvalidCredentials => 401
      case ServerError => 500
    }
  }

  /** Outcome of `GET /me`: `{ user }`, where `user` is undefined when the join finds no row. */
  datatype MeResult =
    | Authorized(user: Option<UserView>)
    | Unauthorized              // 401 'Unauthorized'
  {
    function Status(): int {
      if Authorized? then 200 else 401
    }
  }

  /** Some session carries this token and is still live. */
  ghost predicate HasLive(sessions: seq<Session>, token: string, now: Timestamp) {
    exists s :: s in sessions && s.token == token && Live(s, now)
  }

  /** Some credential has this email and its hash verifies this password. */
  ghost predicate CredentialsMatch(auth: seq<Credential>, email: string, password: string) {
    exists c :: c in auth && c.email == email && Password.Verify(password, c.passwordHash)
  }

  /** The database the routes share. */
  class AuthStore {
    var users: seq<User>
    var auth: seq<Credential>
    var sessions: seq<Session>
    var roles: seq<RoleRow>

    /** The schema's constraints, and one credential per user. */
    ghost predicate Valid()
      reads this
    {
      Consistent(users, auth, sessions, roles) && OneCredentialPerUser(users, auth)
    }

    constructor ()
      ensures Valid()
      ensures users == [] && auth == [] && sessions == [] && roles == []
    {
      users, auth, sessions, roles := [], [], [], [];
    }

    /** `POST /signup`: reject a known email before hashing; otherwise insert the user and its
        credential in one transaction, which either commits both rows or neither. */
    method Signup(email: string, password: string, name: string, now: Timestamp,
                  newUserId: Uuid, newAuthId: Uuid, salt: nat, storeFault: bool) returns (r: SignupResult)
      requires Valid()
      requires Utf16Length(password) >= MinPasswordLength
      modifies this
      ensures Valid()
      ensures r == EmailExists <==> email in old(Emails(auth))
      ensures r.Created? <==>
        && email !in old(Emails(auth))
        && !storeFault && newUserId !in old(UserIds(users)) && newAuthId !in old(CredentialIds(auth))
      ensures r.Created? ==>
        && r.userId == newUserId
        && users == old(users) + [User(newUserId, Some(name), now, now)]
        && auth == old(auth) + [Credential(newAuthId, newUserId, email, Password.Hash(password, salt), false, now, now)]
      ensures !r.Created? ==> users == old(users) && auth == old(auth)
      ensures sessions == old(sessions) && roles == old(roles)
    {
      if FindByEmail(auth, email).Some? {
        return EmailExists;
      }
      var passwordHash := Password.Hash(password, salt);
      // The transaction. `storeFault` stands for any failure of the store itself.
      if storeFault || newUserId in UserIds(users) {
        return CreateFailed;
      }
      var user := User(newUserId, Some(name), now, now);
      var usersTx := users + [user];
      if newAuthId in CredentialIds(auth) {
        // The credential insert fails and the transaction rolls back the user row.
        return CreateFailed;
      }
      var cred := Credential(newAuthId, newUserId, email, passwordHash, false, now, now);
      assert UserIds(usersTx) == UserIds(users) + {newUserId};
      assert newUserId !in Owners(auth);
      users, auth := usersTx, auth + [cred];
      r := Created(newUserId);
    }

    /** `POST /signin`: an unknown email and a wrong password fail alike and change nothing;
        otherwise a session for the credential's user is inserted, expiring in seven days. */
    method Signin(email: string, password: string, now: Timestamp, token: string, sessionId: Uuid)
      returns (r: SigninResult)
      requires Valid()
      modifies this
      ensures Valid()
      ensures r == InvalidCredentials <==> !CredentialsMatch(auth, email, password)
      ensures r.ServerError? <==>
        CredentialsMatch(auth, email, password) && (token in old(Tokens(sessions)) || sessionId in old(SessionIds(sessions)))
      ensures r.SignedIn? ==>
        && r.token == token
        && exists c :: c in auth && c.email == email && Password.Verify(password, c.passwordHash)
                    && sessions == old(sessions) + [Session(sessionId, c.userId, token, now + SessionTtl, now)]
      ensures !r.SignedIn? ==> sessions == old(sessions)
      ensures users == old(users) && auth == old(auth) && roles == old(roles)
    {
      var found := FindByEmail(auth, email);
      if found.None? {
        return InvalidCredentials;
      }
      var cred := found.value;
      if !Password.Verify(password, cred.passwordHash) {
        forall c | c in auth && c.email == email ensures !Password.Verify(password, c.passwordHash) {
          EmailDeterminesCredential(auth, c, cred);
        }
        return InvalidCredentials;
      }
      if token in Tokens(sessions) || sessionId in SessionIds(sessions) {
        // The insert violates `sessions.token` unique or the primary key.
        return ServerError;
      }
      var session := Session(sessionId, cred.userId, token, now + SessionTtl, now);
      sessions := sessions + [session];
      r := SignedIn(token);
    }

    /** `GET /me`: without a bearer, or when no live session carries it, 401; otherwise the
        session owner's id, name, email and creation time. */
    method Me(bearer: Option<string>, now: Timestamp) returns (r: MeResult)
      ensures r == Unauthorized <==> !Truthy(bearer) || !HasLive(sessions, bearer.value, now)
      ensures r.Authorized? && r.user.Some? ==>
        exists s, u, c :: s in sessions && s.token == bearer.value && Live(s, now)
                       && u in users && c in auth && u.id == s.userId && c.userId == u.id
                       && r.user.value == View(JoinRow(u, c))
      ensures Valid() && r.Authorized? ==> r.user.Some?
    {
      if !Truthy(bearer) {
        return Unauthorized;
      }
      var session := LiveSession(sessions, bearer.value, now);
      if session.None? {
        return Unauthorized;
      }
      var s := session.value;
      var rows := WhereUser(JoinOn(users, auth), s.userId);
      if Valid() {
        // The session's user exists (foreign key) and owns a credential, so the join has a row.
        var u :| u in users && u.id == s.userId;
        var c :| c in auth && c.userId == u.id;
        assert JoinRow(u, c) in rows;
      }
      if rows == [] {
        r := Authorized(None);
      } else {
        assert rows[0] in rows;
        r := Authorized(Some(View(rows[0])));
      }
    }

    /** `POST /verify`: valid exactly when a bearer is given and a live session carries it. */
    method Verify(bearer: Option<string>, now: Timestamp) returns (valid: bool)
      ensures valid <==> Truthy(bearer) && HasLive(sessions, bearer.value, now)
    {
      if !Truthy(bearer) {
        return false;
      }
      valid := LiveSession(sessions, bearer.value, now).Some?;
    }

    /** `POST /signout`: with a bearer, delete every session carrying it and report success,
        whether or not one existed; without one, report failure and change nothing. */
    method Signout(bearer: Option<string>) returns (success: bool)
      requires Valid()
      modifies this
      ensures Valid()
      ensures success == Truthy(bearer)
      ensures success ==> sessions == RemoveToken(old(sessions), bearer.value)
      ensures !success ==> sessions == old(sessions)
      ensures users == old(users) && auth == old(auth) && roles == old(roles)
    {
      if !Truthy(bearer) {
        return false;
      }
      RemoveTokenKeepsKeys(sessions, bearer.value);
      sessions := RemoveToken(sessions, bearer.value);
      success := true;
    }

    /** `GET /search`: no term, no users; otherwise at most ten of the users whose name or email
        matches `%q%` case-insensitively, which are all of them when there are fewer. */
    method Search(q: Option<string>) returns (hits: seq<UserView>)
      ensures !Truthy(q) ==> hits == []
      ensures Truthy(q) ==>
        && |hits| == Min(SearchLimit, |Matches(users, auth, q.value)|)
        && multiset(hits) <= multiset(Matches(users, auth, q.value))
    {
      if !Truthy(q) {
        return [];
      }
      hits := Limit(Matches(users, auth, q.value), SearchLimit);
    }
  }

  /** A credential that sign-up has just stored lets sign-in succeed with the same password. */
  lemma SignupEnablesSignin(auth: seq<Credential>, id: Uuid, userId: Uuid, email: string, password: string,
                            salt: nat, now: Timestamp)
    ensures CredentialsMatch(auth + [Credential(id, userId, email, Password.Hash(password, salt), false, now, now)], email, password)
  {
    var c := Credential(id, userId, email, Password.Hash(password, salt), false, now, now);
    assert (auth + [c])[|auth|] == c;
  }

  /** A session issued with a fresh token is live for its token exactly until it expires; one
      issued by sign-in at `now` is live at `now` and no longer at `now + SessionTtl`. */
  lemma IssuedSessionLifetime(sessions: seq<Session>, s: Session, at: Timestamp)
    requires s.token !in Tokens(sessions)
    ensures HasLive(sessions + [s], s.token, at) <==> at < s.expiresAt
    ensures s.expiresAt == s.createdAt + SessionTtl ==>
      HasLive(sessions + [s], s.token, s.createdAt) && !HasLive(sessions + [s], s.token, s.createdAt + SessionTtl)
  {
    assert (sessions + [s])[|sessions|] == s;
  }

  /** After sign-out with a token, no session carries it, so verify and me reject it. */
  lemma SignoutEndsSession(sessions: seq<Session>, token: string, now: Timestamp)
    ensures !HasLive(RemoveToken(sessions, token), token, now)
  {
  }

  /** No handler brings back a token that is in the table but no longer live: after sign-up,
      sign-in or sign-out at `now` it is still not live at any later time. */
  method SignupKeepsExpired(store: AuthStore, t: string, now: Timestamp, later: Timestamp,
                            email: string, password: string, name: string,
                            newUserId: Uuid, newAuthId: Uuid, salt: nat, storeFault: bool)
    requires store.Valid() && Utf16Length(password) >= MinPasswordLength
    requires !HasLive(store.sessions, t, now) && now <= later
    modifies store
    ensures !HasLive(store.sessions, t, later)
  {
    var r := store.Signup(email, password, name, now, newUserId, newAuthId, salt, storeFault);
  }

  method SigninKeepsExpired(store: AuthStore, t: string, now: Timestamp, later: Timestamp,
                            email: string, password: string, token: string, sessionId: Uuid)
    requires store.Valid() && t in Tokens(store.sessions)
    requires !HasLive(store.sessions, t, now) && now <= later
    modifies store
    ensures !HasLive(store.sessions, t, later)
  {
    var r := store.Signin(email, password, now, token, sessionId);
  }

  method SignoutKeepsExpired(store: AuthStore, t: string, now: Timestamp, later: Timestamp, bearer: Option<string>)
    requires store.Valid()
    requires !HasLive(store.sessions, t, now) && now <= later
    modifies store
    ensures !HasLive(store.sessions, t, later)
  {
    var r := store.Signout(bearer);
  }

  /** A repeated registration and two failed sign-ins, on a store built here; the assertions
      are proved from the handlers' contracts. */
  method RejectionScenario(password: string, other: string)
    requires Utf16Length(password) >= MinPasswordLength && Utf16Length(other) >= MinPasswordLength
    requires other != password
  {
    var store := new AuthStore();
    var now := 1000;
    var up := store.Signup("a@x.com", password, "Ann", now, 1, 2, 7, false);
    assert up == Created(1);
    assert "a@x.com" in Emails(store.auth) by {
      assert store.auth[0].email == "a@x.com";
    }
    var again := store.Signup("a@x.com", other, "Bob", now, 3, 4, 8, false);
    assert again == EmailExists && again.Status() == 400;
    assert |store.users| == 1;

    var wrong := store.Signin("a@x.com", other, now, "t0", 5);
    var unknown := store.Signin("b@x.com", password, now, "t1", 6);
    assert wrong == InvalidCredentials && unknown == InvalidCredentials;
    assert store.sessions == [];
  }

  /** Registration, sign-in, profile, expiry, sign-out and a repeated sign-out, on a store
      built here; the assertions are proved from the handlers' contracts. */
  method SessionScenario(password: string)
    requires Utf16Length(password) >= MinPasswordLength
  {
    var store := new AuthStore();
    var now := 1000;
    var up := store.Signup("a@x.com", password, "Ann", now, 1, 2, 7, false);
    assert up == Created(1);

    SignupEnablesSignin([], 2, 1, "a@x.com", password, 7, now);
    var signin := store.Signin("a@x.com", password, now, "tok", 9);
    assert signin == SignedIn("tok");

    var me := store.Me(Some("tok"), now + 1);
    assert me.Authorized? && me.user.Some?;
    assert me.user.value.name == Some("Ann") && me.user.value.email == "a@x.com";

    var expired := store.Verify(Some("tok"), now + SessionTtl);
    assert !expired;

    var out := store.Signout(Some("tok"));
    assert out;
    var me2 := store.Me(Some("tok"), now + 1);
    assert me2 == Unauthorized;
    var out2 := store.Signout(Some("tok"));
    assert out2;
  }
}
