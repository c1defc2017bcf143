/** The four tables of the database schema: `users`, `auth`, `sessions` and `roles`. Each
    table is a sequence of rows in insertion order; the constraints the schema declares
    (primary keys, unique columns, foreign keys to `users.id`) are predicates over them.
    Columns declared `notNull()` are plain fields; nullable columns without a default are
    `Option`s. Columns with a `defaultNow()`/`default(false)` are filled by every insert the
    routes make, so they are plain fields too. */
module Schema {
  import opened Wrappers
  import Password

  /** A `uuid` primary or foreign key; `defaultRandom()` values are supplied by the caller. */
  type Uuid = nat

  /** A `timestamp`, in milliseconds since the epoch as JavaScript's `Date` holds it. */
  type Timestamp = int

  /** `users`: the identity. `name` is nullable. */
  datatype User = User(id: Uuid, name: Option<string>, createdAt: Timestamp, updatedAt: Timestamp)

  /** `auth`: the credential of a user. `userId`, `email` and `passwordHash` are not null. */
  datatype Credential = Credential(
    id: Uuid,
    userId: Uuid,
    email: string,
    passwordHash: Password.Digest,
    isVerified: bool,
    createdAt: Timestamp,
    updatedAt: Timestamp)

  /** `sessions`: a bearer token with an absolute expiry. `token` and `expiresAt` are not null. */
  datatype Session = Session(id: Uuid, userId: Uuid, token: string, expiresAt: Timestamp, createdAt: Timestamp)

  /** `roles`: declared but neither read nor written by any route. */
  datatype RoleRow = RoleRow(
    id: Uuid,
    userId: Uuid,
    role: string,
    title: Option<string>,
    createdAt: Timestamp,
    updatedAt: Timestamp)

  /** The `gt(sessions.expiresAt, new Date())` condition: a session is live strictly before it expires. */
  predicate Live(s: Session, now: Timestamp) {
    now < s.expiresAt
  }

  function UserIds(users: seq<User>): set<Uuid> {
    set u | u in users :: u.id
  }

  function CredentialIds(auth: seq<Credential>): set<Uuid> {
    set c | c in auth :: c.id
  }

  function Emails(auth: seq<Credential>): set<string> {
    set c | c in auth :: c.email
  }

  function Owners(auth: seq<Credential>): set<Uuid> {
    set c | c in auth :: c.userId
  }

  function SessionIds(sessions: seq<Session>): set<Uuid> {
    set s | s in sessions :: s.id
  }

  function Tokens(sessions: seq<Session>): set<string> {
    set s | s in sessions :: s.token
  }

  /** `users.id` is the primary key. */
  ghost predicate UsersKeyed(users: seq<User>) {
    forall i, j :: 0 <= i < j < |users| ==> users[i].id != users[j].id
  }

  /** `auth.id` is the primary key and `auth.email` is unique. */
  ghost predicate AuthKeyed(auth: seq<Credential>) {
    forall i, j :: 0 <= i < j < |auth| ==> auth[i].id != auth[j].id && auth[i].email != auth[j].email
  }

  /** `sessions.id` is the primary key and `sessions.token` is unique. */
  ghost predicate SessionsKeyed(sessions: seq<Session>) {
    forall i, j :: 0 <= i < j < |sessions| ==> sessions[i].id != sessions[j].id && sessions[i].token != sessions[j].token
  }

  /** `roles.id` is the primary key. */
  ghost predicate RolesKeyed(roles: seq<RoleRow>) {
    forall i, j :: 0 <= i < j < |roles| ==> roles[i].id != roles[j].id
  }

  /** Every `user_id` column references an existing `users.id`. */
  ghost predicate References(users: seq<User>, auth: seq<Credential>, sessions: seq<Session>, roles: seq<RoleRow>) {
    && (forall c :: c in auth ==> c.userId in UserIds(users))
    && (forall s :: s in sessions ==> s.userId in UserIds(users))
    && (forall r :: r in roles ==> r.userId in UserIds(users))
  }

  /** All constraints the schema declares. */
  ghost predicate Consistent(users: seq<User>, auth: seq<Credential>, sessions: seq<Session>, roles: seq<RoleRow>) {
    UsersKeyed(users) && AuthKeyed(auth) && SessionsKeyed(sessions) && RolesKeyed(roles)
    && References(users, auth, sessions, roles)
  }

  /** Not a schema constraint but kept by the only route that writes `users` and `auth`, which
      creates a user together with its credential: every user owns exactly one credential. */
  ghost predicate OneCredentialPerUser(users: seq<User>, auth: seq<Credential>) {
    && (forall u :: u in users ==> u.id in Owners(auth))
    && (forall i, j :: 0 <= i < j < |auth| ==> auth[i].userId != auth[j].userId)
  }

  /** Because `auth.email` is unique, an email determines at most one credential. */
  lemma EmailDeterminesCredential(auth: seq<Credential>, a: Credential, b: Credential)
    requires AuthKeyed(auth) && a in auth && b in auth && a.email == b.email
    ensures a == b
  {
    var i :| 0 <= i < |auth| && auth[i] == a;
    var j :| 0 <= j < |auth| && auth[j] == b;
    assert !(i < j) && !(j < i);
  }

  /** Because `sessions.token` is unique, a token determines at most one session. */
  lemma TokenDeterminesSession(sessions: seq<Session>, a: Session, b: Session)
    requires SessionsKeyed(sessions) && a in sessions && b in sessions && a.token == b.token
    ensures a == b
  {
    var i :| 0 <= i < |sessions| && sessions[i] == a;
    var j :| 0 <= j < |sessions| && sessions[j] == b;
    assert !(i < j) && !(j < i);
  }
}
