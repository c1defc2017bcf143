/** The SQL statements the `/auth` routes issue, as functions over the tables. Each returns
    rows in table order where PostgreSQL leaves the order unspecified; the contracts say only
    what the statement guarantees, not which order it picks. */
module Queries {
  import opened Wrappers
  import opened Schema
  import Like

  /** The first row of `select().from(auth).where(eq(auth.email, email))`. */
  function FindByEmail(auth: seq<Credential>, email: string): (r: Option<Credential>)
    ensures r.Some? ==> r.value in auth && r.value.email == email
    ensures r.None? ==> forall c :: c in auth ==> c.email != email
  {
    if auth == [] then None
    else if auth[0].email == email then Some(auth[0])
    else FindByEmail(auth[1..], email)
  }

  /** The first row of
      `select().from(sessions).where(and(eq(sessions.token, token), gt(sessions.expiresAt, now)))`. */
  function LiveSession(sessions: seq<Session>, token: string, now: Timestamp): (r: Option<Session>)
    ensures r.Some? ==> r.value in sessions && r.value.token == token && Live(r.value, now)
    ensures r.None? ==> forall s :: s in sessions && s.token == token ==> !Live(s, now)
  {
    if sessions == [] then None
    else if sessions[0].token == token && Live(sessions[0], now) then Some(sessions[0])
    else LiveSession(sessions[1..], token, now)
  }

  /** The table left by `delete(sessions).where(eq(sessions.token, token))`: exactly the rows
      with another token remain. */
  function RemoveToken(sessions: seq<Session>, token: string): (r: seq<Session>)
    ensures forall s :: s in r <==> s in sessions && s.token != token
    ensures |r| <= |sessions|
  {
    if sessions == [] then []
    else if sessions[0].token == token then RemoveToken(sessions[1..], token)
    else [sessions[0]] + RemoveToken(sessions[1..], token)
  }

  /** Deleting rows keeps the primary key and the unique token. */
  lemma {:induction false} RemoveTokenKeepsKeys(sessions: seq<Session>, token: string)
    requires SessionsKeyed(sessions)
    ensures SessionsKeyed(RemoveToken(sessions, token))
    decreases |sessions|
  {
    if sessions != [] {
      var rest := sessions[1..];
      TailKeyed(sessions);
      RemoveTokenKeepsKeys(rest, token);
      if sessions[0].token != token {
        var r' := RemoveToken(rest, token);
        forall y | y in r' ensures y.id != sessions[0].id && y.token != sessions[0].token {
          HeadDiffers(sessions, y);
        }
        ConsKeyed(sessions[0], r');
      }
    }
  }

  lemma TailKeyed(sessions: seq<Session>)
    requires sessions != [] && SessionsKeyed(sessions)
    ensures SessionsKeyed(sessions[1..])
  {
    var rest := sessions[1..];
    forall i, j | 0 <= i < j < |rest|
      ensures rest[i].id != rest[j].id && rest[i].token != rest[j].token
    {
      assert rest[i] == sessions[i + 1] && rest[j] == sessions[j + 1];
    }
  }

  lemma HeadDiffers(sessions: seq<Session>, y: Session)
    requires sessions != [] && SessionsKeyed(sessions) && y in sessions[1..]
    ensures y.id != sessions[0].id && y.token != sessions[0].token
  {
    var k :| 0 <= k < |sessions[1..]| && sessions[1..][k] == y;
    assert sessions[k + 1] == y;
  }

  lemma ConsKeyed(x: Session, r: seq<Session>)
    requires SessionsKeyed(r)
    requires forall y :: y in r ==> y.id != x.id && y.token != x.token
    ensures SessionsKeyed([x] + r)
  {
    var t := [x] + r;
    forall i, j | 0 <= i < j < |t| ensures t[i].id != t[j].id && t[i].token != t[j].token {
      assert t[j] == r[j - 1];
      if i > 0 {
        assert t[i] == r[i - 1];
      }
    }
  }

  /** Deleting by token is idempotent: a second sign-out with the same token deletes nothing. */
  lemma {:induction false} RemoveTokenIdempotent(sessions: seq<Session>, token: string)
    ensures RemoveToken(RemoveToken(sessions, token), token) == RemoveToken(sessions, token)
    decreases |sessions|
  {
    if sessions != [] {
      RemoveTokenIdempotent(sessions[1..], token);
      if sessions[0].token != token {
        var r' := RemoveToken(sessions[1..], token);
        assert ([sessions[0]] + r')[1..] == r';
      }
    }
  }

  /** With tokens unique, looking up a live session's token finds that very session. */
  lemma LiveSessionFindsIt(sessions: seq<Session>, s: Session, now: Timestamp)
    requires SessionsKeyed(sessions) && s in sessions && Live(s, now)
    ensures LiveSession(sessions, s.token, now) == Some(s)
  {
    var found := LiveSession(sessions, s.token, now);
    TokenDeterminesSession(sessions, found.value, s);
  }

  /** Deleting sessions touches no other token: a live session under another token stays live. */
  lemma RemoveTokenSparesOthers(sessions: seq<Session>, token: string, other: string, now: Timestamp)
    requires other != token
    ensures LiveSession(RemoveToken(sessions, token), other, now).Some? <==> LiveSession(sessions, other, now).Some?
  {
    var l := LiveSession(sessions, other, now);
    if l.Some? {
      assert l.value in RemoveToken(sessions, token);
    }
  }

  /** A row of `users INNER JOIN auth ON users.id = auth.userId`. */
  datatype JoinRow = JoinRow(user: User, cred: Credential)

  /** The projection `{ id: users.id, name: users.name, email: auth.email, createdAt: users.createdAt }`
      (the search route names the first field `userId`). */
  datatype UserView = UserView(id: Uuid, name: Option<string>, email: string, createdAt: Timestamp)

  function View(row: JoinRow): UserView {
    UserView(row.user.id, row.user.name, row.cred.email, row.user.createdAt)
  }

  /** The join rows of one user. */
  function PairsWith(u: User, auth: seq<Credential>): (r: seq<JoinRow>)
    ensures forall row :: row in r <==> row.user == u && row.cred in auth && row.cred.userId == u.id
  {
    if auth == [] then []
    else (if auth[0].userId == u.id then [JoinRow(u, auth[0])] else []) + PairsWith(u, auth[1..])
  }

  /** `users INNER JOIN auth ON users.id = auth.userId`: every matching pair of rows. */
  function JoinOn(users: seq<User>, auth: seq<Credential>): (r: seq<JoinRow>)
    ensures forall row :: row in r <==> row.user in users && row.cred in auth && row.cred.userId == row.user.id
  {
    if users == [] then [] else PairsWith(users[0], auth) + JoinOn(users[1..], auth)
  }

  /** `where(eq(users.id, id))` over join rows. */
  function WhereUser(rows: seq<JoinRow>, id: Uuid): (r: seq<JoinRow>)
    ensures forall row :: row in r <==> row in rows && row.user.id == id
  {
    if rows == [] then []
    else (if rows[0].user.id == id then [rows[0]] else []) + WhereUser(rows[1..], id)
  }

  /** `or(ilike(users.name, pattern), ilike(auth.email, pattern))`; a null name matches nothing. */
  predicate IsMatch(row: JoinRow, pattern: string) {
    (row.user.name.Some? && Like.Like(row.user.name.value, pattern)) || Like.Like(row.cred.email, pattern)
  }

  /** The search condition over join rows. */
  function WhereMatch(rows: seq<JoinRow>, pattern: string): (r: seq<JoinRow>)
    ensures forall row :: row in r <==> row in rows && IsMatch(row, pattern)
  {
    if rows == [] then []
    else (if IsMatch(rows[0], pattern) then [rows[0]] else []) + WhereMatch(rows[1..], pattern)
  }

  function Views(rows: seq<JoinRow>): seq<UserView> {
    seq(|rows|, i requires 0 <= i < |rows| => View(rows[i]))
  }

  /** The number of rows `.limit(10)` lets the search return. */
  const SearchLimit: nat := 10

  /** Every projected row the search statement can return for the term `q`, before the limit. */
  function Matches(users: seq<User>, auth: seq<Credential>, q: string): seq<UserView> {
    Views(WhereMatch(JoinOn(users, auth), Like.Pattern(q)))
  }

  /** What `Matches` holds: the projections of exactly those user/credential pairs of the join
      whose name or email matches `%q%`. */
  lemma MatchesMeaning(users: seq<User>, auth: seq<Credential>, q: string, v: UserView)
    ensures v in Matches(users, auth, q) <==>
      exists u, c :: u in users && c in auth && c.userId == u.id && IsMatch(JoinRow(u, c), Like.Pattern(q)) && v == View(JoinRow(u, c))
  {
    var rows := WhereMatch(JoinOn(users, auth), Like.Pattern(q));
    if v in Matches(users, auth, q) {
      var i :| 0 <= i < |rows| && Views(rows)[i] == v;
      assert rows[i] in rows;
      assert JoinRow(rows[i].user, rows[i].cred) == rows[i];
    }
    if exists u, c :: u in users && c in auth && c.userId == u.id && IsMatch(JoinRow(u, c), Like.Pattern(q)) && v == View(JoinRow(u, c)) {
      var u, c :| u in users && c in auth && c.userId == u.id && IsMatch(JoinRow(u, c), Like.Pattern(q)) && v == View(JoinRow(u, c));
      assert JoinRow(u, c) in rows;
      var i :| 0 <= i < |rows| && rows[i] == JoinRow(u, c);
      assert Views(rows)[i] == v;
    }
  }

  /** For a term without LIKE wildcards, a row matches exactly when its name or its email
      contains the term, ignoring ASCII case. */
  lemma MatchIsCaseInsensitiveSubstring(row: JoinRow, q: string)
    requires Like.Literal(q)
    ensures IsMatch(row, Like.Pattern(q)) <==>
      (row.user.name.Some? && Like.ContainsFolded(row.user.name.value, q)) || Like.ContainsFolded(row.cred.email, q)
  {
    if row.user.name.Some? {
      Like.LikeIsContainsFolded(row.user.name.value, q);
    }
    Like.LikeIsContainsFolded(row.cred.email, q);
  }

  /** `.limit(n)`: at most `n` of the rows, each taken from them, and all of them when fewer. */
  function Limit(s: seq<UserView>, n: nat): (r: seq<UserView>)
    ensures |r| == Min(n, |s|) && multiset(r) <= multiset(s)
  {
    var k := Min(n, |s|);
    assert s == s[..k] + s[k..];
    s[..k]
  }
}
