# Auth microservice core, modelled in Dafny

This project models the session and credential state machine of an authentication
microservice. The service's `/auth` routes run over four PostgreSQL tables:

- `users`: identities.
- `auth`: one credential per identity, with a unique email and an Argon2 password hash.
- `sessions`: bearer tokens with an absolute expiry.
- `roles`: declared, but never used by any route.

The routes register an identity (`/signup`) and sign in (`/signin`). Sign-in issues a
seven-day session. `/me` and `/verify` look a bearer token up, `/signout` revokes it, and
`/search` searches users by name or email.

Files and modules:

- `schema.dfy` (`Schema`): one datatype per table row. The schema's constraints are predicates
  over the tables: primary keys, the unique `auth.email` and `sessions.token`, and every `user_id`
  foreign key. There is also the invariant that every user owns exactly one credential.
- `password.dfy` (`Password`): the Argon2 hasher as an ideal symbolic hash. A digest records its
  random salt and the password it came from, so `Verify` accepts exactly the hashed password.
- `like.dfy` (`Like`): PostgreSQL `ILIKE`. `%` matches any run of characters, `_` matches one
  character, `\` escapes the next character, and case folding is ASCII only.
- `queries.dfy` (`Queries`): each SQL statement the routes issue, as a function over the tables.
  These are the lookups by email and by live token, the token delete, the users/auth inner join,
  the search filter and `.limit(10)`.
- `auth.dfy` (`Auth`): the class `AuthStore` holds the four tables as sequence fields. Each route
  handler is a method on it. The handlers that write (`Signup`, `Signin`, `Signout`) keep `Valid()`,
  the schema's constraints. Two client methods each build a fresh store and call the handlers on
  it, for any password that sign-up accepts (at least 8 UTF-16 units); their assertions are proved from the handlers' contracts.
  `RejectionScenario` registers an email twice and then tries a wrong password and an unknown
  email. `SessionScenario` registers, signs in, reads the profile, checks expiry, and signs out
  twice.

Behaviour the model pins down:

- A bearer or search term that is missing or empty counts as absent. This follows JavaScript
  truthiness.
- Columns declared `notNull()` (`email`, `passwordHash`, `token`, `expiresAt`, every `user_id`)
  are plain fields of the row datatypes, so they are always present. The nullable `users.name`
  is an `Option`, and a null name never matches a search.
- A session is live exactly while `now < expiresAt`. Expiry alone deletes nothing. While an
  expired row is still in the table, no handler call makes its token live again: a sign-in handed
  that token fails on the unique constraint. Sign-out deletes rows by token, live or expired.
- The sign-up password length is JavaScript's `.length`, counted in UTF-16 code units, so four
  emoji are long enough.
- The source's transaction commits both the user row and the credential row, or neither.
- Where the source relies on a database constraint, the model checks that constraint. A primary
  key collision in sign-up is a 500. A collision of the signing token or session id in sign-in
  makes the uncaught insert fail (`ServerError`).
- The search term goes into the `ILIKE` pattern unescaped, so `%`, `_` and `\` in it act as
  pattern syntax. `Like.UnderscoreIsAWildcard` shows that the term `_` matches the name "Ann".
  For a term without those characters, `Queries.MatchIsCaseInsensitiveSubstring` proves that the
  filter is a case-insensitive substring test.

What the routes do and do not touch:

- Sign-up writes only `users` and `auth`. No route reads or writes `roles`, so `roles` appears
  only as a datatype under the foreign-key invariant.
- Sign-in returns only `{ success, token }`.
- Sign-out without a bearer returns `success: false`.

## Model

| member | source | states |
|---|---|---|
| `Password.Hash` | src/auth/index.ts:53 | the digest embeds the salt drawn for this call |
| `Password.Verify` | src/auth/index.ts:99 | verification accepts a digest exactly when it is the hash of this password under the salt it embeds |
| `Password.VerifyAcceptsHash` | src/auth/index.ts:53-99 | the password that was hashed at sign-up always verifies against the stored digest |
| `Password.VerifyRejectsOthers` | src/auth/index.ts:99-102 | any other password fails verification |
| `Like.Pattern` | src/auth/index.ts:196-197 | the search pattern is the term wrapped in `%`, two characters longer |
| `Like.LikeAnything` | src/auth/index.ts:196-197 | a lone `%` matches every string |
| `Like.LikePrefix` | src/auth/index.ts:196-197 | for a wildcard-free term, `q%` matches exactly the strings that start with `q` up to case |
| `Like.LikeSuffix` | src/auth/index.ts:196-197 | `%r` matches exactly when `r` matches some suffix |
| `Like.LikeIsContainsFolded` | src/auth/index.ts:196-197 | for a wildcard-free term, `ILIKE '%q%'` holds exactly when the term occurs in the string ignoring ASCII case |
| `Like.UnderscoreIsAWildcard` | src/auth/index.ts:196-197 | the unescaped term `_` matches "Ann", which does not contain `_` |
| `Schema.EmailDeterminesCredential` | src/db/schema.ts:13 | under the unique email, two credentials with one email are the same row |
| `Schema.TokenDeterminesSession` | src/db/schema.ts:23 | under the unique token, two sessions with one token are the same row |
| `Queries.FindByEmail` | src/auth/index.ts:90-93 | returns a credential with that email, or none when no credential has it |
| `Queries.LiveSession` | src/auth/index.ts:130-133 | returns a session with that token whose expiry is after `now`, or none when no such session exists |
| `Queries.RemoveToken` | src/auth/index.ts:171 | the rows left are exactly those whose token differs |
| `Queries.RemoveTokenKeepsKeys` | src/db/schema.ts:21-23 | deleting by token keeps the primary key and the token unique |
| `Queries.RemoveTokenIdempotent` | src/auth/index.ts:168-172 | a second delete with the same token changes nothing |
| `Queries.RemoveTokenSparesOthers` | src/auth/index.ts:171 | sessions under other tokens stay live |
| `Queries.PairsWith` | src/auth/index.ts:192-193 | the join rows of one user are exactly its credentials |
| `Queries.JoinOn` | src/auth/index.ts:144-145 | the inner join holds exactly the user/credential pairs with `auth.userId = users.id` |
| `Queries.WhereUser` | src/auth/index.ts:146 | keeps exactly the join rows of the given user |
| `Queries.WhereMatch` | src/auth/index.ts:194-199 | keeps exactly the join rows whose name (when not null) or email matches the pattern |
| `Queries.MatchesMeaning` | src/auth/index.ts:185-199 | a search candidate is exactly the projection of a joined user/credential pair whose name or email matches `%q%` |
| `Queries.MatchIsCaseInsensitiveSubstring` | src/auth/index.ts:196-197 | for a wildcard-free term, a row matches exactly when its name or email contains the term ignoring ASCII case |
| `Queries.Limit` | src/auth/index.ts:200 | returns `min(n, count)` rows, each one drawn from the input rows (multiset inclusion) |
| `Auth.AuthStore.constructor` | src/db/schema.ts:3-35 | a store starts with four empty tables that meet every constraint |
| `Auth.AuthStore.Signup` | src/auth/index.ts:41-84 | for a password of at least 8 UTF-16 units, as validated: a known email gives 400 and no change. Otherwise, when the transaction succeeds, exactly one user row (named, stamped `now`) and one credential row are added. The credential has the new user's id, the email, the password's hash and `isVerified = false`. On a failure neither row is added. Every constraint still holds. |
| `Auth.AuthStore.Signin` | src/auth/index.ts:85-126 | `InvalidCredentials` exactly when no credential has this email and verifies this password, so an unknown email and a wrong password get the same answer; no session is inserted then. On success the returned token is the new session's, which belongs to the credential's user and expires at `now + 604800000`. No other table changes. |
| `Auth.AuthStore.Me` | src/auth/index.ts:127-153 | 401 exactly when the bearer is absent or no session with it is live. Otherwise the result is the live session's owner projected with id, name, email and createdAt, and it is always present in a valid store. |
| `Auth.AuthStore.Verify` | src/auth/index.ts:154-167 | valid exactly when a bearer is given and a session with that token is live; reads only |
| `Auth.AuthStore.Signout` | src/auth/index.ts:168-177 | with a bearer, every session carrying it is deleted and success is reported; without one, failure and no change. Other tables are untouched and every constraint holds. |
| `Auth.AuthStore.Search` | src/auth/index.ts:178-207 | no term gives no users. Otherwise `min(10, matches)` users are returned, each one a match. Reads only. |
| `Auth.SignupEnablesSignin` | src/auth/index.ts:53-102 | the credential sign-up stores passes sign-in's credential check for the same email and password, so `Signin` answers `SignedIn` unless the token or session id collides |
| `Auth.IssuedSessionLifetime` | src/auth/index.ts:111-116 | a session issued under a fresh token is live exactly until it expires; a sign-in session is live when issued and dead seven days later |
| `Wrappers.Truthy` | src/auth/index.ts:128 | a bearer or search term is absent when missing or empty, as `if (!bearer)` and `query.q \|\| ''` treat it (also :155, :169, :179-181) |
| `Like.Like` | src/auth/index.ts:196-197 | `s ILIKE p`: `%` any run, `_` one character, `\` escapes, other characters match up to ASCII case |
| `Schema.Live` | src/auth/index.ts:133 | a session is live exactly when `now < expiresAt`, the `gt(sessions.expiresAt, new Date())` condition (also :160) |
| `Schema.UsersKeyed` | src/db/schema.ts:4 | no two `users` rows share an id |
| `Schema.AuthKeyed` | src/db/schema.ts:11-13 | no two `auth` rows share an id or an email |
| `Schema.SessionsKeyed` | src/db/schema.ts:21-23 | no two `sessions` rows share an id or a token |
| `Schema.RolesKeyed` | src/db/schema.ts:29 | no two `roles` rows share an id |
| `Schema.References` | src/db/schema.ts:12-30 | every `user_id` of `auth`, `sessions` and `roles` names an existing user |
| `Schema.Consistent` | src/db/schema.ts:3-35 | all the declared key, unique and foreign-key constraints hold together |
| `Schema.OneCredentialPerUser` | src/auth/index.ts:57-70 | every user owns exactly one credential, as the sign-up transaction creates them in pairs |
| `Auth.AuthStore.Valid` | src/db/schema.ts:3-35 | the store invariant: the schema's constraints plus one credential per user |
| `Queries.IsMatch` | src/auth/index.ts:194-199 | a join row matches when its non-null name or its email is `ILIKE` the pattern |
| `Queries.View` | src/auth/index.ts:138-143 | the projection id, name, email, createdAt of a join row (also :186-191) |
| `Queries.Matches` | src/auth/index.ts:185-199 | the projected join rows the search statement selects before its limit |
| `Queries.LiveSessionFindsIt` | src/auth/index.ts:130-133 | with unique tokens, looking up a live session's token returns that very session |
| `Auth.Utf16Length` | src/auth/index.ts:80 | a string's JavaScript `.length` lies between its code-point count and twice it |
| `Auth.FourEmojiAreLongEnough` | src/auth/index.ts:80 | four emoji count as eight units, meeting `minLength: 8` |
| `Auth.SignupKeepsExpired` | src/auth/index.ts:56-70 | a token not live at `now` is still not live at any later time after sign-up |
| `Auth.SigninKeepsExpired` | src/auth/index.ts:105-116 | a token in the table but not live at `now` is still not live at any later time after sign-in |
| `Auth.SignoutKeepsExpired` | src/auth/index.ts:168-172 | a token not live at `now` is still not live at any later time after sign-out |
| `Auth.SignoutEndsSession` | src/auth/index.ts:171 | after sign-out no live session carries the token, so a later verify is false and a later me is 401 |

## Left out

- HTTP and framework wiring is not modelled: Elysia routing, swagger, and status and JSON
  serialisation. Status codes appear only as `Status()` on the result datatypes. The bearer
  plugin's header parsing is replaced by an optional string.
- Request validation: the model keeps only the sign-up password length of at least 8. It does
  not check the `format: 'email'` test, so any string is accepted as an email.
- Argon2 hashing: `Bun.password` is a foreign call, modelled as an ideal symbolic hash. Its
  cost, its constant-time comparison and malformed stored digests are not modelled.
- JWT signing: the token is an opaque parameter of `Signin`. Its claims and secret are not
  modelled.
- The clock, the `uuid` `defaultRandom()` values and the Argon2 salt are parameters.
- `Signup` uses the parameter `storeFault` to stand for any other failure inside the
  transaction, such as a lost connection.
- Failures of the other routes' database calls, other than constraint violations, are not
  modelled. Those routes would let such errors escape.
- Concurrency: the race between the email pre-check and the insert is a concurrency matter.
  The single-threaded model with the unique-email invariant stands in for the database
  constraint.
- `ILIKE` collation beyond ASCII case folding is not modelled.
- Row order is not modelled. The queries return rows in table order, and no contract depends on
  that order.
- Nullable columns with defaults (`createdAt`, `updatedAt`, `isVerified`) are modelled as
  non-null, because every insert the routes make fills them. No route changes `updatedAt`.
- The model does not track which tokens were ever issued. A token value that sign-out deleted can
  be issued again by a later sign-in. The source would do the same if `jwt.sign` returned the
  same string twice.
- Role assignment and lookup are not modelled, because no route reads or writes `roles`.
- `src/db/index.ts` is not part of this model: it only sets up the connection.
- `src/index.ts` is not part of this model: it holds middleware, environment checks and
  `listen`.
- The scripts `scripts/apply-migrations.ts`, `scripts/check-db.ts` and
  `scripts/find-woodstock.ts` are not part of this model: they perform file and database I/O.
