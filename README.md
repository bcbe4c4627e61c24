# sso: verified model of the authentication core

This project models the decision logic of a single-sign-on service written
in Go: the authentication service (`Register`, `Login`, `IsAdmin`), the
SQLite credential store behind it (`SaveUser`, `User`, `App`, `IsAdmin`) and
the JSON Web Token issuer (`NewToken`). It then proves, in Dafny, the
error-translation policy and the token contents the service promises.

Modules, one per source component:

- `Errors` (`errors.dfy`): Go's `(value, error)` result pair as `Ret<T>`.
  An error is described by the sentinel `errors.Is` matches
  (`UserExists`, `UserNotFound`, `AppNotFound`, `InvalidCredentials`, or
  `Other` for anything unclassified) together with the chain of operation
  names that `fmt.Errorf("%s: %w", op, err)` wrapped around it.
- `Bcrypt` (`bcrypt.dfy`): password hashing as a symbolic digest. A
  digest records the cost, the salt and the password it was made from. The
  service relies on one fact only: a fresh hash matches its own password.
- `Models` (`models.dfy`): the `User` and `App` records and their Go zero
  values.
- `Jwt` (`jwt.dfy`): the claim set `{uid, email, app_id, exp}` of RFC 7519,
  built exactly, with `exp` the whole second of `now + duration`
  (`exp` is section 4.1.4 of RFC 7519). The HS256 signature (section 3.2 of
  RFC 7518) is a symbolic term over key, header and claims. `Verify` is what
  a holder of a key recovers from a token.
- `Sqlite` (`sqlite.dfy`): the store as a class. It holds a `users` map
  keyed by the auto-assigned id, an `apps` map keyed by id, and the next id
  to assign. `Valid()` is its invariant: ids are positive and below the
  counter, no two users share an email (the `UNIQUE` constraint), and every
  app sits under its own id. `SaveUser` is a method that modifies the
  store. The three queries are functions that read it, so by construction
  they change neither table.
- `Auth` (`auth.dfy`): the service as a class over one `Storage`, since the
  process wires the same store into all three store roles. `Register` is a
  method that modifies the store. `Login` and `IsAdmin` are functions of the
  store state, the clock reading and the collaborator outcomes.
  `RegisterLoginScenario` replays the register/login round trip of the
  service's integration tests on a fresh store.

Inputs the code takes from its environment are parameters:

- the clock: `now`, in nanoseconds since the Unix epoch;
- the hashing outcome: `Some(salt)` for a digest made with that salt, `None` when hashing failed;
- whether each store statement failed in the driver: `ioFault`;
- whether the token signer failed: `Faults.signing`.

## Model

| member | source | states |
|---|---|---|
| `Errors.Wrap` | iternal/services/auth/auth.go:61 | wrapping an error with an operation name keeps its kind, so `errors.Is` still matches the same sentinel, and puts that name in front of the error's chain |
| `Bcrypt.GenerateFromPassword` | iternal/services/auth/auth.go:58-62 | hashing fails exactly when the salt cannot be drawn; it then yields the nil hash and an unclassified error |
| `Bcrypt.GeneratedHashMatches` | iternal/services/auth/auth.go:58 | a hash generated from a password verifies against that password, whatever the salt |
| `Bcrypt.CompareHashAndPassword` | iternal/services/auth/auth.go:97 | a nil hash matches no password. A default-cost digest matches a password exactly when generating from that password with the digest's salt yields that digest |
| `Bcrypt.GeneratedHashRejectsOthers` | iternal/services/auth/auth.go:97-100 | in the symbolic digest model, a generated hash verifies against no other password. Real bcrypt does not promise this beyond 72 bytes; see Left out |
| `Jwt.Unix` | iternal/lib/jwt/jwt.go:16 | `Unix()` of an instant is the whole second containing it: `s*1e9 <= t < (s+1)*1e9` |
| `Jwt.NewClaims` | iternal/lib/jwt/jwt.go:12-16 | the claim set has exactly the keys uid, email, app_id and exp. uid is the user's id, email is the user's email, app_id is the app's id, and exp is the second in which `now + duration` falls |
| `Jwt.Verify` | tests/auth_register_login_test.go:51-53 | a token verifies only under the key it was signed with, and only when its algorithm is HS256. A verified token yields the claims it carries |
| `Jwt.SignedString` | iternal/lib/jwt/jwt.go:18-21 | signing succeeds unless the signer fails; on failure the token is empty |
| `Jwt.NewToken` | iternal/lib/jwt/jwt.go:9-24 | the token is issued unless signing fails; on failure `NewToken` returns the empty token and an unclassified error |
| `Jwt.NewTokenClaims` | iternal/lib/jwt/jwt.go:10-18 | the issued token verifies under the app's secret. Its claims have exactly the keys uid, email, app_id and exp. They hold the user's id and email, the app's id, and the second in which `now + duration` falls |
| `Jwt.NewTokenRejectsOtherKey` | iternal/lib/jwt/jwt.go:18 | under any key other than the app's secret, the issued token verifies to nothing |
| `Jwt.ExpWithinOneSecond` | tests/auth_register_login_test.go:72-74 | the exp claim that the app's secret recovers from the issued token is within one second of the expiry a verifier computes from its own clock. This holds when the verifier reads its clock at most a second after issuance |
| `Sqlite.Storage.constructor` | iternal/storage/sqlite/sqlite.go:40-49 | opening a database gives a store that holds exactly the tables already in it and satisfies the invariant. Those tables may include users with admin flags |
| `Sqlite.Storage.SaveUser` | iternal/storage/sqlite/sqlite.go:51-77 | the invariant, and so email uniqueness, is preserved. A taken email gives `(0, UserExists)` and a driver fault gives `(0, Other)`; both leave the tables unchanged. A fresh email adds exactly the row `(email, hash, is_admin=false)` under a new id, which differs from every existing id and is returned |
| `Sqlite.Storage.User` | iternal/storage/sqlite/sqlite.go:79-100 | when a row holds the email, returns that row's id, email and hash (the email equals the query). Otherwise returns the zero `User` with `UserNotFound`, or with `Other` on a driver fault |
| `Sqlite.Storage.App` | iternal/storage/sqlite/sqlite.go:18-38 | returns the app row stored under the id. Otherwise returns the zero `App` with `AppNotFound`, or with `Other` on a driver fault |
| `Sqlite.Storage.IsAdmin` | iternal/storage/sqlite/sqlite.go:102-122 | returns the stored `is_admin` flag. A missing user id gives `false` with `AppNotFound`, as the code has it |
| `Sqlite.Storage.UserFindsRow` | iternal/storage/sqlite/sqlite.go:79-100 | looking up a stored row's email returns exactly that row's id, email and hash |
| `Auth.Auth.constructor` | iternal/services/auth/auth.go:41-49 | the service keeps the store and the token lifetime it is given |
| `Auth.Auth.Register` | iternal/services/auth/auth.go:51-77 | any failure returns id 0 and leaves the store unchanged; this includes a hashing failure, where the store is never called. A taken email keeps the `UserExists` kind. Success returns exactly the id the store assigned, which is positive and fresh. It adds exactly one row, whose hash matches the password, and advances the id counter by one |
| `Auth.Auth.Login` | iternal/services/auth/auth.go:79-117 | every failure returns the empty token. The error is `InvalidCredentials` exactly when the user query ran and no stored user has this email with a matching hash. User-query faults, app-query faults and signing failures are each passed on wrapped. Login succeeds exactly when the credentials match, the app exists and nothing fails |
| `Auth.Auth.IsAdmin` | iternal/services/auth/auth.go:119-139 | succeeds exactly when the user row exists and there is no fault, and then returns its flag unchanged. Otherwise it returns `false` and the store's error wrapped, with the kind unchanged |
| `Auth.Auth.LoginUnknownEmail` | iternal/services/auth/auth.go:86-95 | an unknown email gives `InvalidCredentials` and the empty token. The result does not depend on the app id, the app lookup, the signer or the clock, so no app is looked up |
| `Auth.Auth.LoginWrongPassword` | iternal/services/auth/auth.go:97-100 | a stored email with a password its hash rejects gives the same `InvalidCredentials` result, again independent of the application |
| `Auth.Auth.LoginHidesWhichCredentialFailed` | iternal/services/auth/auth.go:86-100 | the unknown-email result and the wrong-password result are the same value |
| `Auth.Auth.LoginMissingApp` | iternal/services/auth/auth.go:102-106 | valid credentials for a missing app give the store's `AppNotFound` error wrapped, never `InvalidCredentials` |
| `Auth.RegisterThenLogin` | iternal/services/auth/auth.go:51-116 | registering a fresh email and logging in with the same password for a provisioned app adds exactly one row and returns the new id. `Login` succeeds and returns exactly that token. The app's secret verifies the token to that id, that email, the app's id and `exp = Unix(now + tokenTTL)` |
| `Auth.Auth.LoginIssuesToken` | iternal/services/auth/auth.go:108-116 | valid credentials for a provisioned app return the token built from the stored user, that app, `tokenTTL` and `now`. The app's secret verifies it to claims naming the user's id and email, the app's id and `exp = Unix(now + tokenTTL)` |

The model follows the code where the two readings of the service differ:

- A missing user in `IsAdmin` is reported with the application-not-found
  sentinel. It is not given an account-specific kind.
- `Register` returns the bare `UserExists` sentinel wrapped only in its own
  operation name. Every other store error keeps the store's wrapping.

## Left out

- Transport, process start-up, configuration loading, migrations and all
  logging are outside this model. `Storage.New` opening the database file is
  replaced by a constructor that receives the tables the database holds.
  No operation here sets `is_admin`; only such pre-existing rows can carry
  `true`.
- Bcrypt.GeneratedHashRejectsOthers: holds only for the symbolic digest.
  Real bcrypt uses at most the first 72 bytes of a password. So the hash of
  a 72-byte password `p` also matches `p` followed by more bytes, and the
  real `Login` accepts such a password where the model returns
  `InvalidCredentials`.
- Auth.Auth.Register: the model does not decide which passwords bcrypt
  refuses. Current bcrypt refuses passwords longer than 72 bytes, so the
  source's `Register` returns id 0 and an error for them. The model
  reaches that outcome only when the caller passes `None` for the hashing
  outcome. With `Some(salt)` it registers such a password, and
  `RegisterThenLogin` completes a round trip the source does not have.
- bcrypt and HMAC-SHA256 are symbolic. A digest and a signature are terms
  that record their inputs, so one-wayness, bcrypt's cost schedule, its
  72-byte password limit, base64url and the compact JWT serialization are
  not modelled.
- `Jwt.Verify` checks the algorithm and the signature only. The library's
  parse-time checks of `exp` against the verifier's clock are not modelled.
- Driver-level failures are one `ioFault` flag per call. This covers
  statement preparation, execution errors other than the unique constraint,
  `Scan` errors, context cancellation and a failing `LastInsertId`. A
  faulting call changes nothing, so an insert that ran before
  `LastInsertId` failed is not modelled.
- Error message text is not modelled, only the sentinel kind and the chain
  of operation names. The "user already exists" suffix of the store's
  message is one example.
- Integer widths are not modelled. Ids, `time.Duration` and the clock are
  unbounded integers, so int64 overflow of the id counter or of
  `now + duration` is not represented.
- The application secret and the password stay strings. Their conversion to
  byte slices is injective and does not affect any property stated here.
- The refusals of empty emails and empty passwords are made by the request
  handler in front of the service, so they are not part of this model.
