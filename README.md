# gin-authent session authentication, modelled in Dafny

This project models the core of gin-authent, a cookie-based session
authentication layer for gin HTTP services:

- the **password module** (`db/security.go`): salt generation, the salted
  digest `base64(SHA-512(salt ++ password))`, setting a password on a user
  record in place, and checking a password against a record;
- the **database authenticater** (`db/dbAuth.go`): look a user up by mail or
  by username, then check the password, with one generic error for an
  unknown login and a wrong password alike;
- the **session store** (`persistence.go`): a table from session token to
  `Session`, with lookup, creation from 32 random bytes, unconditional
  deletion, and the `update` that refreshes `lastUsed`;
- the **auth facade** (`middleware.go`): the request gate, login with the
  error returned or with a 401 abort, and disconnect.

Modules and files:

| file | module | models |
|---|---|---|
| wrappers.dfy | Wrappers | Option, Result, and a Go `error` as its message |
| base64.dfy | Base64 | `base64.StdEncoding.EncodeToString` (section 4 of RFC 4648), a decoder, the round trip |
| users.dfy | Users | the `User` struct: `UserRecord` (its value, a table row) and the class `User` |
| security.dfy | Security | db/security.go |
| dbauth.dfy | DbAuth | db/dbAuth.go |
| persistence.dfy | Persistence | persistence.go |
| middleware.dfy | Middleware | middleware.go |
| scenarios.dfy | Scenarios | end-to-end client runs of the facade |

How the environment appears in the model:

- SHA-512 applied to the bytes of a string is the parameter `sha` of type
  `Security.Sha512`: any function whose every output is 64 bytes. Determinism
  is that it is a function; nothing else about it is used.
- Base64 is written out, with a decoder beside it. `Encode`'s own contract
  gives the lengths (88 characters for a hash, 44 for a token, 24 for a
  salt); the round trip `Decode(Encode(b)) == Some(b)` gives injectivity.
- `crypto/rand` is the parameter `rnd`: the bytes read (exactly as many as
  asked for) or the error returned.
- `time.Now()` is the parameter `now: nat`.
- The `Authenticater` interface is the function value `SecurityModule.auth`,
  fixed when `NewAuth` builds the module; `getUser` (`SecurityModule.GetUser`)
  is that function applied, and the facade contracts speak through it.
- The user behind a session is opaque to the store and the facade: they are
  generic over its type `U`. Plugged into the database authenticater
  (`DbAuthenticater.AsAuthenticater`), `U` is `UserRecord`.
- The database is the users table as a sequence of `UserRecord` rows in
  primary-key order; `Where(column = login).First(res)` finds the first row
  whose column equals `login` (`DbAuth.Find`) and copies it into `res`
  (`User.Load`); a miss leaves `res` at the zero `User{}`.
- A gin context is split into the request, given by its cookie jar
  (`Middleware.Request`), and what a handler writes, returned as a `Reply`:
  the abort status, the cookie set, and the keys set on the context.

Behaviour of the code that the model keeps:

- `createSession` does not check that the new token is absent from the
  table. `CreateSession` overwrites whatever was stored under the token; its
  contract says the table grows by one when the token was new, and
  `EncodeInjective` says distinct random draws give distinct tokens.
- `LoginWithErr` uses the result of `createSession` without a nil check
  (middleware.go:74-75), and `createSession` returns nil when the random
  read fails (persistence.go:49-51). The model returns `NilDereference` in
  that case, with no session created and nothing written;
  `LoginWithAbort` passes that outcome through.
- db/dbAuth.go:32 passes the `*User` to `checkUser`, whose parameter is a
  `reflect.Value`. The model follows the evident intent: the fetched
  record's `salt` and `hash` are checked.
- `Session.user` and `Session.sessID` are written only when a session is
  built, so they are `const` fields; `Update` can change only `lastUsed`.

## Model

| member | source | states |
|---|---|---|
| Base64.Encode | persistence.go:53-54 | the encoding of n bytes is 4 * ceil(n / 3) characters long |
| Base64.DecodeEncode | persistence.go:54 | decoding the encoding of any byte string gives that byte string back |
| Base64.EncodeInjective | persistence.go:47-54 | two byte strings with the same encoding are equal, so distinct random draws give distinct session tokens |
| Security.ComputeHash | db/security.go:15-19 | the hash is 88 characters (never empty) and decodes to the SHA-512 digest of salt ++ password |
| Security.HashOfConcatenation | db/security.go:16 | two (password, salt) pairs with the same salt ++ password have the same hash |
| Security.HashBoundaryExample | db/security.go:15-19 | computeHash("c", "ab") == computeHash("bc", "a") |
| Security.GenerateSalt | db/security.go:25-32 | a failed random read gives its error; otherwise a 24-character text that decodes to the 16 random bytes |
| Security.CheckUser | db/security.go:54-62 | (true, nil) exactly when the hash of the password under the record's salt equals the record's hash, otherwise (false, the generic error) |
| Security.MalformedHashNeverVerifies | db/security.go:55-61 | a record whose hash is not 88 characters long, in particular an empty one, fails every check with the generic error |
| Security.ZeroUserNeverVerifies | db/dbAuth.go:25 | the zero `User{}` fails the check for every password |
| Security.SetUserPassword | db/security.go:39-50 | a failed salt leaves the user unchanged and returns the random error; otherwise salt := the new salt, hash := its hash of the new password, every other field unchanged, and the new password then checks |
| Users.User.constructor | db/dbAuth.go:25 | a new `User{}` has every field at its zero value |
| Users.User.Load | db/dbAuth.go:27 | after the lookup fills the struct, it holds exactly the row found |
| DbAuth.Find | db/dbAuth.go:26-30 | finds the first row whose mail (when `lookForMail`) or username equals the login, or reports that no row does |
| DbAuth.Fetch | db/dbAuth.go:25-30 | the record looked up is the first matching row, or the zero record on a miss |
| DbAuth.Authenticated | db/dbAuth.go:24-37 | succeeds exactly when the fetched record checks, and then returns that record, found under the login; fails with the generic error otherwise |
| DbAuth.UnknownLoginFails | db/dbAuth.go:25-35 | a login held by no row fails with the same error a wrong password gives |
| DbAuth.KnownLoginAuthenticates | db/dbAuth.go:26-36 | the first row holding the login, with the right password, is returned |
| DbAuth.DbAuthenticater.constructor | db/dbAuth.go:15-21 | holds the given database and lookup flag |
| DbAuth.DbAuthenticater.Authenticate | db/dbAuth.go:24-37 | on success returns a fresh struct holding the record `Authenticated` gives; otherwise returns its error |
| DbAuth.DbAuthenticater.AsAuthenticater | db/dbAuth.go:32-36 | as the facade's authenticater: every user it returns is a row of the database held under the given login (mail or username as the flag says); every failure is the generic error |
| Persistence.Session.constructor | persistence.go:56 | the session holds the given user, token and last-use time |
| Persistence.Session.Update | persistence.go:19-21 | only `lastUsed` changes, to the current time |
| Persistence.SecurityModule.constructor | middleware.go:24-25 | keeps the authenticater; the session table starts empty |
| Persistence.SecurityModule.GetUser | persistence.go:32-34 | the authenticater's answer for (login, password), passed on unchanged |
| Persistence.SecurityModule.GetSession | persistence.go:37-43 | returns the stored session exactly when the token is in the table, null otherwise; the session found carries that token |
| Persistence.SecurityModule.CreateSession | persistence.go:46-60 | a failed random read gives null and an unchanged table; otherwise a fresh session for the user, last used now, under the base64 token of the random bytes (44 characters, decoding to them), every other entry unchanged, and one more entry when the token was new |
| Persistence.SecurityModule.DeleteSession | persistence.go:63-65 | the token's entry is removed if present, nothing else changes, and a lookup of the token then gives null |
| Persistence.DeleteTwice | persistence.go:63-65 | deleting a token twice leaves the table deleting it once leaves |
| Middleware.Auth.NewAuth | middleware.go:23-26 | a fresh security module with the given authenticater and no sessions |
| Middleware.Auth.Middleware | middleware.go:29-52 | no cookie or a cookie naming no session: 401 and no state change; otherwise no abort, that session's lastUsed becomes now, its user is attached under `ContextKey`, and no other session changes |
| Middleware.Auth.LoginWithErr | middleware.go:67-77 | an authenticater error is returned with no session and no cookie; on success a new session for the user, cookie `sessid` set to its token, the user returned; a failed random read ends in the nil dereference with no session |
| Middleware.Auth.LoginWithAbort | middleware.go:55-64 | exactly when login fails: 401 and nil; otherwise the user and the cookie as in `LoginWithErr` |
| Middleware.Auth.Disconnect | middleware.go:80-96 | no cookie, or a cookie naming no session: an error and an unchanged table; otherwise exactly that token is removed and no error |
| Scenarios.LoginThenGate | middleware.go:40-76 | after a successful login, a request carrying the cookie it set is admitted and sees the logged-in user |
| Scenarios.FailedLogin | middleware.go:68-72 | a failed authentication returns its error, sets no cookie and creates no session |
| Scenarios.GateRejectsStrangers | middleware.go:31-44 | a request with no cookie, or with a token never issued, is rejected with 401 |
| Scenarios.LoginLogoutGate | middleware.go:40-95 | login, then disconnect, then the same cookie is rejected with 401 |
| Scenarios.DatabaseLogin | db/dbAuth.go:24-37 | over the database authenticater, the right password logs in and the gate exposes exactly the user's row |
| Scenarios.DatabaseUnknownLogin | db/dbAuth.go:25-35 | over the database authenticater, an unknown login gets the generic error and no cookie |

## Left out

- The gin framework: cookie attributes (max age, path, host, secure,
  http-only), the URL escaping gin applies to cookie values, `c.Request.Host`,
  and gin's recovery from a panic. These are HTTP plumbing around the state
  the model tracks.
- gorm query execution and `gorm.Model` (id, timestamps, deletion), the
  column indexes, and the error `First` returns on a miss (the source ignores it).
- SHA-512 internals and the UTF-8 conversion of `salt + password` to bytes:
  both are folded into the parameter `sha`. Its collision resistance is not
  modelled, so the model cannot show that a wrong or old password fails
  against a given record, only that an unknown login does.
- Randomness and the clock, which are parameters. Nothing makes successive
  `now` values increase, so `Update` setting `lastUsed` to a later time is a
  property of the caller's clock, not of the model.
- Aliasing of the user over the database: the source's `Authenticate`
  returns the `*User` it filled in, the session stores that pointer and the
  gate hands the same pointer to handlers. Over the database authenticater
  the model's session stores a copy of the row (`UserRecord`), not the
  pointer, so later in-place changes made through the context's user (such
  as `SetUserPassword`) are not seen by the session.
- Concurrency: the source's session map has no lock; the model is sequential.
- Reflection: `SetUserPassword` and `checkUser` work on any struct with
  `Salt` and `Hash` fields through reflection; the model fixes the `User`
  struct of db/dbAuth.go.
- Session expiry, which the source does not implement.
- Security.GenerateSalt: Go returns `("", err)` on failure; the model returns
  `Failure(err)` and carries no string.
