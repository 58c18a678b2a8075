/**
 * End-to-end runs of the facade, as client code: what a caller can
 * conclude from the contracts of middleware.go and persistence.go alone,
 * with any authenticater and with the database authenticater of
 * db/dbAuth.go plugged in.
 */
module Scenarios {
  import opened Wrappers
  import opened Base64
  import opened Persistence
  import opened Middleware
  import opened Users
  import opened Security
  import opened DbAuth

  /** The request a browser sends back after a reply that set `cookie`. */
  function Echo(cookie: Cookie): (c: Request)
    ensures cookie.name in c.cookies && c.cookies[cookie.name] == cookie.value
  {
    Request(map[cookie.name := cookie.value])
  }

  /**
   * Successful login, then a gated request carrying the cookie it set: the
   * request is admitted and sees the logged-in user.
   */
  method LoginThenGate<U>(auth: Auth<U>, login: string, password: string, rnd: seq<byte>, t0: nat, t1: nat)
    returns (user: U, reply: Reply<U>)
    requires auth.Valid() && |rnd| == SessIdSize
    requires auth.sec.GetUser(login, password).Success?
    modifies auth.sec, auth.sec.sessions.Values
    ensures user == auth.sec.GetUser(login, password).value
    ensures reply == Reply(None, None, map[ContextKey := user])
  {
    var out, r := auth.LoginWithErr(login, password, Success(rnd), t0);
    user := out.value.value;
    reply := auth.Middleware(Echo(r.setCookie.value), t1);
  }

  /** A wrong password (any authenticater error): no cookie, no session, and the error comes back. */
  method FailedLogin<U>(auth: Auth<U>, login: string, password: string, rnd: Result<seq<byte>, Error>, now: nat)
    returns (out: Outcome<Result<U, Error>>, reply: Reply<U>)
    requires auth.Valid() && (rnd.Success? ==> |rnd.value| == SessIdSize)
    requires auth.sec.GetUser(login, password).Failure?
    modifies auth.sec
    ensures out == Returned(Failure(auth.sec.GetUser(login, password).error))
    ensures reply.setCookie.None? && auth.sec.sessions == old(auth.sec.sessions)
  {
    out, reply := auth.LoginWithErr(login, password, rnd, now);
  }

  /** A gated request with no cookie, or with a token never issued, is rejected with 401. */
  method GateRejectsStrangers<U>(auth: Auth<U>, token: string, now: nat)
    returns (noCookie: Reply<U>, unknown: Reply<U>)
    requires auth.Valid() && token !in auth.sec.sessions
    modifies auth.sec.sessions.Values
    ensures noCookie == Rejected() && unknown == Rejected()
  {
    noCookie := auth.Middleware(Request(map[]), now);
    unknown := auth.Middleware(Request(map[CookieName := token]), now);
  }

  /** Login, logout, then a gated request reusing the old cookie: rejected with 401. */
  method LoginLogoutGate<U>(auth: Auth<U>, login: string, password: string, rnd: seq<byte>, t0: nat, t1: nat)
    returns (err: Option<Error>, reply: Reply<U>)
    requires auth.Valid() && |rnd| == SessIdSize
    requires auth.sec.GetUser(login, password).Success?
    modifies auth.sec, auth.sec.sessions.Values
    ensures err == None
    ensures reply == Rejected()
  {
    var out, r := auth.LoginWithErr(login, password, Success(rnd), t0);
    var c := Echo(r.setCookie.value);
    err := auth.Disconnect(c);
    reply := auth.Middleware(c, t1);
  }

  /**
   * The facade over the database authenticater: a row holding the login
   * and the hash of the given password logs in, and the gate then exposes
   * exactly that row.
   */
  method DatabaseLogin(sha: Sha512, rows: seq<UserRecord>, lookForMail: bool, login: string, password: string,
                       i: nat, rnd: seq<byte>, t0: nat, t1: nat)
    returns (reply: Reply<UserRecord>)
    requires i < |rows| && LoginOf(rows[i], lookForMail) == login
    requires forall j :: 0 <= j < i ==> LoginOf(rows[j], lookForMail) != login
    requires rows[i].hash == ComputeHash(sha, password, rows[i].salt)
    requires |rnd| == SessIdSize
    ensures reply == Reply(None, None, map[ContextKey := rows[i]])
  {
    var db := new DbAuthenticater(rows, lookForMail);
    var auth := new Auth.NewAuth(db.AsAuthenticater(sha));
    KnownLoginAuthenticates(sha, rows, lookForMail, login, password, i);
    var user;
    user, reply := LoginThenGate(auth, login, password, rnd, t0, t1);
  }

  /** The facade over the database authenticater: an unknown login gets the generic error and no session. */
  method DatabaseUnknownLogin(sha: Sha512, rows: seq<UserRecord>, lookForMail: bool, login: string, password: string,
                              rnd: seq<byte>, now: nat)
    returns (out: Outcome<Result<UserRecord, Error>>, reply: Reply<UserRecord>)
    requires forall j :: 0 <= j < |rows| ==> LoginOf(rows[j], lookForMail) != login
    requires |rnd| == SessIdSize
    ensures out == Returned(Failure(InvalidAttempt)) && reply.setCookie.None?
  {
    var db := new DbAuthenticater(rows, lookForMail);
    var auth := new Auth.NewAuth(db.AsAuthenticater(sha));
    UnknownLoginFails(sha, rows, lookForMail, login, password);
    out, reply := auth.LoginWithErr(login, password, Success(rnd), now);
    assert auth.sec.sessions == map[];
  }
}
