/**
 * The auth facade (middleware.go): the request gate, login and logout over
 * the session store. A request is modelled by its cookie jar; what a
 * handler writes back (an abort status, a cookie to set, keys attached to
 * the request context) is the `Reply` it returns.
 */
module Middleware {
  import opened Wrappers
  import opened Base64
  import opened Persistence

  /** Name of the session cookie. */
  const CookieName := "sessid"
  /** Context key under which the gate attaches the user. */
  const ContextKey := "gin-sessid"
  const Unauthorized := 401

  /** gin's `c.Cookie` error when the request has no such cookie. */
  const ErrNoCookie := Error("http: named cookie not present")
  /** `Disconnect`'s error when the cookie names no session. */
  const NotAuthenticated := Error("User was not authenticated")

  /** An incoming request, by the cookies it carries (name to value). */
  datatype Request = Request(cookies: map<string, string>)

  datatype Cookie = Cookie(name: string, value: string)

  /** What a handler wrote: abort status, cookie set on the response, context keys set. */
  datatype Reply<U> = Reply(abort: Option<nat>, setCookie: Option<Cookie>, keys: map<string, U>)

  /** A handler either returns normally or panics on the nil pointer dereference of middleware.go:75. */
  datatype Outcome<T> = Returned(value: T) | NilDereference

  /** Nothing written. */
  function Silent<U>(): Reply<U>
  {
    Reply(None, None, map[])
  }

  /** Aborted with 401 and nothing else written. */
  function Rejected<U>(): Reply<U>
  {
    Reply(Some(Unauthorized), None, map[])
  }

  /** `Auth`: the front structure, over one security module. */
  class Auth<U> {
    const sec: SecurityModule<U>

    ghost predicate Valid()
      reads sec
    {
      sec.Valid()
    }

    /** `NewAuth(authenticater)`: a fresh security module with an empty session table. */
    constructor NewAuth(authenticater: (string, string) -> Result<U, Error>)
      ensures fresh(sec) && sec.auth == authenticater && sec.sessions == map[] && Valid()
    {
      sec := new SecurityModule(authenticater);
    }

    /**
     * The handler `Middleware()` returns (the gate). No session cookie:
     * abort with 401. A cookie naming no session: abort with 401. Otherwise
     * the session's `lastUsed` becomes `now`, its user is attached under
     * `ContextKey`, and the request goes on. The table itself never changes,
     * and no other session is touched.
     */
    method Middleware(c: Request, now: nat) returns (reply: Reply<U>)
      requires Valid()
      modifies sec.sessions.Values
      ensures Valid() && sec.sessions == old(sec.sessions)
      ensures CookieName !in c.cookies ==>
        reply == Rejected() && unchanged(sec.sessions.Values)
      ensures CookieName in c.cookies && c.cookies[CookieName] !in sec.sessions ==>
        reply == Rejected() && unchanged(sec.sessions.Values)
      ensures CookieName in c.cookies && c.cookies[CookieName] in sec.sessions ==>
        var s := sec.sessions[c.cookies[CookieName]];
        && reply == Reply(None, None, map[ContextKey := s.user])
        && s.lastUsed == now
        && unchanged(sec.sessions.Values - {s})
    {
      if CookieName !in c.cookies {
        return Rejected();
      }
      var cookie := c.cookies[CookieName];
      var session := sec.GetSession(cookie);
      if session == null {
        return Rejected();
      }
      session.Update(now);
      reply := Reply(None, None, map[ContextKey := session.user]);
    }

    /**
     * `LoginWithErr(login, password, c)`. An authenticater error is
     * returned as is, with no session and no cookie. On success a session is
     * created for the user and its token set as cookie `sessid`, and the
     * user is returned. When the random read fails, `createSession` returns
     * nil and the source dereferences it: the model returns NilDereference,
     * with no session created and nothing written.
     */
    method LoginWithErr(login: string, password: string, rnd: Result<seq<byte>, Error>, now: nat)
      returns (out: Outcome<Result<U, Error>>, reply: Reply<U>)
      requires Valid()
      requires rnd.Success? ==> |rnd.value| == SessIdSize
      modifies sec
      ensures Valid()
      ensures sec.GetUser(login, password).Failure? ==>
        && out == Returned(Failure(sec.GetUser(login, password).error))
        && reply == Silent()
        && sec.sessions == old(sec.sessions)
      ensures sec.GetUser(login, password).Success? && rnd.Failure? ==>
        && out == NilDereference
        && reply == Silent()
        && sec.sessions == old(sec.sessions)
      ensures sec.GetUser(login, password).Success? && rnd.Success? ==>
        var token := Encode(rnd.value);
        && out == Returned(Success(sec.GetUser(login, password).value))
        && reply == Reply(None, Some(Cookie(CookieName, token)), map[])
        && token in sec.sessions
        && fresh(sec.sessions[token])
        && sec.sessions[token].user == sec.GetUser(login, password).value
        && sec.sessions[token].lastUsed == now
        && sec.sessions == old(sec.sessions)[token := sec.sessions[token]]
    {
      var user := sec.GetUser(login, password);
      if user.Failure? {
        return Returned(Failure(user.error)), Silent();
      }
      var sess := sec.CreateSession(user.value, rnd, now);
      if sess == null {
        return NilDereference, Silent();
      }
      reply := Reply(None, Some(Cookie(CookieName, sess.sessID)), map[]);
      out := Returned(Success(sess.user));
    }

    /**
     * `LoginWithAbort(login, password, c)`: aborts with 401 and returns nil
     * exactly when `LoginWithErr` returns an error; otherwise returns what
     * `LoginWithErr` returned, cookie included. The panic of `LoginWithErr`
     * passes through.
     */
    method LoginWithAbort(login: string, password: string, rnd: Result<seq<byte>, Error>, now: nat)
      returns (out: Outcome<Option<U>>, reply: Reply<U>)
      requires Valid()
      requires rnd.Success? ==> |rnd.value| == SessIdSize
      modifies sec
      ensures Valid()
      ensures sec.GetUser(login, password).Failure? ==>
        && out == Returned(None)
        && reply == Rejected()
        && sec.sessions == old(sec.sessions)
      ensures sec.GetUser(login, password).Success? && rnd.Failure? ==>
        && out == NilDereference
        && reply == Silent()
        && sec.sessions == old(sec.sessions)
      ensures sec.GetUser(login, password).Success? && rnd.Success? ==>
        var token := Encode(rnd.value);
        && out == Returned(Some(sec.GetUser(login, password).value))
        && reply == Reply(None, Some(Cookie(CookieName, token)), map[])
        && token in sec.sessions
        && fresh(sec.sessions[token])
        && sec.sessions[token].user == sec.GetUser(login, password).value
        && sec.sessions[token].lastUsed == now
        && sec.sessions == old(sec.sessions)[token := sec.sessions[token]]
    {
      var result, r := LoginWithErr(login, password, rnd, now);
      match result
      case NilDereference =>
        return NilDereference, r;
      case Returned(Failure(_)) =>
        return Returned(None), r.(abort := Some(Unauthorized));
      case Returned(Success(user)) =>
        return Returned(Some(user)), r;
    }

    /**
     * `Disconnect(c)`: no session cookie gives the cookie error; a cookie
     * naming no session gives "User was not authenticated"; in both cases
     * the table is unchanged. Otherwise exactly that token's session is
     * deleted and there is no error. The client's cookie is left as it is.
     */
    method Disconnect(c: Request) returns (err: Option<Error>)
      requires Valid()
      modifies sec
      ensures Valid()
      ensures CookieName !in c.cookies ==>
        err == Some(ErrNoCookie) && sec.sessions == old(sec.sessions)
      ensures CookieName in c.cookies && c.cookies[CookieName] !in old(sec.sessions) ==>
        err == Some(NotAuthenticated) && sec.sessions == old(sec.sessions)
      ensures CookieName in c.cookies && c.cookies[CookieName] in old(sec.sessions) ==>
        err == None && sec.sessions == old(sec.sessions) - {c.cookies[CookieName]}
    {
      if CookieName !in c.cookies {
        return Some(ErrNoCookie);
      }
      var cookie := c.cookies[CookieName];
      var session := sec.GetSession(cookie);
      if session == null {
        return Some(NotAuthenticated);
      }
      sec.DeleteSession(cookie);
      err := None;
    }
  }
}
