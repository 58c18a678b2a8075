/**
 * The session store (persistence.go): a table from session token to
 * `Session`, held by the security module together with the authenticater
 * it delegates logins to. The clock is the parameter `now`; the random
 * source is the parameter `rnd` (the bytes `rand.Read` produced, or its
 * error).
 */
module Persistence {
  import opened Wrappers
  import opened Base64

  /** Token length in random bytes (persistence.go:9). */
  const SessIdSize := 32

  /**
   * A backend session. `user` and `sessID` are written only when the
   * session is built, so they are constants here; `lastUsed` is updated in
   * place on every authenticated request.
   */
  class Session<U> {
    const user: U
    const sessID: string
    var lastUsed: nat

    constructor (user: U, sessID: string, now: nat)
      ensures this.user == user && this.sessID == sessID && lastUsed == now
    {
      this.user := user;
      this.sessID := sessID;
      lastUsed := now;
    }

    /** `update()`: only `lastUsed` changes, to the current time. */
    method Update(now: nat)
      modifies this
      ensures lastUsed == now
    {
      lastUsed := now;
    }
  }

  /** `securityModule`: the authenticater and the session table. */
  class SecurityModule<U> {
    /** The `Authenticater`: login and password to a user, or an error. */
    const auth: (string, string) -> Result<U, Error>
    var sessions: map<string, Session<U>>

    /** Every session is stored under its own token. */
    ghost predicate Valid()
      reads this
    {
      forall t :: t in sessions ==> sessions[t].sessID == t
    }

    constructor (auth: (string, string) -> Result<U, Error>)
      ensures this.auth == auth && sessions == map[] && Valid()
    {
      this.auth := auth;
      sessions := map[];
    }

    /** `getUser(login, password)`: the authenticater's answer, unchanged. */
    function GetUser(login: string, password: string): (r: Result<U, Error>)
      ensures r == auth(login, password)
    {
      auth(login, password)
    }

    /**
     * `getSession(cookie)`: the session stored under `cookie`, or null when
     * there is none. Being a function, it changes nothing.
     */
    function GetSession(cookie: string): (s: Session?<U>)
      reads this
      ensures s != null <==> cookie in sessions
      ensures s != null ==> s == sessions[cookie]
      ensures Valid() && s != null ==> s.sessID == cookie
    {
      if cookie in sessions then sessions[cookie] else null
    }

    /**
     * `createSession(user)`: on a failed random read, null and an unchanged
     * table. Otherwise a fresh session for `user`, last used `now`, whose
     * token is the base64 text of the 32 random bytes (it decodes back to
     * them), stored under that token with every other entry unchanged. The
     * source does not check that the token is new: when it is, the table
     * grows by one; when it is not, the old session under it is replaced.
     */
    method CreateSession(user: U, rnd: Result<seq<byte>, Error>, now: nat) returns (s: Session?<U>)
      requires Valid()
      requires rnd.Success? ==> |rnd.value| == SessIdSize
      modifies this
      ensures Valid()
      ensures rnd.Failure? ==> s == null && sessions == old(sessions)
      ensures rnd.Success? ==>
        && s != null && fresh(s)
        && s.sessID == Encode(rnd.value) && s.user == user && s.lastUsed == now
        && sessions == old(sessions)[s.sessID := s]
        && GetSession(s.sessID) == s
        && Decode(s.sessID) == Some(rnd.value)
        && |s.sessID| == 44
      ensures rnd.Success? && Encode(rnd.value) !in old(sessions) ==> |sessions| == |old(sessions)| + 1
    {
      if rnd.Failure? {
        return null;
      }
      var sessID := Encode(rnd.value);
      DecodeEncode(rnd.value);
      s := new Session(user, sessID, now);
      ghost var before := sessions;
      sessions := sessions[sessID := s];
      assert sessID !in before ==> sessions.Keys == before.Keys + {sessID};
    }

    /** `deleteSession(cookie)`: the entry under `cookie` is gone if it was there; nothing else changes. */
    method DeleteSession(cookie: string)
      requires Valid()
      modifies this
      ensures Valid()
      ensures sessions == old(sessions) - {cookie}
      ensures GetSession(cookie) == null
      ensures cookie !in old(sessions) ==> sessions == old(sessions)
      ensures cookie in old(sessions) ==> |sessions| == |old(sessions)| - 1
    {
      sessions := sessions - {cookie};
    }
  }

  /** Deleting twice leaves the same table as deleting once. */
  method DeleteTwice<U>(sec: SecurityModule<U>, cookie: string)
    requires sec.Valid()
    modifies sec
    ensures sec.Valid() && sec.sessions == old(sec.sessions) - {cookie}
  {
    sec.DeleteSession(cookie);
    ghost var once := sec.sessions;
    sec.DeleteSession(cookie);
    assert sec.sessions == once;
  }
}
