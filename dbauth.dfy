/**
 * The database authenticater (db/dbAuth.go). The database is the sequence
 * of rows of the users table in primary-key order, so that gorm's
 * `Where(column = ?, login).First(res)` is "the first row whose column
 * equals `login`", and a miss leaves `res` at its zero value.
 */
module DbAuth {
  import opened Wrappers
  import opened Users
  import opened Security

  /** The column the lookup filters on: `mail` when `lookForMail`, `username` otherwise. */
  function LoginOf(row: UserRecord, lookForMail: bool): string
  {
    if lookForMail then row.mail else row.username
  }

  /** Index of the first row whose login column is `login`, if any. */
  function Find(rows: seq<UserRecord>, lookForMail: bool, login: string): (i: Option<nat>)
    ensures i.Some? ==> i.value < |rows| && LoginOf(rows[i.value], lookForMail) == login
    ensures i.Some? ==> forall j :: 0 <= j < i.value ==> LoginOf(rows[j], lookForMail) != login
    ensures i.None? ==> forall j :: 0 <= j < |rows| ==> LoginOf(rows[j], lookForMail) != login
    decreases |rows|
  {
    if |rows| == 0 then None
    else if LoginOf(rows[0], lookForMail) == login then Some(0)
    else
      match Find(rows[1..], lookForMail, login)
      case None => None
      case Some(k) => Some(k + 1)
  }

  /** The value of `res` after the lookup: the row found, or the zero `User{}`. */
  function Fetch(rows: seq<UserRecord>, lookForMail: bool, login: string): (res: UserRecord)
    ensures Find(rows, lookForMail, login).None? ==> res == ZeroUser
    ensures Find(rows, lookForMail, login).Some? ==> res == rows[Find(rows, lookForMail, login).value]
  {
    match Find(rows, lookForMail, login)
    case None => ZeroUser
    case Some(i) => rows[i]
  }

  /**
   * What `Authenticate(login, password)` returns: the fetched record when it
   * checks against `password`, the generic error otherwise. A record is
   * returned only for a login that some row holds.
   */
  function Authenticated(sha: Sha512, rows: seq<UserRecord>, lookForMail: bool, login: string, password: string)
    : (r: Result<UserRecord, Error>)
    ensures r.Success? <==> CheckUser(sha, Fetch(rows, lookForMail, login), password).0
    ensures r.Success? ==> Find(rows, lookForMail, login).Some? && r.value == Fetch(rows, lookForMail, login)
    ensures r.Success? ==> LoginOf(r.value, lookForMail) == login && r.value in rows
    ensures r.Failure? ==> r.error == InvalidAttempt
  {
    var res := Fetch(rows, lookForMail, login);
    var check := CheckUser(sha, res, password);
    ZeroUserNeverVerifies(sha, password);
    if check.1.Some? then Failure(check.1.value) else Success(res)
  }

  /** A login no row holds never authenticates, and fails with the same error as a wrong password. */
  lemma UnknownLoginFails(sha: Sha512, rows: seq<UserRecord>, lookForMail: bool, login: string, password: string)
    requires forall j :: 0 <= j < |rows| ==> LoginOf(rows[j], lookForMail) != login
    ensures Authenticated(sha, rows, lookForMail, login, password) == Failure(InvalidAttempt)
  {
  }

  /** The first row holding the login, with the right password, authenticates as that row. */
  lemma KnownLoginAuthenticates(sha: Sha512, rows: seq<UserRecord>, lookForMail: bool, login: string, password: string, i: nat)
    requires i < |rows| && LoginOf(rows[i], lookForMail) == login
    requires forall j :: 0 <= j < i ==> LoginOf(rows[j], lookForMail) != login
    requires rows[i].hash == ComputeHash(sha, password, rows[i].salt)
    ensures Authenticated(sha, rows, lookForMail, login, password) == Success(rows[i])
  {
  }

  /** The `DbAuthenticater` struct: the database (its users table) and the lookup flag. */
  class DbAuthenticater {
    const db: seq<UserRecord>
    const lookForMail: bool

    constructor (db: seq<UserRecord>, lookForMail: bool)
      ensures this.db == db && this.lookForMail == lookForMail
    {
      this.db := db;
      this.lookForMail := lookForMail;
    }

    /**
     * `Authenticate(login, password)`: a fresh zero `User`, filled in place
     * by the lookup, then checked. Returns that struct when the check
     * succeeds and the check's error otherwise, as `Authenticated` says.
     */
    method Authenticate(sha: Sha512, login: string, password: string) returns (r: Result<User, Error>)
      ensures match Authenticated(sha, db, lookForMail, login, password)
        case Success(row) => r.Success? && fresh(r.value) && r.value.Record() == row
        case Failure(e) => r == Failure(e)
    {
      var res := new User();
      var i := Find(db, lookForMail, login);
      if i.Some? {
        res.Load(db[i.value]);
      }
      var check := CheckUser(sha, res.Record(), password);
      if check.1.Some? {
        return Failure(check.1.value);
      }
      return Success(res);
    }

    /**
     * This authenticater as the facade sees it: login and password to a user
     * record or an error. A record it returns is a row of the database held
     * under that login; every failure is the generic error.
     */
    function AsAuthenticater(sha: Sha512): (f: (string, string) -> Result<UserRecord, Error>)
      ensures forall login, password :: f(login, password).Success? ==>
        LoginOf(f(login, password).value, lookForMail) == login && f(login, password).value in db
      ensures forall login, password :: f(login, password).Failure? ==> f(login, password).error == InvalidAttempt
    {
      (login, password) => Authenticated(sha, db, lookForMail, login, password)
    }
  }
}
