/**
 * Password security (db/security.go): salt generation, the salted digest of
 * a password, setting a new password on a `User` in place, and checking a
 * password against a stored record.
 *
 * SHA-512 is not modelled: it is the parameter `sha`, of which the model
 * knows only that it is a function (so the digest is deterministic) and
 * that every digest is 64 bytes long. The random source is the parameter
 * `rnd`: the bytes `rand.Read` produced, or the error it returned.
 */
module Security {
  import opened Wrappers
  import opened Base64
  import opened Users

  /** Salt length in bytes (security.go:26). */
  const SaltSize := 16

  /** SHA-512 digest length in bytes. */
  const DigestSize := 64

  /** The one error a failed check reports, for an unknown login and a wrong password alike. */
  const InvalidAttempt := Error("Invalid attempt for username/password")

  /** SHA-512 of the bytes of a string, as an opaque primitive. */
  type Sha512 = f: string -> seq<byte> | forall m :: |f(m)| == DigestSize
    witness (m: string) => seq(DigestSize, i => 0 as byte)

  /**
   * `computeHash(password, salt)`: base64 of SHA-512 of salt ++ password.
   * The result is 88 characters of text that decode to the digest.
   */
  function ComputeHash(sha: Sha512, password: string, salt: string): (h: string)
    ensures |h| == 88
    ensures Decode(h) == Some(sha(salt + password))
  {
    DecodeEncode(sha(salt + password));
    Encode(sha(salt + password))
  }

  /** Only the concatenation salt ++ password reaches the digest. */
  lemma HashOfConcatenation(sha: Sha512, p1: string, s1: string, p2: string, s2: string)
    requires s1 + p1 == s2 + p2
    ensures ComputeHash(sha, p1, s1) == ComputeHash(sha, p2, s2)
  {
  }

  /** Moving characters across the salt/password boundary does not change the hash. */
  lemma HashBoundaryExample(sha: Sha512)
    ensures ComputeHash(sha, "c", "ab") == ComputeHash(sha, "bc", "a")
  {
    assert "ab" + "c" == "a" + "bc";
    HashOfConcatenation(sha, "c", "ab", "bc", "a");
  }

  /**
   * `generateSalt()`: the error of the random source, or the base64 text
   * (24 characters) of the 16 bytes it produced.
   */
  function GenerateSalt(rnd: Result<seq<byte>, Error>): (r: Result<string, Error>)
    requires rnd.Success? ==> |rnd.value| == SaltSize
    ensures rnd.Failure? ==> r == Failure(rnd.error)
    ensures rnd.Success? ==> r.Success? && |r.value| == 24 && Decode(r.value) == Some(rnd.value)
  {
    match rnd
    case Failure(e) => Failure(e)
    case Success(bytes) =>
      var salt := Encode(bytes);
      DecodeEncode(bytes);
      assert |salt| == 4 * ((SaltSize + 2) / 3);
      Success(salt)
  }

  /**
   * `checkUser(user, password)`: true with no error exactly when the digest
   * of the record's salt and `password` is the record's hash; otherwise
   * false with the generic error.
   */
  function CheckUser(sha: Sha512, user: UserRecord, password: string): (r: (bool, Option<Error>))
    ensures r.0 <==> ComputeHash(sha, password, user.salt) == user.hash
    ensures r.1 == if r.0 then None else Some(InvalidAttempt)
  {
    var hash := ComputeHash(sha, password, user.salt);
    if hash == user.hash then (true, None) else (false, Some(InvalidAttempt))
  }

  /** A stored hash of any length other than 88, in particular an empty one, never verifies. */
  lemma MalformedHashNeverVerifies(sha: Sha512, user: UserRecord, password: string)
    requires |user.hash| != 88
    ensures CheckUser(sha, user, password) == (false, Some(InvalidAttempt))
  {
  }

  /** The zero `User{}` verifies against no password. */
  lemma ZeroUserNeverVerifies(sha: Sha512, password: string)
    ensures CheckUser(sha, ZeroUser, password) == (false, Some(InvalidAttempt))
  {
    MalformedHashNeverVerifies(sha, ZeroUser, password);
  }

  /**
   * `SetUserPassword(user, newPassword)`: on a failed salt generation the
   * random source's error and an untouched user; otherwise the new salt and
   * the matching hash in place, every other field unchanged, after which
   * the new password verifies.
   */
  method SetUserPassword(sha: Sha512, user: User, newPassword: string, rnd: Result<seq<byte>, Error>)
    returns (err: Option<Error>)
    requires rnd.Success? ==> |rnd.value| == SaltSize
    modifies user
    ensures rnd.Failure? ==> err == Some(rnd.error) && user.Record() == old(user.Record())
    ensures rnd.Success? ==>
      && err == None
      && var salt := Encode(rnd.value);
      && user.Record() == old(user.Record()).(salt := salt, hash := ComputeHash(sha, newPassword, salt))
    ensures err == None ==> CheckUser(sha, user.Record(), newPassword) == (true, None)
  {
    var salt := GenerateSalt(rnd);
    if salt.Failure? {
      return Some(salt.error);
    }
    var hash := ComputeHash(sha, newPassword, salt.value);
    user.hash := hash;
    user.salt := salt.value;
    err := None;
  }
}
