/**
 * The `User` struct of db/dbAuth.go: a row of the users table, and the
 * in-memory struct that `Authenticate` hydrates and `SetUserPassword`
 * rewrites in place. The embedded `gorm.Model` (id, timestamps) and the
 * column tags are not part of this model.
 */
module Users {

  /** The value held by a `User`: a stored row, or a snapshot of the struct. */
  datatype UserRecord = UserRecord(
    username: string, // login name, if any
    salt: string,     // base64 of the password salt
    hash: string,     // base64 of the digest of salt ++ password
    mail: string,     // mail address
    rights: nat)      // the user's rights, uninterpreted here

  /** The zero value `User{}`: every field empty. */
  const ZeroUser := UserRecord("", "", "", "", 0)

  class User {
    var username: string
    var salt: string
    var hash: string
    var mail: string
    var rights: nat

    /** The current value of the struct's fields. */
    function Record(): UserRecord
      reads this
    {
      UserRecord(username, salt, hash, mail, rights)
    }

    /** `&User{}`. */
    constructor ()
      ensures Record() == ZeroUser
    {
      username, salt, hash, mail, rights := "", "", "", "", 0;
    }

    /** What gorm's `First(res)` does with the row it found: copies every column into the struct. */
    method Load(row: UserRecord)
      modifies this
      ensures Record() == row
    {
      username, salt, hash, mail, rights := row.username, row.salt, row.hash, row.mail, row.rights;
    }
  }
}
