/** bcrypt as the user stores use it: `hashpw(password, gensalt())` to store a
    password and `checkpw(password, hash)` to verify one. The hash is modelled
    as an ideal salted hash: it verifies exactly the password it was made from.
    The salt is the randomness `gensalt()` draws, passed in by the caller. */
module Credentials {

  datatype PasswordHash = PasswordHash(salt: nat, secret: string)

  /** bcrypt.hashpw: the salt is kept inside the hash it produces. */
  function HashPassword(password: string, salt: nat): (h: PasswordHash)
    ensures h.salt == salt
  {
    PasswordHash(salt, password)
  }

  /** bcrypt.checkpw: hash the attempt again with the salt stored in `h` and
      compare the result with `h`. */
  function CheckPassword(attempt: string, h: PasswordHash): (b: bool)
    ensures b <==> h == HashPassword(attempt, h.salt)
  {
    attempt == h.secret
  }

  /** A stored hash verifies the password it was made from, and only it. */
  lemma HashThenCheck(password: string, salt: nat, attempt: string)
    ensures CheckPassword(attempt, HashPassword(password, salt)) <==> attempt == password
  {
  }
}
