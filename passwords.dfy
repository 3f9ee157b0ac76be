/**
 * A symbolic model of the password helpers the user service calls
 * (`hash_password`, `verify_password`). A stored hash is a value of its own
 * type, so a plaintext password cannot be stored in its place; the salt is
 * the hasher's randomness, passed in. Only `VerifyPassword` looks inside.
 */
module Passwords {

  datatype PasswordHash = PasswordHash(salt: string, secret: string)

  function VerifyPassword(attempt: string, stored: PasswordHash): bool {
    attempt == stored.secret
  }

  /** Hashing `password`: the stored hash accepts that password and no other. */
  function HashPassword(password: string, salt: string): (h: PasswordHash)
    ensures forall attempt :: VerifyPassword(attempt, h) <==> attempt == password
    ensures h.salt == salt
  {
    PasswordHash(salt, password)
  }
}
