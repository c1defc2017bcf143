/** The password hasher (`Bun.password`, Argon2). The real algorithm is a foreign call; here it is
    an ideal, symbolic hash: a digest records the random salt drawn for the call and the password
    it was computed from, so that verification accepts exactly the password that was hashed.
    Nothing in the model reads `secret` except `Verify`. */
module Password {

  datatype Digest = Argon2(salt: nat, secret: string)

  /** `Bun.password.hash(password)`; the salt is the call's randomness, made a parameter. */
  function Hash(password: string, salt: nat): (d: Digest)
    ensures d.salt == salt
  {
    Argon2(salt, password)
  }

  /** `Bun.password.verify(password, digest)`: the salt is read back from the digest itself. */
  function Verify(password: string, digest: Digest): (ok: bool)
    ensures ok <==> digest == Hash(password, digest.salt)
  {
    digest.secret == password
  }

  /** Verification accepts the password that was hashed, whatever salt was drawn. */
  lemma VerifyAcceptsHash(password: string, salt: nat)
    ensures Verify(password, Hash(password, salt))
  {
  }

  /** Verification rejects every other password. */
  lemma VerifyRejectsOthers(password: string, other: string, salt: nat)
    requires other != password
    ensures !Verify(other, Hash(password, salt))
  {
  }
}
