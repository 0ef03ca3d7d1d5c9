/** The cryptographic collaborators of the route handlers, replaced by
    symbolic models. A bcrypt digest is a value that commits to one plaintext
    under a salt drawn at hashing time; `Compare` accepts exactly the committed
    plaintext. A session token is an opaque string; what it proves is the
    `Payload` the (caller-supplied) verifier extracts from it. */
module Credentials {

  /** A password digest. It has its own type, so a stored password field can
      never hold the plaintext string itself. */
  datatype Digest = Digest(salt: nat, committed: string)

  /** `bcrypt.hash(password, 10)` with the salt it draws. */
  function Hash(password: string, salt: nat): (d: Digest)
    ensures Compare(password, d)
  {
    Digest(salt, password)
  }

  /** `bcrypt.compare(password, digest)`. */
  predicate Compare(password: string, d: Digest) {
    d.committed == password
  }

  /** A digest accepts only the password it was made from, whatever the salt. */
  lemma CompareOnlyOriginal(p: string, q: string, salt: nat)
    ensures Compare(p, Hash(q, salt)) <==> p == q
  {
  }

  /** Hashing is injective in the password. */
  lemma HashInjective(p: string, q: string, s: nat, t: nat)
    requires Hash(p, s) == Hash(q, t)
    ensures p == q
  {
  }

  /** What `verifyToken` returns for a token it accepts. */
  datatype Payload = Payload(userId: string, email: string)
}
