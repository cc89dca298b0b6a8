/**
 * The password hashing library (bcrypt) seen only through its contract.
 * `hash` takes the salt it would draw at random as an explicit argument, so
 * hashing the same password twice may give two different digests; `compare`
 * checks a candidate password against a stored digest.
 */
module Crypto {
  type Digest = string
  type Salt = nat

  datatype Hasher = Hasher(hash: (string, Salt) -> Digest, compare: (string, Digest) -> bool)

  /** A password always matches a digest made from it, whatever the salt. */
  ghost predicate Sound(h: Hasher) {
    forall p, s :: h.compare(p, h.hash(p, s))
  }
}
