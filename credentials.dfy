/** The password-hashing primitive (bcrypt) as the server uses it: `hash` when an
    account is created and `compare` when someone logs in. */
module Credentials {

  /** A bcrypt digest. The model keeps the cost factor and which password the digest
      was made from; the salt and the digest bytes are not modelled. */
  datatype Digest = Bcrypt(rounds: nat, source: string)

  /** The cost factor passed to `bcrypt.hash` at registration. */
  const SaltRounds: nat := 10

  /** `bcrypt.hash(password, SaltRounds)`. */
  function Hash(password: string): (h: Digest)
    ensures h.rounds == SaltRounds
  {
    Bcrypt(SaltRounds, password)
  }

  /** `bcrypt.compare(password, h)`: the digest was made from this password. */
  predicate Compare(password: string, h: Digest) {
    h == Hash(password)
  }

  /** A digest accepts the password it was made from and no other. */
  lemma CompareAcceptsOnlyItsPassword(p: string, q: string)
    ensures Compare(p, Hash(q)) <==> p == q
  {
  }
}
