/** The password-hashing library the record delegates to, reduced to what the
    record relies on: a one-way `digest` of a secret and a `verify` that checks
    a secret against a stored digest. Both are parameters of the model. */
module Credentials {

  datatype Hasher = Hasher(digest: string -> string, verify: (string, string) -> bool)

  /** The one property of the hash the record depends on: a secret always
      verifies against its own digest. */
  ghost predicate Sound(h: Hasher) {
    forall s :: h.verify(s, h.digest(s))
  }

  /** The idealised hash: a digest accepts its own secret and nothing else
      (collisions neglected). */
  ghost predicate Exact(h: Hasher) {
    forall s, t :: h.verify(t, h.digest(s)) <==> t == s
  }
}
