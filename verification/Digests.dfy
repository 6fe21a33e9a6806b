/** Symbolic SHA-256 digests and lower-case hexadecimal text. */
module Digests {

  /** The digest of `preimage`, as the term of what was hashed: equal exactly for equal preimages. */
  datatype Digest<+T> = Sha256(preimage: T)

  predicate HexDigit(c: char) { '0' <= c <= '9' || 'a' <= c <= 'f' }

  predicate IsHex(s: string, length: nat) {
    |s| == length && forall c <- s :: HexDigit(c)
  }
}
