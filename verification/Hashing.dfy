/** Bytes, and what the model knows of SHA-256: digests are 64 lower-case hexadecimal digits and never all zeros. */
module Hashing {
  import opened PyText
  import Encodings

  type Bytes = seq<Encodings.Byte>

  predicate IsHex(s: string, n: nat) {
    |s| == n && forall i :: 0 <= i < n ==> IsDigit(s[i]) || 'a' <= s[i] <= 'f'
  }

  predicate IsSha256(s: string) {
    IsHex(s, 64)
  }

  /** A digest the validators take: well-formed and not all zeros. */
  predicate IsRealSha256(s: string) {
    IsSha256(s) && exists i :: 0 <= i < 64 && s[i] != '0'
  }

  /** The function is a digest of bytes. */
  ghost predicate IsDigest(sha: Bytes -> string) {
    forall b :: IsRealSha256(sha(b))
  }
}
