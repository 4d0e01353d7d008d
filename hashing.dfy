/** `get_hash`: the digest of an optional text. SHA-256 itself is not
    modelled; the digest function is a parameter, and Dafny functions are
    deterministic, which is all the watcher relies on. */
module Hashing {
  import opened Optional
  import opened Text

  /** A deterministic digest function on text (SHA-256 in the program). */
  type Hasher = string -> string

  /** Digest of `content`, an absent text being hashed as the empty string. */
  function GetHash(H: Hasher, content: Option<string>): (d: string)
    ensures content.None? ==> d == H("")
    ensures content.Some? ==> d == H(content.value)
  {
    H(content.GetOr(""))
  }

  /** An absent section and an empty one are indistinguishable after hashing. */
  lemma AbsentHashesAsEmpty(H: Hasher)
    ensures GetHash(H, None) == GetHash(H, Some(""))
  {
  }

  /** Lower-case hexadecimal text of a 256-bit digest, as `hexdigest()` returns. */
  predicate IsHexDigest(d: string) {
    |d| == 64 && forall k :: 0 <= k < |d| ==> d[k] in "0123456789abcdef"
  }

  /** The digest function returns hexadecimal digests for every input. */
  ghost predicate HexHasher(H: Hasher) {
    forall s :: IsHexDigest(H(s))
  }

  /** A hexadecimal digest never contains a line boundary, so it fits on one
      line of the state file. */
  lemma HexDigestIsLineFree(d: string)
    requires IsHexDigest(d)
    ensures LineFree(d)
  {
    forall k | 0 <= k < |d| ensures !IsLineBreak(d[k]) {
      assert d[k] in "0123456789abcdef";
    }
  }
}
