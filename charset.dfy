/** The alphabet generated secrets are drawn from, and the random source that
    picks from it. */
module Charset {

  /** `PrjRem.CHAR_SET`: four symbols, then `string.ascii_lowercase`,
      `string.digits` and `string.ascii_uppercase`. */
  const CharSet: string :=
    "!@#$" + "abcdefghijklmnopqrstuvwxyz" + "0123456789" + "ABCDEFGHIJKLMNOPQRSTUVWXYZ"

  /** `PrjRem.CHAR_SET_LENGTH`: the largest valid index into `CharSet`, not
      its length. */
  const CharSetLength: int := |CharSet| - 1

  lemma CharSetSize()
    ensures |CharSet| == 66 && CharSetLength == 65
  {
  }

  /** The alphabet is exactly the four symbols, the ASCII letters and the
      decimal digits. */
  lemma CharSetMembers(c: char)
    ensures c in CharSet <==>
      c in "!@#$" || ('a' <= c <= 'z') || ('0' <= c <= '9') || ('A' <= c <= 'Z')
  {
  }

  /** A secret of `n` characters, each taken from the alphabet. */
  predicate IsSecret(s: string, n: nat)
  {
    |s| == n && forall i :: 0 <= i < |s| ==> s[i] in CharSet
  }

  /** `SystemRandom.randint(lo, hi)`: some integer from `lo` to `hi`, both
      included. Which one is left open: the operating system's entropy is not
      part of this model. */
  method RandInt(lo: int, hi: int) returns (r: int)
    requires lo <= hi
    ensures lo <= r <= hi
  {
    r :| lo <= r <= hi;
  }
}
