/**
 * The textual form of a UUID that the request validators accept (`@IsUUID()`
 * with no version: 8-4-4-4-12 hexadecimal digits separated by hyphens, either
 * case), and the fact the cache keys rely on: such an id has no '/'.
 */
module Uuid {
  import Digits

  predicate IsHyphenPosition(i: int) {
    i == 8 || i == 13 || i == 18 || i == 23
  }

  predicate IsUuid(s: string) {
    && |s| == 36
    && forall i :: 0 <= i < 36 ==> if IsHyphenPosition(i) then s[i] == '-' else Digits.IsHexDigit(s[i])
  }

  /** A UUID contains no '/', so `posts/{id}` never reads as a longer key. */
  lemma NoSlash(s: string)
    requires IsUuid(s)
    ensures '/' !in s
  {
    forall i | 0 <= i < |s| ensures s[i] != '/' {
      if !IsHyphenPosition(i) {
        assert Digits.IsHexDigit(s[i]);
      }
    }
  }
}
