/**
 * Characters and the case-insensitive comparison used for country names.
 *
 * .NET's StringComparer.OrdinalIgnoreCase compares the upper-case forms of two
 * strings, character by character. This model folds ASCII letters only.
 */
module Text {

  predicate IsAsciiDigit(c: char) {
    '0' <= c <= '9'
  }

  predicate IsAsciiLetter(c: char) {
    'a' <= c <= 'z' || 'A' <= c <= 'Z'
  }

  predicate IsAsciiLower(c: char) {
    'a' <= c <= 'z'
  }

  /** The upper-case form of one character (ASCII letters only). */
  function FoldChar(c: char): char {
    if IsAsciiLower(c) then (c as int - 32) as char else c
  }

  /** The key under which OrdinalIgnoreCase files a string. */
  function Fold(s: string): string {
    seq(|s|, i requires 0 <= i < |s| => FoldChar(s[i]))
  }

  /** Two characters that are equal or are the two cases of one ASCII letter. */
  predicate SameIgnoringCase(x: char, y: char) {
    x == y
    || (IsAsciiLower(x) && y as int == x as int - 32)
    || (IsAsciiLower(y) && x as int == y as int - 32)
  }

  /** Character-wise comparison ignoring case, independent of Fold. */
  predicate EqualsIgnoreCase(a: string, b: string) {
    |a| == |b| && forall i :: 0 <= i < |a| ==> SameIgnoringCase(a[i], b[i])
  }

  lemma FoldCharMatches(x: char, y: char)
    ensures FoldChar(x) == FoldChar(y) <==> SameIgnoringCase(x, y)
  {
  }

  /** Comparing folded keys is exactly comparing ignoring case. */
  lemma FoldEqualIffEqualsIgnoreCase(a: string, b: string)
    ensures Fold(a) == Fold(b) <==> EqualsIgnoreCase(a, b)
  {
    if Fold(a) == Fold(b) {
      forall i | 0 <= i < |a|
        ensures SameIgnoringCase(a[i], b[i])
      {
        assert Fold(a)[i] == Fold(b)[i];
        FoldCharMatches(a[i], b[i]);
      }
    }
    if EqualsIgnoreCase(a, b) {
      forall i | 0 <= i < |a|
        ensures Fold(a)[i] == Fold(b)[i]
      {
        FoldCharMatches(a[i], b[i]);
      }
    }
  }

  /** Folding is idempotent and keeps the length; no lower-case ASCII letter survives it. */
  lemma FoldIdempotent(s: string)
    ensures |Fold(s)| == |s|
    ensures Fold(Fold(s)) == Fold(s)
    ensures forall i :: 0 <= i < |s| ==> !IsAsciiLower(Fold(s)[i])
  {
  }
}
