/**
 * String helpers with JavaScript semantics: the whitespace class `\s` of a
 * regular expression (the same set `String.prototype.trim` strips),
 * `startsWith`, `endsWith` and `trim`.
 */
module Text {

  /**
   * The characters matched by `\s` in a JavaScript regular expression, which
   * are also the ones `String.prototype.trim` strips: tab, line feed, vertical
   * tab, form feed, carriage return, space, U+00A0, U+1680, U+2000 to U+200A,
   * U+2028, U+2029, U+202F, U+205F, U+3000 and U+FEFF.
   */
  const SpaceChars: set<char> := {
    '\t', '\n', '\U{000B}', '\U{000C}', '\r', ' ', '\U{00A0}', '\U{1680}',
    '\U{2000}', '\U{2001}', '\U{2002}', '\U{2003}', '\U{2004}', '\U{2005}',
    '\U{2006}', '\U{2007}', '\U{2008}', '\U{2009}', '\U{200A}',
    '\U{2028}', '\U{2029}', '\U{202F}', '\U{205F}', '\U{3000}', '\U{FEFF}'}

  /** A character matched by `\s`. */
  predicate IsSpace(c: char) {
    c in SpaceChars
  }

  /** Every character of `s` is whitespace (vacuously true of ""). */
  predicate IsBlank(s: string) {
    forall k :: 0 <= k < |s| ==> IsSpace(s[k])
  }

  predicate StartsWith(s: string, prefix: string) {
    |prefix| <= |s| && s[..|prefix|] == prefix
  }

  predicate EndsWith(s: string, suffix: string) {
    |suffix| <= |s| && s[|s| - |suffix|..] == suffix
  }

  /** The first position at or after `i` that holds no whitespace, or `|s|`. */
  function SkipSpaces(s: string, i: nat): (r: nat)
    requires i <= |s|
    ensures i <= r <= |s|
    ensures forall k :: i <= k < r ==> IsSpace(s[k])
    ensures r < |s| ==> !IsSpace(s[r])
    decreases |s| - i
  {
    if i < |s| && IsSpace(s[i]) then SkipSpaces(s, i + 1) else i
  }

  /** The position just after the last character before `j` that is not whitespace, or 0. */
  function BackSpaces(s: string, j: nat): (r: nat)
    requires j <= |s|
    ensures r <= j
    ensures forall k :: r <= k < j ==> IsSpace(s[k])
    ensures r > 0 ==> !IsSpace(s[r - 1])
  {
    if j > 0 && IsSpace(s[j - 1]) then BackSpaces(s, j - 1) else j
  }

  /** The number of whitespace characters `Trim` cuts from the front of `s`. */
  function Lead(s: string): nat {
    SkipSpaces(s, 0)
  }

  /** `String.prototype.trim`: leading whitespace dropped, then trailing whitespace. */
  function Trim(s: string): string {
    var t := s[Lead(s)..];
    t[..BackSpaces(t, |t|)]
  }

  /**
   * `Trim(s)` is the slice of `s` left once its blank prefix and blank
   * suffix are cut away.
   */
  lemma TrimIsStrippedSlice(s: string)
    ensures Lead(s) + |Trim(s)| <= |s|
    ensures Trim(s) == s[Lead(s)..Lead(s) + |Trim(s)|]
    ensures IsBlank(s[..Lead(s)]) && IsBlank(s[Lead(s) + |Trim(s)|..])
  {
    var a := Lead(s);
    var t := s[a..];
    var b := BackSpaces(t, |t|);
    assert Trim(s) == t[..b] == s[a..a + b];
    assert s[a + b..] == t[b..];
  }

  /**
   * `Trim(s)` is empty exactly when `s` is blank, and otherwise starts and
   * ends with a non-space character.
   */
  lemma TrimEmptyIffBlank(s: string)
    ensures Trim(s) == [] <==> IsBlank(s)
    ensures Trim(s) != [] ==> !IsSpace(Trim(s)[0]) && !IsSpace(Trim(s)[|Trim(s)| - 1])
  {
    var a := Lead(s);
    var t := s[a..];
    var b := BackSpaces(t, |t|);
    if a < |s| {
      assert t[0] == s[a];
      assert !IsBlank(s);
      assert b > 0;
    }
  }

  /** `s` has no whitespace at either end. */
  predicate IsTrimmed(s: string) {
    s == [] || (!IsSpace(s[0]) && !IsSpace(s[|s| - 1]))
  }

  /** The strings without whitespace at either end are exactly those `trim` leaves as they are, and `trim` yields one. */
  lemma TrimmedMeansFixed(s: string)
    ensures IsTrimmed(s) <==> Trim(s) == s
    ensures IsTrimmed(Trim(s))
  {
    TrimEmptyIffBlank(s);
    if IsTrimmed(s) && s != [] {
      assert Lead(s) == 0;
      assert BackSpaces(s, |s|) == |s|;
      assert s[0..] == s;
    }
  }

  /** Trimming is idempotent. */
  lemma TrimIdempotent(s: string)
    ensures Trim(Trim(s)) == Trim(s)
  {
    TrimmedMeansFixed(s);
    TrimmedMeansFixed(Trim(s));
  }
}
