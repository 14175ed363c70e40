/**
 * The string comparison of MySQL's default `utf8mb4_unicode_ci` collation,
 * as far as this model goes: ASCII letters compare without case, and
 * trailing spaces are ignored (a PAD SPACE collation).
 */
module Collation {

  /** ASCII lower-casing of one character; every other character is kept. */
  function Lower(c: char): char {
    if 'A' <= c <= 'Z' then (c as int + 32) as char else c
  }

  /** Drops trailing spaces: the prefix of `s` before its run of final ' ' characters. */
  function DropTrailingSpaces(s: string): (r: string)
    ensures r <= s && (r == [] || r[|r| - 1] != ' ')
    ensures forall i :: |r| <= i < |s| ==> s[i] == ' '
  {
    if s != [] && s[|s| - 1] == ' ' then DropTrailingSpaces(s[..|s| - 1]) else s
  }

  /**
   * What MySQL's default `utf8mb4_unicode_ci` collation compares of a string,
   * as far as this model goes: ASCII letters folded to lower case, and
   * trailing spaces ignored (a PAD SPACE collation).
   */
  function CollationKey(s: string): (k: string)
    ensures |k| == |DropTrailingSpaces(s)|
    ensures forall i :: 0 <= i < |k| ==> k[i] == Lower(s[i])
  {
    var t := DropTrailingSpaces(s);
    seq(|t|, i requires 0 <= i < |t| => Lower(t[i]))
  }

  /** The collation key of a string that does not end in a space, letter by letter. */
  lemma CollationKeyOf(s: string, k: string)
    requires s == [] || s[|s| - 1] != ' '
    requires |k| == |s| && forall i :: 0 <= i < |s| ==> k[i] == Lower(s[i])
    ensures CollationKey(s) == k
  {
  }

  /** Trailing spaces do not change the collation key. */
  lemma TrailingSpacesCollate(s: string)
    ensures CollationKey(s + " ") == CollationKey(s)
  {
    assert (s + " ")[..|s|] == s;
  }

  /** Strings that agree letter by letter up to ASCII case have the same collation key. */
  lemma CaseVariantsCollate(s: string, t: string)
    requires |s| == |t| && forall i :: 0 <= i < |s| ==> Lower(s[i]) == Lower(t[i])
    ensures CollationKey(s) == CollationKey(t)
  {
  }
}
