/**
 * String helpers that stand for the PHP built-ins the core uses: `trim`,
 * `ucfirst`, `str_contains`/SQL `LIKE '%t%'` (plain substring containment),
 * `explode(',', s)[0]`, integer-to-string conversion and PHP's truncating `%`.
 */
module Text {

  /** The characters PHP's `trim` strips by default: space, \t, \n, \r, NUL and vertical tab. */
  predicate IsBlank(c: char) {
    c == ' ' || c == '\t' || c == '\n' || c == '\r' || c == '\0' || c == '\U{B}'
  }

  /** Drops leading blanks: the result is the suffix of `s` that starts at its first non-blank. */
  function TrimStart(s: string): (r: string)
    ensures |r| <= |s| && r == s[|s| - |r|..]
    ensures r == [] || !IsBlank(r[0])
    ensures forall i :: 0 <= i < |s| - |r| ==> IsBlank(s[i])
  {
    if |s| > 0 && IsBlank(s[0]) then TrimStart(s[1..]) else s
  }

  /** Drops trailing blanks: the result is the prefix of `s` that ends at its last non-blank. */
  function TrimEnd(s: string): (r: string)
    ensures |r| <= |s| && r == s[..|r|]
    ensures r == [] || !IsBlank(r[|r| - 1])
    ensures forall i :: |r| <= i < |s| ==> IsBlank(s[i])
  {
    if |s| > 0 && IsBlank(s[|s| - 1]) then TrimEnd(s[..|s| - 1]) else s
  }

  /** PHP `trim($s)`. */
  function Trim(s: string): string {
    TrimEnd(TrimStart(s))
  }

  /** `t` occurs in `s` starting at index `i`. */
  predicate OccursAt(s: string, t: string, i: int) {
    0 <= i <= |s| - |t| && s[i..i + |t|] == t
  }

  /** The trimmed string is a piece of the original with no blank at either end. */
  lemma TrimShape(s: string)
    ensures var r := Trim(s);
      && (r == [] || (!IsBlank(r[0]) && !IsBlank(r[|r| - 1])))
      && exists i :: OccursAt(s, r, i)
  {
    var t := TrimStart(s);
    var r := TrimEnd(t);
    var i := |s| - |t|;
    forall j | 0 <= j < |r|
      ensures s[i + j] == r[j]
    {
      assert r[j] == t[j] && t[j] == s[i..][j];
    }
    assert s[i..i + |r|] == r;
    assert OccursAt(s, r, i);
    if r != [] {
      assert r[0] == t[0];
    }
  }

  /** A string already free of outer blanks is left as it is, so trimming twice equals trimming once. */
  lemma TrimFixesTrimmed(s: string)
    requires s == [] || (!IsBlank(s[0]) && !IsBlank(s[|s| - 1]))
    ensures Trim(s) == s
  {
  }

  lemma TrimIdempotent(s: string)
    ensures Trim(Trim(s)) == Trim(s)
  {
    TrimShape(s);
    TrimFixesTrimmed(Trim(s));
  }

  /** Substring containment: SQL `LIKE '%t%'` without wildcards or case folding. */
  function Contains(s: string, t: string): bool
    decreases |s|
  {
    |t| <= |s| && (t == s[..|t|] || Contains(s[1..], t))
  }

  /** An occurrence at any index is found by the scan. */
  lemma {:induction false} OccurrenceContained(s: string, t: string, i: int)
    requires OccursAt(s, t, i)
    ensures Contains(s, t)
    decreases i
  {
    if i > 0 {
      assert s[1..][i - 1..i - 1 + |t|] == s[i..i + |t|];
      OccurrenceContained(s[1..], t, i - 1);
    } else {
      assert s[..|t|] == s[i..i + |t|];
    }
  }

  /** What the scan finds is an occurrence. */
  lemma {:induction false} ContainedOccurs(s: string, t: string)
    requires Contains(s, t)
    ensures exists i :: OccursAt(s, t, i)
    decreases |s|
  {
    if t == s[..|t|] {
      assert OccursAt(s, t, 0);
    } else {
      ContainedOccurs(s[1..], t);
      var i :| OccursAt(s[1..], t, i);
      assert s[i + 1..i + 1 + |t|] == s[1..][i..i + |t|];
      assert OccursAt(s, t, i + 1);
    }
  }

  /** `Contains` means an occurrence of `t` at some index of `s`. */
  lemma ContainsIff(s: string, t: string)
    ensures Contains(s, t) <==> exists i :: OccursAt(s, t, i)
  {
    if Contains(s, t) {
      ContainedOccurs(s, t);
    }
    if exists i :: OccursAt(s, t, i) {
      var i :| OccursAt(s, t, i);
      OccurrenceContained(s, t, i);
    }
  }

  /** The empty term matches every string, as `LIKE '%%'` does. */
  lemma ContainsEmpty(s: string)
    ensures Contains(s, "")
  {
    ContainsIff(s, "");
    assert OccursAt(s, "", 0);
  }

  predicate IsDigit(c: char) {
    '0' <= c <= '9'
  }

  function DigitChar(d: nat): (c: char)
    requires d < 10
    ensures IsDigit(c)
  {
    ['0', '1', '2', '3', '4', '5', '6', '7', '8', '9'][d]
  }

  /** Decimal rendering of a natural number, without leading zeros. */
  function NatToString(n: nat): (r: string)
    ensures |r| > 0 && forall i :: 0 <= i < |r| ==> IsDigit(r[i])
    ensures (n == 0) == (r == "0")
    ensures n > 0 ==> r[0] != '0'
  {
    if n < 10 then [DigitChar(n)] else NatToString(n / 10) + [DigitChar(n % 10)]
  }

  /** The value of a decimal digit. */
  function DigitValue(c: char): (d: nat)
    requires IsDigit(c)
    ensures d < 10
  {
    c as int - '0' as int
  }

  /** The number a string of decimal digits spells (leading zeros allowed; the empty string spells 0). */
  function ParseNat(s: string): (n: nat)
    requires forall i :: 0 <= i < |s| ==> IsDigit(s[i])
  {
    if s == [] then 0 else ParseNat(s[..|s| - 1]) * 10 + DigitValue(s[|s| - 1])
  }

  /** Reading back a rendered number gives the number. */
  lemma {:induction false} ParseNatToString(n: nat)
    ensures ParseNat(NatToString(n)) == n
  {
    var r := NatToString(n);
    if n >= 10 {
      assert r[..|r| - 1] == NatToString(n / 10);
      ParseNatToString(n / 10);
    }
  }

  /** PHP's `(string)$n` for an integer: a minus sign for negative numbers, then the digits. */
  function IntToString(n: int): (r: string)
    ensures |r| > 0
    ensures n >= 0 ==> forall i :: 0 <= i < |r| ==> IsDigit(r[i])
    ensures n < 0 ==> r[0] == '-'
  {
    if n < 0 then "-" + NatToString(-n) else NatToString(n)
  }

  /** Three digits with leading zeros, as used between the thousands separators. */
  function Pad3(n: nat): (r: string)
    requires n < 1000
    ensures |r| == 3
  {
    [DigitChar(n / 100), DigitChar(n / 10 % 10), DigitChar(n % 10)]
  }

  /** PHP `number_format($n)` for a whole number: digits grouped by commas in threes. */
  function GroupThousands(n: nat): (r: string)
    ensures |r| > 0
  {
    if n < 1000 then NatToString(n) else GroupThousands(n / 1000) + "," + Pad3(n % 1000)
  }

  /** PHP `ucfirst`: the first ASCII lower-case letter is upper-cased, the rest is kept. */
  function UcFirst(s: string): (r: string)
    ensures |r| == |s| && (s != [] ==> r[1..] == s[1..])
    ensures s != [] && 'a' <= s[0] <= 'z' ==> r[0] == (s[0] as int - 32) as char
    ensures s != [] && !('a' <= s[0] <= 'z') ==> r == s
  {
    if s != [] && 'a' <= s[0] <= 'z' then [(s[0] as int - 32) as char] + s[1..] else s
  }

  /** `explode($sep, $s)[0]`: everything before the first separator (all of `s` when there is none). */
  function BeforeFirst(s: string, sep: char): (r: string)
    ensures r <= s && sep !in r
    ensures sep in s ==> |r| < |s| && s[|r|] == sep
    ensures sep !in s ==> r == s
  {
    if s == [] then [] else if s[0] == sep then [] else [s[0]] + BeforeFirst(s[1..], sep)
  }

  /** PHP's `%`: the remainder takes the sign of the dividend (Dafny's `%` is Euclidean). */
  function PhpMod(a: int, b: nat): (r: int)
    requires b > 0
    ensures -(b as int) < r < b
    ensures a >= 0 ==> r == a % b
    ensures a < 0 ==> r <= 0
  {
    if a >= 0 then a % b else -((-a) % b)
  }
}
