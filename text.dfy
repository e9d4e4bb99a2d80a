/** The string operations the application relies on: `toLowerCase` (as an ASCII
    case fold), `includes`, `trim`, and the decimal rendering of `Date.now()`
    that goes into generated identifiers. */
module Text {

  // ---------------------------------------------------------------- case folding

  /** Lower-cases one character; only the ASCII letters A-Z are folded. */
  function LowerChar(c: char): char {
    if 'A' <= c <= 'Z' then (c as int + 32) as char else c
  }

  /** `s.toLowerCase()` over the ASCII letters. */
  function Lower(s: string): (r: string)
    ensures |r| == |s|
    ensures forall i :: 0 <= i < |s| ==> r[i] == LowerChar(s[i])
    ensures forall i :: 0 <= i < |r| ==> !('A' <= r[i] <= 'Z')
  {
    if s == [] then [] else [LowerChar(s[0])] + Lower(s[1..])
  }

  /** Two strings that differ at most in the case of their letters. */
  predicate SameIgnoringCase(a: string, b: string) {
    |a| == |b| && forall i :: 0 <= i < |a| ==> LowerChar(a[i]) == LowerChar(b[i])
  }

  /** Strings that differ only in letter case lower-case to the same string. */
  lemma LowerIgnoresCase(a: string, b: string)
    requires SameIgnoringCase(a, b)
    ensures Lower(a) == Lower(b)
  {
    assert forall i :: 0 <= i < |a| ==> Lower(a)[i] == Lower(b)[i];
  }

  // ---------------------------------------------------------------- substring search

  /** `needle` occurs in `hay` starting at index `i`. */
  predicate OccursAt(hay: string, needle: string, i: nat) {
    i + |needle| <= |hay| && hay[i..i + |needle|] == needle
  }

  /** `hay.includes(needle)`. */
  predicate Contains(hay: string, needle: string) {
    exists i :: 0 <= i <= |hay| && OccursAt(hay, needle, i)
  }

  /** The empty string is contained in every string, so an empty search matches all. */
  lemma ContainsEmpty(hay: string)
    ensures Contains(hay, "")
  {
    assert OccursAt(hay, "", 0);
  }

  /** Containment is transitive: a substring of a substring is a substring. */
  lemma ContainsTransitive(hay: string, mid: string, needle: string)
    requires Contains(hay, mid) && Contains(mid, needle)
    ensures Contains(hay, needle)
  {
    var i :| 0 <= i <= |hay| && OccursAt(hay, mid, i);
    var j :| 0 <= j <= |mid| && OccursAt(mid, needle, j);
    assert mid == hay[i..i + |mid|];
    forall k | 0 <= k < |needle| ensures hay[i + j + k] == needle[k] {
      assert needle[k] == mid[j + k] == hay[i + j + k];
    }
    assert OccursAt(hay, needle, i + j);
  }

  // ---------------------------------------------------------------- trimming

  /** The characters `String.prototype.trim` removes: the ECMAScript WhiteSpace and
      LineTerminator code points. */
  const JsWhitespace: set<char> := {
    '\t', '\n', '\U{000B}', '\U{000C}', '\r', ' ', '\U{00A0}', '\U{1680}',
    '\U{2000}', '\U{2001}', '\U{2002}', '\U{2003}', '\U{2004}', '\U{2005}',
    '\U{2006}', '\U{2007}', '\U{2008}', '\U{2009}', '\U{200A}', '\U{2028}',
    '\U{2029}', '\U{202F}', '\U{205F}', '\U{3000}', '\U{FEFF}'
  }

  predicate IsWhitespace(c: char) {
    c in JsWhitespace
  }

  /** Drops the leading whitespace: the result is the suffix of `s` that starts at
      its first non-whitespace character. */
  function TrimStart(s: string): (r: string)
    ensures |r| <= |s| && r == s[|s| - |r|..]
    ensures r == [] || !IsWhitespace(r[0])
    ensures forall i :: 0 <= i < |s| - |r| ==> IsWhitespace(s[i])
  {
    if s != [] && IsWhitespace(s[0]) then TrimStart(s[1..]) else s
  }

  /** Drops the trailing whitespace: the result is the prefix of `s` that ends at
      its last non-whitespace character. */
  function TrimEnd(s: string): (r: string)
    ensures |r| <= |s| && r == s[..|r|]
    ensures r == [] || !IsWhitespace(r[|r| - 1])
    ensures forall i :: |r| <= i < |s| ==> IsWhitespace(s[i])
  {
    if s != [] && IsWhitespace(s[|s| - 1]) then TrimEnd(s[..|s| - 1]) else s
  }

  /** `s.trim()`. */
  function Trim(s: string): string {
    TrimEnd(TrimStart(s))
  }

  /** Every character of `s` before index `k` and from index `m` on is whitespace. */
  predicate BlankOutside(s: string, k: nat, m: nat)
    requires k <= m <= |s|
  {
    (forall i :: 0 <= i < k ==> IsWhitespace(s[i])) &&
    (forall i :: m <= i < |s| ==> IsWhitespace(s[i]))
  }

  /** The trimmed text is what is left of `s` once a run of whitespace is cut from each
      end; it neither starts nor ends with whitespace, and it is empty exactly when `s`
      is all whitespace. */
  lemma TrimSpec(s: string)
    ensures exists k: nat, m: nat :: k <= m <= |s| && Trim(s) == s[k..m] && BlankOutside(s, k, m)
    ensures Trim(s) != [] ==> !IsWhitespace(Trim(s)[0]) && !IsWhitespace(Trim(s)[|Trim(s)| - 1])
    ensures Trim(s) == [] <==> forall i :: 0 <= i < |s| ==> IsWhitespace(s[i])
  {
    var k, m := TrimBounds(s);
  }

  /** The bounds of the trimmed text within `s`. */
  lemma TrimBounds(s: string) returns (k: nat, m: nat)
    ensures k <= m <= |s| && Trim(s) == s[k..m] && BlankOutside(s, k, m)
  {
    var t := TrimStart(s);
    var r := TrimEnd(t);
    k := |s| - |t|;
    m := k + |r|;
    assert t == s[k..];
    assert r == t[..|r|];
    assert s[k..m] == s[k..][..|r|];
    forall i | m <= i < |s| ensures IsWhitespace(s[i]) {
      assert |r| <= i - k < |t|;
      assert s[i] == t[i - k];
    }
  }

  // ---------------------------------------------------------------- decimal numbers

  function DigitChar(d: nat): (c: char)
    requires d < 10
    ensures '0' <= c <= '9'
  {
    ('0' as int + d) as char
  }

  /** The decimal text of `n`, as `${n}` renders a non-negative integer. */
  function DecimalString(n: nat): (r: string)
    ensures r != []
    ensures forall i :: 0 <= i < |r| ==> '0' <= r[i] <= '9'
  {
    if n < 10 then [DigitChar(n)] else DecimalString(n / 10) + [DigitChar(n % 10)]
  }

  /** The number a string of decimal digits denotes. */
  function DecimalValue(s: string): nat
    requires forall i :: 0 <= i < |s| ==> '0' <= s[i] <= '9'
  {
    if s == [] then 0
    else DecimalValue(s[..|s| - 1]) * 10 + (s[|s| - 1] as int - '0' as int)
  }

  /** Rendering a number in decimal loses nothing: reading the digits back gives it. */
  lemma {:induction false} DecimalRoundTrip(n: nat)
    ensures DecimalValue(DecimalString(n)) == n
  {
    if n >= 10 {
      DecimalRoundTrip(n / 10);
      var s := DecimalString(n);
      assert s[..|s| - 1] == DecimalString(n / 10);
    }
  }
}
