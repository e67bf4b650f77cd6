/** String helpers with the semantics of the JavaScript built-ins the pages
    call: `String.prototype.trim` (over the full ECMAScript white-space and
    line-terminator set) and ASCII case mapping for `toLowerCase` and
    `toUpperCase`. */
module Text {

  /** ECMAScript WhiteSpace and LineTerminator code points, the set `trim`
      strips: TAB, LF, VT, FF, CR, SPACE, NBSP, ZWNBSP, the other Zs
      characters, LINE SEPARATOR and PARAGRAPH SEPARATOR. */
  predicate IsWhitespace(c: char)
  {
    || '\t' <= c <= '\r' || c == ' ' || c == '\U{00A0}' || c == '\U{1680}'
    || '\U{2000}' <= c <= '\U{200A}' || c == '\U{2028}' || c == '\U{2029}'
    || c == '\U{202F}' || c == '\U{205F}' || c == '\U{3000}' || c == '\U{FEFF}'
  }

  /** Every character of `s` in the index range `lo..hi` is white space. */
  predicate WhitespaceBetween(s: string, lo: int, hi: int)
  {
    forall k :: lo <= k < hi && 0 <= k < |s| ==> IsWhitespace(s[k])
  }

  /** How many leading white-space characters `trim` cuts from `s`. */
  function Lead(s: string): (n: nat)
    ensures n <= |s| && WhitespaceBetween(s, 0, n)
    ensures n == |s| || !IsWhitespace(s[n])
  {
    if s == [] || !IsWhitespace(s[0]) then 0
    else
      var n := 1 + Lead(s[1..]);
      ShiftedWhitespace(s, n);
      n
  }

  /** How many trailing white-space characters `trim` cuts from `s`. */
  function Tail(s: string): (n: nat)
    ensures n <= |s| && WhitespaceBetween(s, |s| - n, |s|)
    ensures n == |s| || !IsWhitespace(s[|s| - n - 1])
  {
    if s == [] || !IsWhitespace(s[|s| - 1]) then 0
    else
      var n := 1 + Tail(s[..|s| - 1]);
      ClippedWhitespace(s, n);
      n
  }

  /** A white-space head followed by `n - 1` white-space characters. */
  lemma ShiftedWhitespace(s: string, n: nat)
    requires s != [] && IsWhitespace(s[0]) && 0 < n && WhitespaceBetween(s[1..], 0, n - 1)
    ensures WhitespaceBetween(s, 0, n)
  {
    forall k | 0 < k < n && k < |s| ensures IsWhitespace(s[k]) {
      assert s[k] == s[1..][k - 1];
    }
  }

  /** A white-space last character preceded by `n - 1` white-space characters. */
  lemma ClippedWhitespace(s: string, n: nat)
    requires s != [] && IsWhitespace(s[|s| - 1]) && 0 < n <= |s|
    requires WhitespaceBetween(s[..|s| - 1], |s| - n, |s| - 1)
    ensures WhitespaceBetween(s, |s| - n, |s|)
  {
    forall k | |s| - n <= k < |s| - 1 ensures IsWhitespace(s[k]) {
      assert s[k] == s[..|s| - 1][k];
    }
  }

  /** `s.trim()`: the slice of `s` that starts after its `Lead(s)` leading
      white-space characters and neither starts nor ends with white space,
      everything cut off being white space. */
  function Trim(s: string): (r: string)
    ensures Lead(s) + |r| <= |s| && r == s[Lead(s)..Lead(s) + |r|]
    ensures WhitespaceBetween(s, 0, Lead(s)) && WhitespaceBetween(s, Lead(s) + |r|, |s|)
    ensures r == [] || (!IsWhitespace(r[0]) && !IsWhitespace(r[|r| - 1]))
  {
    var n := Lead(s);
    if n == |s| then []
    else
      var m := Tail(s);
      assert n < |s| - m;
      s[n..|s| - m]
  }

  /** `!s.trim()`: the string is empty or white space only. */
  predicate IsBlank(s: string)
    ensures IsBlank(s) <==> WhitespaceBetween(s, 0, |s|)
  {
    Trim(s) == ""
  }

  function LowerChar(c: char): char
  {
    if 'A' <= c <= 'Z' then (c as int + 32) as char else c
  }

  function UpperChar(c: char): char
  {
    if 'a' <= c <= 'z' then (c as int - 32) as char else c
  }

  /** `s.toLowerCase()` restricted to the ASCII letters. */
  function Lower(s: string): (r: string)
    ensures |r| == |s|
    ensures forall k :: 0 <= k < |s| ==> r[k] == LowerChar(s[k])
  {
    seq(|s|, k requires 0 <= k < |s| => LowerChar(s[k]))
  }

  /** `s.toUpperCase()` restricted to the ASCII letters. */
  function Upper(s: string): (r: string)
    ensures |r| == |s|
    ensures forall k :: 0 <= k < |s| ==> r[k] == UpperChar(s[k])
  {
    seq(|s|, k requires 0 <= k < |s| => UpperChar(s[k]))
  }

  /** Lower-casing twice is lower-casing once. */
  lemma LowerIdempotent(s: string)
    ensures Lower(Lower(s)) == Lower(s)
  {
    assert forall k :: 0 <= k < |s| ==> LowerChar(LowerChar(s[k])) == LowerChar(s[k]);
  }
}
