/**
 * The string primitives the application leans on, as JavaScript defines them:
 * the white-space class shared by `String.prototype.trim` and the regex class `\s`,
 * trimming, lower-casing, digits, substring search and decimal rendering.
 */
module Text {
  import opened Wrappers
  import opened Seqs

  /** JavaScript white space and line terminators (the `\s` class and what `trim` removes). */
  predicate IsWhitespace(c: char) {
    (c <= ' ' && (c == ' ' || '\t' <= c <= '\r'))
    || ('\U{A0}' <= c && IsWideWhitespace(c))
  }

  /** The white space outside ASCII: no-break space, the Unicode space separators, the line and
      paragraph separators and the byte order mark. */
  predicate IsWideWhitespace(c: char) {
    c == '\U{A0}' || c == '\U{1680}' || ('\U{2000}' <= c <= '\U{200A}')
    || c == '\U{2028}' || c == '\U{2029}' || c == '\U{202F}' || c == '\U{205F}'
    || c == '\U{3000}' || c == '\U{FEFF}'
  }

  /** The characters a regex `.` refuses to match. */
  predicate IsLineTerminator(c: char) {
    c == '\n' || c == '\r' || c == '\U{2028}' || c == '\U{2029}'
  }

  predicate IsDigit(c: char) {
    '0' <= c <= '9'
  }

  /** Every character of `s` is a decimal digit. */
  predicate IsDigits(s: string) {
    forall k :: 0 <= k < |s| ==> IsDigit(s[k])
  }

  predicate AllWhitespace(s: string) {
    forall k :: 0 <= k < |s| ==> IsWhitespace(s[k])
  }

  /** Neither end of `s` is white space. */
  predicate NoEdgeWhitespace(s: string) {
    |s| > 0 ==> !IsWhitespace(s[0]) && !IsWhitespace(s[|s| - 1])
  }

  /** A character JavaScript stores as two UTF-16 code units (a surrogate pair). */
  predicate IsAstral(c: char) {
    c > '\U{FFFF}'
  }

  /** JavaScript's `s.length`: UTF-16 code units, two for each character outside the Basic
      Multilingual Plane. */
  function Utf16Length(s: string): (n: nat)
    ensures |s| <= n <= 2 * |s|
  {
    Utf16UnitsFrom(s, 0)
  }

  /** The code units of `s[i..]`. */
  function Utf16UnitsFrom(s: string, i: nat): (n: nat)
    requires i <= |s|
    ensures |s| - i <= n <= 2 * (|s| - i)
    decreases |s| - i
  {
    if i == |s| then 0 else (if IsAstral(s[i]) then 2 else 1) + Utf16UnitsFrom(s, i + 1)
  }

  /** Text inside the Basic Multilingual Plane has one code unit per character. */
  lemma {:induction false} Utf16LengthOfPlane(s: string, i: nat)
    requires i <= |s|
    requires forall k :: i <= k < |s| ==> !IsAstral(s[k])
    ensures Utf16UnitsFrom(s, i) == |s| - i
    decreases |s| - i
  {
    if i < |s| {
      Utf16LengthOfPlane(s, i + 1);
    }
  }

  /** Each character outside the Basic Multilingual Plane adds one unit beyond the character
      count. */
  lemma {:induction false} Utf16LengthOfAstral(s: string, i: nat)
    requires i <= |s|
    requires forall k :: i <= k < |s| ==> IsAstral(s[k])
    ensures Utf16UnitsFrom(s, i) == 2 * (|s| - i)
    decreases |s| - i
  {
    if i < |s| {
      Utf16LengthOfAstral(s, i + 1);
    }
  }

  /** The first index at or after `i` that is not white space, or `|s|`. */
  function SkipBlanks(s: string, i: nat): (n: nat)
    requires i <= |s|
    ensures i <= n <= |s| && (n < |s| ==> !IsWhitespace(s[n]))
    ensures forall k :: i <= k < n ==> IsWhitespace(s[k])
    decreases |s| - i
  {
    if i < |s| && IsWhitespace(s[i]) then SkipBlanks(s, i + 1) else i
  }

  /** The end of `s[..j]` once the white space before `j` is skipped backwards. */
  function SkipBlanksBack(s: string, j: nat): (n: nat)
    requires j <= |s|
    ensures n <= j && (n > 0 ==> !IsWhitespace(s[n - 1]))
    ensures forall k :: n <= k < j ==> IsWhitespace(s[k])
  {
    if j > 0 && IsWhitespace(s[j - 1]) then SkipBlanksBack(s, j - 1) else j
  }

  /** Only the first non-blank index has white space before it and none at it. */
  lemma {:induction false} SkipBlanksUnique(s: string, n: nat)
    requires n <= |s| && (n < |s| ==> !IsWhitespace(s[n]))
    requires forall k :: 0 <= k < n ==> IsWhitespace(s[k])
    ensures SkipBlanks(s, 0) == n
  {
    var m := SkipBlanks(s, 0);
  }

  function TrimStart(s: string): (r: string)
    ensures |r| <= |s| && r == s[|s| - |r|..]
    ensures |r| > 0 ==> !IsWhitespace(r[0])
    ensures AllWhitespace(s[..|s| - |r|])
  {
    var n := SkipBlanks(s, 0);
    assert forall k :: 0 <= k < n ==> s[..n][k] == s[k];
    s[n..]
  }

  function TrimEnd(s: string): (r: string)
    ensures |r| <= |s| && r == s[..|r|]
    ensures |r| > 0 ==> !IsWhitespace(r[|r| - 1])
    ensures AllWhitespace(s[|r|..])
  {
    var n := SkipBlanksBack(s, |s|);
    assert forall k :: 0 <= k < |s| - n ==> s[n..][k] == s[n + k];
    s[..n]
  }

  /** `String.prototype.trim`: the longest infix with no white space at either end. */
  function Trim(s: string): (r: string)
    ensures NoEdgeWhitespace(r)
  {
    TrimEnd(TrimStart(s))
  }

  /** `s` is `r`, found at index `i`, with only white space before and after it. */
  predicate BlankPadded(s: string, r: string, i: int) {
    OccursAt(s, r, i) && AllWhitespace(s[..i]) && AllWhitespace(s[i + |r|..])
  }

  /** Where `Trim(s)` sits in `s`: right after the leading white space, with only white space after it. */
  lemma {:induction false} TrimInfix(s: string)
    ensures BlankPadded(s, Trim(s), |s| - |TrimStart(s)|)
  {
    var t := TrimStart(s);
    TrimParts(s, t, TrimEnd(t), |s| - |t|);
  }

  /** Where the trimmed string sits in `s`: after the leading blanks, before the trailing ones. */
  lemma {:induction false} TrimParts(s: string, t: string, r: string, i: nat)
    requires i <= |s| && t == s[i..] && AllWhitespace(s[..i])
    requires |r| <= |t| && r == t[..|r|] && AllWhitespace(t[|r|..])
    ensures BlankPadded(s, r, i)
  {
    SliceOfSuffix(s, i, |r|);
  }

  lemma {:induction false} TrimStartFixed(s: string)
    requires |s| == 0 || !IsWhitespace(s[0])
    ensures TrimStart(s) == s
  {
    SkipBlanksUnique(s, 0);
  }

  lemma {:induction false} TrimEndFixed(s: string)
    requires |s| == 0 || !IsWhitespace(s[|s| - 1])
    ensures TrimEnd(s) == s
  {
    assert SkipBlanksBack(s, |s|) == |s|;
  }

  /** Leading white space is what `trimStart` removes: it does not change the result. */
  lemma {:induction false} TrimStartAfterWhitespace(w: string, s: string)
    requires AllWhitespace(w)
    ensures TrimStart(w + s) == TrimStart(s)
  {
    var x, n := w + s, SkipBlanks(s, 0);
    forall k | 0 <= k < |w| + n ensures IsWhitespace(x[k]) {
      if k >= |w| { assert x[k] == s[k - |w|]; }
    }
    if |w| + n < |x| { assert x[|w| + n] == s[n]; }
    SkipBlanksUnique(x, |w| + n);
    assert x[|w| + n..] == s[n..];
  }

  /** Only the last non-blank end has white space after it and none just before it. */
  /** Text that ends visible keeps whatever follows it once its leading white space is gone. */
  lemma {:induction false} TrimStartBeforeVisible(a: string, c: string)
    requires |a| > 0 && !IsWhitespace(a[|a| - 1])
    ensures TrimStart(a + c) == TrimStart(a) + c
  { var x, n := a + c, SkipBlanks(a, 0);
    forall k | 0 <= k < n ensures IsWhitespace(x[k]) { assert x[k] == a[k]; }
    assert n < |a| && x[n] == a[n];
    SkipBlanksUnique(x, n);
    assert x[n..] == a[n..] + c; }
  lemma {:induction false} SkipBlanksBackUnique(s: string, n: nat)
    requires n <= |s| && (n > 0 ==> !IsWhitespace(s[n - 1]))
    requires forall k :: n <= k < |s| ==> IsWhitespace(s[k])
    ensures SkipBlanksBack(s, |s|) == n
  {
    var m := SkipBlanksBack(s, |s|);
  }

  /** Trailing white space is what `trimEnd` removes. */
  /** Text that starts visible keeps whatever precedes it once its trailing white space is gone. */
  lemma {:induction false} TrimEndAfterVisible(c: string, b: string)
    requires |b| > 0 && !IsWhitespace(b[0])
    ensures TrimEnd(c + b) == c + TrimEnd(b)
  { var x, n := c + b, SkipBlanksBack(b, |b|);
    assert n > 0 && x[|c| + n - 1] == b[n - 1];
    forall k | |c| + n <= k < |x| ensures IsWhitespace(x[k]) { assert x[k] == b[k - |c|]; }
    SkipBlanksBackUnique(x, |c| + n);
    assert x[..|c| + n] == c + b[..n]; }
  lemma {:induction false} TrimEndBeforeWhitespace(s: string, w: string)
    requires |s| > 0 && !IsWhitespace(s[|s| - 1]) && AllWhitespace(w)
    ensures TrimEnd(s + w) == s
  {
    var x := s + w;
    assert x[|s| - 1] == s[|s| - 1];
    forall k | |s| <= k < |x| ensures IsWhitespace(x[k]) {
      assert x[k] == w[k - |s|];
    }
    SkipBlanksBackUnique(x, |s|);
    assert x[..|s|] == s;
  }

  /** Trimming leaves alone a string that has no white space at its ends; so trimming is idempotent. */
  lemma {:induction false} TrimFixed(s: string)
    requires NoEdgeWhitespace(s)
    ensures Trim(s) == s
  {
    TrimStartFixed(s);
    TrimEndFixed(s);
  }

  /** `!s.trim()`: the trimmed string is empty exactly when every character is white space. */
  lemma {:induction false} TrimEmptyIffBlank(s: string)
    ensures Trim(s) == "" <==> AllWhitespace(s)
  {
    TrimStartEmptyIffBlank(s);
  }

  lemma {:induction false} TrimStartEmptyIffBlank(s: string)
    ensures TrimStart(s) == "" <==> AllWhitespace(s)
  {
    var n := SkipBlanks(s, 0);
  }

  /** `toLowerCase` on one character, for the ASCII and Latin-1 letters. */
  function LowerChar(c: char): (r: char)
    ensures r == c || ('A' <= c <= 'Z' && r as int == c as int + 32)
                   || ('\U{C0}' <= c <= '\U{DE}' && c != '\U{D7}' && r as int == c as int + 32)
  {
    if 'A' <= c <= 'Z' then (c as int + 32) as char
    else if '\U{C0}' <= c <= '\U{DE}' && c != '\U{D7}' then (c as int + 32) as char
    else c
  }

  lemma {:induction false} LowerCharIdempotent(c: char)
    ensures LowerChar(LowerChar(c)) == LowerChar(c)
  {
  }

  /** Lower-casing neither creates nor removes white space. */
  lemma {:induction false} LowerCharKeepsWhitespace(c: char)
    ensures IsWhitespace(LowerChar(c)) <==> IsWhitespace(c)
  {
    if 'A' <= c <= 'Z' || ('\U{C0}' <= c <= '\U{DE}' && c != '\U{D7}') {
      assert !IsWhitespace(c);
      assert 'a' <= LowerChar(c) <= 'z' || '\U{E0}' <= LowerChar(c) <= '\U{FE}';
    }
  }

  /** `String.prototype.toLowerCase`, character by character. */
  function ToLower(s: string): (r: string)
    ensures |r| == |s|
    ensures forall k :: 0 <= k < |s| ==> r[k] == LowerChar(s[k])
  {
    seq(|s|, k requires 0 <= k < |s| => LowerChar(s[k]))
  }

  lemma {:induction false} ToLowerIdempotent(s: string)
    ensures ToLower(ToLower(s)) == ToLower(s)
  {
    forall k | 0 <= k < |s| ensures ToLower(ToLower(s))[k] == ToLower(s)[k] {
      LowerCharIdempotent(s[k]);
    }
  }

  /** `sub` occurs in `s` starting at index `i`. */
  predicate OccursAt(s: string, sub: string, i: int) {
    0 <= i <= |s| - |sub| && s[i..i + |sub|] == sub
  }

  /** `p` occurs at the start of `s`. */
  predicate IsPrefix(p: string, s: string) {
    |p| <= |s| && s[..|p|] == p
  }

  /** `s.includes(sub)`. */
  predicate Contains(s: string, sub: string)
    decreases |s|
  {
    IsPrefix(sub, s) || (|s| > 0 && Contains(s[1..], sub))
  }

  lemma {:induction false} ContainsAt(s: string, sub: string)
    ensures Contains(s, sub) <==> exists i :: OccursAt(s, sub, i)
    decreases |s|
  {
    if IsPrefix(sub, s) {
      assert OccursAt(s, sub, 0);
    }
    if |s| > 0 {
      ContainsAt(s[1..], sub);
      if exists i :: OccursAt(s, sub, i) {
        var i :| OccursAt(s, sub, i);
        if i > 0 {
          assert s[1..][i - 1..i - 1 + |sub|] == sub;
          assert OccursAt(s[1..], sub, i - 1);
        }
      }
      if Contains(s[1..], sub) {
        var i :| OccursAt(s[1..], sub, i);
        assert s[i + 1..i + 1 + |sub|] == sub;
        assert OccursAt(s, sub, i + 1);
      }
    } else {
      if Contains(s, sub) {
        assert OccursAt(s, sub, 0);
      }
    }
  }

  /** The value of a string of decimal digits. */
  function DigitsValue(s: string): nat
    requires IsDigits(s)
  {
    if s == [] then 0
    else
      var d := s[|s| - 1];
      assert IsDigit(d);
      DigitsValue(s[..|s| - 1]) * 10 + (d as int - '0' as int)
  }

  /** The length of the run of digits at the start of `s`. */
  function DigitRun(s: string): (n: nat)
    ensures n <= |s|
    ensures forall k :: 0 <= k < n ==> IsDigit(s[k])
    ensures n < |s| ==> !IsDigit(s[n])
  {
    DigitRunFrom(s, 0)
  }

  /** The first index at or after `i` that does not hold a digit, or `|s|`. */
  function DigitRunFrom(s: string, i: nat): (n: nat)
    requires i <= |s|
    ensures i <= n <= |s| && (n < |s| ==> !IsDigit(s[n]))
    ensures forall k :: i <= k < n ==> IsDigit(s[k])
    decreases |s| - i
  {
    if i < |s| && IsDigit(s[i]) then DigitRunFrom(s, i + 1) else i
  }

  /** The run of digits at the start of `s` is the one that stops at the first non-digit. */
  lemma {:induction false} DigitRunUnique(s: string, n: nat)
    requires n <= |s| && (n < |s| ==> !IsDigit(s[n]))
    requires forall k :: 0 <= k < n ==> IsDigit(s[k])
    ensures DigitRun(s) == n
  {
    var m := DigitRun(s);
  }

  function DigitChar(d: nat): (c: char)
    requires d < 10
    ensures IsDigit(c)
  {
    ('0' as int + d) as char
  }

  /** `String(n)` for a natural number: its decimal digits, without leading zeros. */
  function NatToString(n: nat): (r: string)
    ensures |r| > 0
    ensures IsDigits(r)
    ensures DigitsValue(r) == n
    decreases n
  {
    if n < 10 then [DigitChar(n)] else NatToString(n / 10) + [DigitChar(n % 10)]
  }

  /** Decimal rendering is injective: two different indices never give the same text. */
  lemma {:induction false} NatToStringInjective(m: nat, n: nat)
    requires NatToString(m) == NatToString(n)
    ensures m == n
  {
  }
}
