/**
 * The two JavaScript string builtins the session gate and the reviews screen
 * rely on: `String.prototype.trim` (applied to the user name before the
 * credential check) and `String(n)` for a non-negative integer (the label and
 * key of a star chip).
 */
module JsString {

  /** WhiteSpace or LineTerminator in the ECMAScript grammar: exactly the code
      points `trim` strips from both ends. */
  predicate IsJsWhitespace(c: char)
    ensures c < '\U{0080}' ==>
      (IsJsWhitespace(c) <==> c == '\t' || c == '\n' || c == '\U{000B}' || c == '\U{000C}' || c == '\r' || c == ' ')
    ensures IsJsWhitespace(c) ==> !('0' <= c <= '9') && !('a' <= c <= 'z') && !('A' <= c <= 'Z')
  {
    || c == '\t' || c == '\U{000B}' || c == '\U{000C}' || c == ' '
    || c == '\U{00A0}' || c == '\U{FEFF}'
    // Unicode category Zs beyond SPACE and NO-BREAK SPACE
    || c == '\U{1680}' || ('\U{2000}' <= c <= '\U{200A}')
    || c == '\U{202F}' || c == '\U{205F}' || c == '\U{3000}'
    // LineTerminator
    || c == '\n' || c == '\r' || c == '\U{2028}' || c == '\U{2029}'
  }

  predicate AllWhitespace(s: string) {
    forall i :: 0 <= i < |s| ==> IsJsWhitespace(s[i])
  }

  /** The number of whitespace code points `s` starts with. */
  function LeadingWhitespace(s: string): (n: nat)
    ensures n <= |s|
    ensures forall k :: 0 <= k < n ==> IsJsWhitespace(s[k])
    ensures n < |s| ==> !IsJsWhitespace(s[n])
  {
    if |s| > 0 && IsJsWhitespace(s[0]) then 1 + LeadingWhitespace(s[1..]) else 0
  }

  /** The number of whitespace code points `s` ends with. */
  function TrailingWhitespace(s: string): (n: nat)
    ensures n <= |s|
    ensures forall k :: |s| - n <= k < |s| ==> IsJsWhitespace(s[k])
    ensures n < |s| ==> !IsJsWhitespace(s[|s| - 1 - n])
  {
    if |s| > 0 && IsJsWhitespace(s[|s| - 1]) then 1 + TrailingWhitespace(s[..|s| - 1]) else 0
  }

  /** `s.trim()`: `s` without its leading and its trailing whitespace. */
  function Trim(s: string): (r: string)
    ensures |r| <= |s|
    ensures r == [] || (!IsJsWhitespace(r[0]) && !IsJsWhitespace(r[|r| - 1]))
    ensures r == [] ==> AllWhitespace(s)
  {
    var a := LeadingWhitespace(s);
    if a == |s| then [] else s[a..|s| - TrailingWhitespace(s)]
  }

  /** The slice `Trim` keeps: `s` is that slice framed by whitespace. */
  lemma TrimIsFramedSlice(s: string) returns (i: nat)
    ensures i + |Trim(s)| <= |s| && s[i..i + |Trim(s)|] == Trim(s)
    ensures forall k :: 0 <= k < i ==> IsJsWhitespace(s[k])
    ensures forall k :: i + |Trim(s)| <= k < |s| ==> IsJsWhitespace(s[k])
  {
    i := LeadingWhitespace(s);
  }

  /** Whitespace in front of a text that starts with something else is
      exactly what `LeadingWhitespace` counts. */
  lemma LeadingOfPadded(pre: string, rest: string)
    requires AllWhitespace(pre)
    requires rest != [] && !IsJsWhitespace(rest[0])
    ensures LeadingWhitespace(pre + rest) == |pre|
  {
    var s := pre + rest;
    assert forall k :: 0 <= k < |pre| ==> s[k] == pre[k];
    assert s[|pre|] == rest[0];
  }

  /** Whitespace behind a text that ends with something else is exactly what
      `TrailingWhitespace` counts. */
  lemma TrailingOfPadded(rest: string, post: string)
    requires AllWhitespace(post)
    requires rest != [] && !IsJsWhitespace(rest[|rest| - 1])
    ensures TrailingWhitespace(rest + post) == |post|
  {
    var s := rest + post;
    assert forall k :: 0 <= k < |post| ==> s[|rest| + k] == post[k];
    assert s[|rest| - 1] == rest[|rest| - 1];
  }

  /** A non-blank text framed by whitespace trims to exactly that text. */
  lemma TrimOfPadded(pre: string, core: string, post: string)
    requires AllWhitespace(pre) && AllWhitespace(post)
    requires core != [] && !IsJsWhitespace(core[0]) && !IsJsWhitespace(core[|core| - 1])
    ensures Trim(pre + core + post) == core
  {
    var s := pre + core + post;
    assert s == pre + (core + post) == (pre + core) + post;
    LeadingOfPadded(pre, core + post);
    TrailingOfPadded(pre + core, post);
    assert s[|pre|..|s| - |post|] == core;
  }

  /** Trimming twice is trimming once. */
  lemma TrimIdempotent(s: string)
    ensures Trim(Trim(s)) == Trim(s)
  {
    var r := Trim(s);
    if r != [] {
      TrimOfPadded([], r, []);
      assert [] + r + [] == r;
    }
  }

  function DigitChar(d: nat): (c: char)
    requires d < 10
    ensures '0' <= c <= '9' && c as int == '0' as int + d
  {
    ('0' as int + d) as char
  }

  function DigitValue(c: char): (d: nat)
    requires '0' <= c <= '9'
    ensures d < 10 && DigitChar(d) == c
  {
    c as int - '0' as int
  }

  predicate IsDigits(s: string) {
    forall i :: 0 <= i < |s| ==> '0' <= s[i] <= '9'
  }

  /** `String(n)` for a non-negative integer: its decimal digits, most
      significant first, without leading zeros. */
  function DecimalString(n: nat): (r: string)
    ensures r != [] && IsDigits(r)
    ensures r[0] == '0' <==> n == 0
    ensures n < 10 ==> |r| == 1
  {
    if n < 10 then [DigitChar(n)] else DecimalString(n / 10) + [DigitChar(n % 10)]
  }

  /** Reads a string of decimal digits back as a number. */
  function ParseDecimal(s: string): nat
    requires IsDigits(s)
  {
    if s == [] then 0 else 10 * ParseDecimal(s[..|s| - 1]) + DigitValue(s[|s| - 1])
  }

  /** `String(n)` loses nothing: parsing it gives back `n`. */
  lemma {:induction false} DecimalRoundTrip(n: nat)
    ensures ParseDecimal(DecimalString(n)) == n
  {
    var r := DecimalString(n);
    if n >= 10 {
      var q, d := n / 10, n % 10;
      assert n == 10 * q + d;
      DecimalRoundTrip(q);
      assert r == DecimalString(q) + [DigitChar(d)];
      assert r[..|r| - 1] == DecimalString(q);
      assert DigitValue(r[|r| - 1]) == d;
    }
  }

  /** Distinct numbers have distinct decimal strings. */
  lemma DecimalStringInjective(a: nat, b: nat)
    requires DecimalString(a) == DecimalString(b)
    ensures a == b
  {
    DecimalRoundTrip(a);
    DecimalRoundTrip(b);
  }
}
