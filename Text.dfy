/** Kotlin string operations the app uses: `isWhitespace`, `isBlank`, `trim`,
    `String.length` (UTF-16 code units) and the decimal `toString` of integers. */
module Text {

  /** Kotlin's `Char.isWhitespace()` on the JVM: `Character.isWhitespace(c) ||
      Character.isSpaceChar(c)`, i.e. the ASCII controls TAB..CR and FS..US plus
      every space, line and paragraph separator of Unicode. */
  predicate IsWhitespace(c: char) {
    || ('\t' <= c <= '\r')
    || ('\U{1C}' <= c <= ' ')
    || c == '\U{A0}' || c == '\U{1680}'
    || ('\U{2000}' <= c <= '\U{200A}')
    || c == '\U{2028}' || c == '\U{2029}' || c == '\U{202F}' || c == '\U{205F}' || c == '\U{3000}'
  }

  /** `CharSequence.isBlank()`: empty or whitespace only. */
  predicate IsBlank(s: string) {
    forall i :: 0 <= i < |s| ==> IsWhitespace(s[i])
  }

  /** Drops the leading whitespace, returning how many characters it dropped. */
  function LeadingBlank(s: string): (k: nat)
    ensures k <= |s|
    ensures IsBlank(s[..k])
    ensures k == |s| || !IsWhitespace(s[k])
  {
    if s != [] && IsWhitespace(s[0]) then
      var k' := LeadingBlank(s[1..]);
      assert s[1..][..k'] == s[1..k' + 1];
      1 + k'
    else
      0
  }

  /** The number of trailing whitespace characters. */
  function TrailingBlank(s: string): (k: nat)
    ensures k <= |s|
    ensures IsBlank(s[|s| - k..])
    ensures k == |s| || !IsWhitespace(s[|s| - k - 1])
  {
    if s != [] && IsWhitespace(s[|s| - 1]) then
      var k' := TrailingBlank(s[..|s| - 1]);
      assert s[..|s| - 1][|s| - 1 - k'..] == s[|s| - 1 - k'..|s| - 1];
      1 + k'
    else
      0
  }

  /** `String.trim()`: the part of `s` between its leading and trailing whitespace. */
  function Trim(s: string): (t: string)
    ensures exists i, j :: 0 <= i <= j <= |s| && t == s[i..j] && IsBlank(s[..i]) && IsBlank(s[j..])
    ensures t != [] ==> !IsWhitespace(t[0]) && !IsWhitespace(t[|t| - 1])
    ensures t == [] <==> IsBlank(s)
  {
    var i := LeadingBlank(s);
    if i == |s| then
      assert s[..i] == s;
      assert s[i..i] == [] && IsBlank(s[i..]);
      []
    else
      var j := |s| - TrailingBlank(s);
      assert !IsWhitespace(s[i]) && !IsWhitespace(s[j - 1]);
      s[i..j]
  }

  /** A concatenation is blank exactly when both parts are. */
  lemma {:induction false} BlankAppend(a: string, b: string)
    ensures IsBlank(a + b) <==> IsBlank(a) && IsBlank(b)
  {
    forall n | 0 <= n < |a| ensures (a + b)[n] == a[n] { }
    forall n | 0 <= n < |b| ensures (a + b)[|a| + n] == b[n] { }
    if IsBlank(a) && IsBlank(b) {
      forall n | 0 <= n < |a + b| ensures IsWhitespace((a + b)[n]) {
        if n >= |a| {
          assert (a + b)[n] == b[n - |a|];
        }
      }
    }
  }

  /** The whitespace of Kotlin on the JVM: the no-break spaces and the
      ideographic space count, the zero-width space and a letter do not. */
  lemma BlankExamples()
    ensures IsBlank("") && IsBlank(" \t\n\r") && IsBlank("\U{A0}\U{2007}\U{3000}")
    ensures !IsBlank(" a ") && !IsBlank("\U{200B}")
  {
    assert " a "[1] == 'a';
    assert "\U{200B}"[0] == '\U{200B}';
  }

  /** Kotlin's `String.length`: the number of UTF-16 code units, two for every
      character outside the Basic Multilingual Plane. */
  function Utf16Length(s: string): (n: nat)
    ensures |s| <= n <= 2 * |s|
    ensures (forall i :: 0 <= i < |s| ==> s[i] as int <= 0xFFFF) ==> n == |s|
  {
    if s == [] then 0
    else (if s[0] as int > 0xFFFF then 2 else 1) + Utf16Length(s[1..])
  }

  predicate IsDigit(c: char) {
    '0' <= c <= '9'
  }

  predicate AllDigits(s: string) {
    forall i :: 0 <= i < |s| ==> IsDigit(s[i])
  }

  function DigitChar(d: nat): (c: char)
    requires d < 10
    ensures IsDigit(c) && c as int - '0' as int == d
  {
    ('0' as int + d) as char
  }

  /** The decimal digits of `n`, most significant first, without leading zeros. */
  function NatToString(n: nat): (s: string)
    ensures |s| >= 1 && AllDigits(s)
    ensures s[0] == '0' ==> n == 0
  {
    if n < 10 then [DigitChar(n)] else NatToString(n / 10) + [DigitChar(n % 10)]
  }

  /** The value of a string of decimal digits. */
  function ParseNat(s: string): nat
    requires AllDigits(s)
  {
    if s == [] then 0 else 10 * ParseNat(s[..|s| - 1]) + (s[|s| - 1] as int - '0' as int)
  }

  /** `Long.toString()` and `Int.toString()`: a minus sign for negative values. */
  function LongToString(n: int): (s: string)
    ensures |s| >= 1
    ensures n >= 0 <==> AllDigits(s)
  {
    if n < 0 then
      var s := "-" + NatToString(-n);
      assert !IsDigit(s[0]);
      s
    else
      NatToString(n)
  }

  /** Reading the digits back gives the number: the decimal form is a faithful encoding. */
  lemma {:induction false} ParseNatToString(n: nat)
    ensures ParseNat(NatToString(n)) == n
  {
    if n >= 10 {
      var s := NatToString(n);
      assert s[..|s| - 1] == NatToString(n / 10);
      ParseNatToString(n / 10);
    }
  }

  /** Different numbers have different decimal forms. */
  lemma LongToStringInjective(m: int, n: int)
    requires LongToString(m) == LongToString(n)
    ensures m == n
  {
    if m < 0 {
      assert n < 0;
      var a, b := NatToString(-m), NatToString(-n);
      assert LongToString(m) == "-" + a && LongToString(n) == "-" + b;
      assert a == ("-" + a)[1..] && b == ("-" + b)[1..];
      NatToStringInjective(-m, -n);
    } else {
      assert n >= 0;
      NatToStringInjective(m, n);
    }
  }

  lemma NatToStringInjective(a: nat, b: nat)
    requires NatToString(a) == NatToString(b)
    ensures a == b
  {
    ParseNatToString(a);
    ParseNatToString(b);
  }
}
