/** The string operations of Python that several components lean on: whitespace, `strip`, and decimal numbers. */
module Text {
  import opened Prelude

  /** `str.isspace` for one character; the ASCII separators 0x1c to 0x1f are whitespace to Python. */
  predicate IsSpace(c: char) {
    var n := c as int;
    || 0x09 <= n <= 0x0d || 0x1c <= n <= 0x20 || n == 0x85 || n == 0xa0 || n == 0x1680
    || 0x2000 <= n <= 0x200a || n == 0x2028 || n == 0x2029 || n == 0x202f || n == 0x205f || n == 0x3000
  }

  /** Python's ASCII whitespace, by name. */
  lemma AsciiWhitespace(c: char)
    requires c as int < 128
    ensures IsSpace(c) <==> || c == ' ' || c == '\t' || c == '\n' || c == '\r'
                            || c as int == 0x0b || c as int == 0x0c    // vertical tab and form feed
                            || c as int == 0x1c || c as int == 0x1d    // file and group separators
                            || c as int == 0x1e || c as int == 0x1f    // record and unit separators
  {
  }

  /** Beyond ASCII: the spaces that Python strips, and three invisible characters that it does not. */
  lemma WiderWhitespace(c: char)
    ensures c as int == 0x85 || c as int == 0xa0 || c as int == 0x1680 || c as int == 0x3000 ==> IsSpace(c)
    ensures 0x2000 <= c as int <= 0x200a || c as int == 0x2028 || c as int == 0x2029 ==> IsSpace(c)
    ensures c as int == 0x202f || c as int == 0x205f ==> IsSpace(c)
    ensures c as int == 0x180e || c as int == 0x200b || c as int == 0xfeff ==> !IsSpace(c)
  {
  }

  function LStripBy(s: string, drop: char -> bool): string {
    if s != "" && drop(s[0]) then LStripBy(s[1..], drop) else s
  }

  function RStripBy(s: string, drop: char -> bool): string {
    if s != "" && drop(s[|s| - 1]) then RStripBy(s[..|s| - 1], drop) else s
  }

  lemma {:induction false} LStripFacts(s: string, drop: char -> bool)
    ensures var r := LStripBy(s, drop);
            && |r| <= |s| && r == s[|s| - |r|..]
            && (r == "" || !drop(r[0]))
            && forall i :: 0 <= i < |s| - |r| ==> drop(s[i])
  {
    if s != "" && drop(s[0]) {
      LStripFacts(s[1..], drop);
      var r := LStripBy(s[1..], drop);
      assert r == s[1..][|s| - 1 - |r|..] == s[|s| - |r|..];
      forall i | 0 <= i < |s| - |r| ensures drop(s[i]) {
        if i > 0 {
          assert s[1..][i - 1] == s[i];
        }
      }
    }
  }

  lemma {:induction false} RStripFacts(s: string, drop: char -> bool)
    ensures var r := RStripBy(s, drop);
            && |r| <= |s| && r == s[..|r|]
            && (r == "" || !drop(r[|r| - 1]))
            && forall i :: |r| <= i < |s| ==> drop(s[i])
  {
    if s != "" && drop(s[|s| - 1]) {
      RStripFacts(s[..|s| - 1], drop);
    }
  }

  /** `str.strip()`. */
  function Strip(s: string): string {
    RStripBy(LStripBy(s, IsSpace), IsSpace)
  }

  /** Stripping is the identity exactly on text that neither begins nor ends with whitespace. */
  lemma StripIsIdentityIff(s: string)
    ensures Strip(s) == s <==> s == "" || (!IsSpace(s[0]) && !IsSpace(s[|s| - 1]))
    ensures |Strip(s)| <= |s|
    ensures |Strip(s)| == |s| ==> Strip(s) == s
  {
    LStripFacts(s, IsSpace);
    RStripFacts(LStripBy(s, IsSpace), IsSpace);
  }

  predicate IsDigit(c: char) {
    '0' <= c <= '9'
  }

  function Digit(d: nat): char
    requires d < 10
  {
    '0' + d as char
  }

  function DigitValue(c: char): nat
    requires IsDigit(c)
  {
    c as int - '0' as int
  }

  predicate AllDigits(s: string) {
    forall i :: 0 <= i < |s| ==> IsDigit(s[i])
  }

  /** `str(n)` for a natural number. */
  function Decimal(n: nat): (s: string)
    ensures s != "" && AllDigits(s)
  {
    if n < 10 then [Digit(n)] else Decimal(n / 10) + [Digit(n % 10)]
  }

  function DigitsValue(s: string): nat
    requires AllDigits(s)
  {
    if s == "" then 0 else 10 * DigitsValue(s[..|s| - 1]) + DigitValue(s[|s| - 1])
  }

  lemma {:induction false} DecimalReadsBack(n: nat)
    ensures DigitsValue(Decimal(n)) == n
  {
    if n < 10 {
      assert Decimal(n)[..0] == "";
    } else {
      DecimalReadsBack(n / 10);
      assert Decimal(n)[..|Decimal(n)| - 1] == Decimal(n / 10);
    }
  }

  /** Digits with single underscores between them, as Python's numeric literals allow. */
  predicate Grouped(s: string) {
    && s != "" && IsDigit(s[0]) && IsDigit(s[|s| - 1])
    && (forall i :: 0 <= i < |s| ==> IsDigit(s[i]) || s[i] == '_')
    && (forall i :: 0 <= i < |s| - 1 ==> !(s[i] == '_' && s[i + 1] == '_'))
  }

  function WithoutUnderscores(s: string): (r: string)
    requires forall i :: 0 <= i < |s| ==> IsDigit(s[i]) || s[i] == '_'
    ensures AllDigits(r)
  {
    if s == "" then ""
    else if s[0] == '_' then WithoutUnderscores(s[1..])
    else [s[0]] + WithoutUnderscores(s[1..])
  }

  lemma {:induction false} NoUnderscores(s: string)
    requires AllDigits(s)
    ensures WithoutUnderscores(s) == s
  {
    if s != "" {
      NoUnderscores(s[1..]);
    }
  }

  /** Digits with grouping underscores. */
  function Magnitude(digits: string): Option<int> {
    if Grouped(digits) then Some(DigitsValue(WithoutUnderscores(digits))) else None
  }

  function Negated(n: Option<int>): Option<int> {
    if n.Some? then Some(-n.value) else None
  }

  /** One sign, if any, before the digits. */
  function SignedNumber(t: string): Option<int> {
    if t != "" && t[0] == '-' then Negated(Magnitude(t[1..]))
    else if t != "" && t[0] == '+' then Magnitude(t[1..])
    else Magnitude(t)
  }

  /** `int(s)` over ASCII digits, surrounding whitespace ignored. */
  function PyInt(s: string): Option<int> {
    SignedNumber(Strip(s))
  }

  lemma DigitsAreNotSpecial(s: string)
    requires s != "" && AllDigits(s)
    ensures Strip(s) == s && PyInt(s) == Some(DigitsValue(s))
  {
    assert Strip(s) == s by {
      assert IsDigit(s[0]) && IsDigit(s[|s| - 1]);
      StripIsIdentityIff(s);
    }
    assert s[0] != '-' && s[0] != '+' by { assert IsDigit(s[0]); }
    assert Grouped(s);
    NoUnderscores(s);
  }

  /** Reading a printed number gives the number back. */
  lemma {:induction false} PyIntOfDecimal(n: nat)
    ensures PyInt(Decimal(n)) == Some(n)
  {
    DecimalReadsBack(n);
    DigitsAreNotSpecial(Decimal(n));
  }

  lemma StripKeeps(s: string)
    requires s != "" && !IsSpace(s[0]) && !IsSpace(s[|s| - 1])
    ensures Strip(s) == s
  {
    StripIsIdentityIff(s);
  }

  lemma GroupedDigits(ds: string)
    requires ds != "" && AllDigits(ds)
    ensures Grouped(ds) && WithoutUnderscores(ds) == ds
  {
    assert IsDigit(ds[0]) && IsDigit(ds[|ds| - 1]);
    NoUnderscores(ds);
  }

  lemma MagnitudeOfDigits(ds: string)
    requires ds != "" && AllDigits(ds)
    ensures Magnitude(ds) == Some(DigitsValue(ds))
  {
    GroupedDigits(ds);
  }

  lemma SignedIsRead(ds: string, n: int)
    requires Magnitude(ds) == Some(n)
    ensures SignedNumber(['-'] + ds) == Some(-n) && SignedNumber(['+'] + ds) == Some(n)
  {
    assert (['-'] + ds)[1..] == ds && (['+'] + ds)[1..] == ds;
  }

  lemma SignedIsStripped(sign: char, ds: string)
    requires (sign == '-' || sign == '+') && ds != "" && AllDigits(ds)
    ensures Strip([sign] + ds) == [sign] + ds
  {
    var s := [sign] + ds;
    assert s[|s| - 1] == ds[|ds| - 1] && IsDigit(ds[|ds| - 1]);
    StripKeeps(s);
  }

  lemma SignedPyInt(ds: string, n: int)
    requires Magnitude(ds) == Some(n) && Strip(['-'] + ds) == ['-'] + ds && Strip(['+'] + ds) == ['+'] + ds
    ensures PyInt(['-'] + ds) == Some(-n) && PyInt(['+'] + ds) == Some(n)
  {
    SignedIsRead(ds, n);
  }

  /** A sign before the digits is read. */
  lemma PyIntReadsSigns(ds: string, n: int)
    requires ds != "" && AllDigits(ds) && n == DigitsValue(ds)
    ensures PyInt(['-'] + ds) == Some(-n) && PyInt(['+'] + ds) == Some(n)
  {
    MagnitudeOfDigits(ds);
    SignedIsStripped('-', ds);
    SignedIsStripped('+', ds);
    SignedPyInt(ds, n);
  }

  /** A text with a character that is no digit, sign, underscore or whitespace is not a number. */
  lemma ForeignIsNoNumber(s: string, i: nat)
    requires i < |s| && !IsDigit(s[i]) && s[i] != '-' && s[i] != '+' && s[i] != '_' && !IsSpace(s[i])
    ensures PyInt(s) == None && Strip(s) != ""
  {
    LStripFacts(s, IsSpace);
    var l := LStripBy(s, IsSpace);
    RStripFacts(l, IsSpace);
    var t := Strip(s);
    var k := i - (|s| - |l|);
    assert i >= |s| - |l|;
    assert l[k] == s[i];
    assert k < |t|;
    assert t[k] == s[i];
    if t[0] == '-' || t[0] == '+' {
      assert t[1..][k - 1] == s[i];
    }
  }
}
