/**
 * The PHP values the plugin handles and the PHP built-ins it relies on:
 * `empty()`, `intval()`, conversion of a scalar to a string, and `trim()`.
 */
module PhpValues {

  /** A PHP scalar as it can sit in a settings array. A missing key reads as Null. */
  datatype Scalar = Null | Bool(b: bool) | Int(n: int) | Str(s: string)

  /** Bounds of a 64-bit PHP integer. */
  const PhpIntMax: int := 0x7FFF_FFFF_FFFF_FFFF
  const PhpIntMin: int := -0x8000_0000_0000_0000

  /** PHP `empty()`: null, false, 0, "" and "0" are empty; so `!$x` holds of exactly these. */
  predicate Empty(v: Scalar) {
    match v
    case Null => true
    case Bool(b) => !b
    case Int(n) => n == 0
    case Str(s) => s == "" || s == "0"
  }

  predicate IsDigit(c: char) {
    '0' <= c <= '9'
  }

  predicate AllDigits(s: string) {
    forall i :: 0 <= i < |s| ==> IsDigit(s[i])
  }

  function DigitValue(c: char): nat
    requires IsDigit(c)
  {
    (c as int) - ('0' as int)
  }

  function DigitChar(d: nat): (c: char)
    requires d < 10
    ensures IsDigit(c) && DigitValue(c) == d
  {
    ('0' as int + d) as char
  }

  /** Decimal text of a natural number, most significant digit first, without leading zeros. */
  function NatString(n: nat): (s: string)
    ensures |s| >= 1 && AllDigits(s)
    ensures s[0] == '0' ==> n == 0
    decreases n
  {
    if n < 10 then [DigitChar(n)] else NatString(n / 10) + [DigitChar(n % 10)]
  }

  /** PHP's string form of an integer (`(string)$n`, and `$n . '|'`). */
  function DecimalString(n: int): (s: string)
    ensures |s| >= 1 && (s[0] == '-' <==> n < 0)
    ensures forall i :: 0 <= i < |s| ==> IsDigit(s[i]) || (i == 0 && s[i] == '-')
  {
    if n < 0 then "-" + NatString(-n) else NatString(n)
  }

  /** Value of a run of decimal digits, read left to right. */
  function DigitsValue(s: string): nat
    requires AllDigits(s)
  {
    if s == [] then 0 else 10 * DigitsValue(s[..|s| - 1]) + DigitValue(s[|s| - 1])
  }

  /** The longest prefix of `s` made of decimal digits. */
  function LeadingDigits(s: string): (d: string)
    ensures |d| <= |s| && d == s[..|d|] && AllDigits(d)
    ensures |d| == |s| || !IsDigit(s[|d|])
  {
    if s == [] || !IsDigit(s[0]) then [] else [s[0]] + LeadingDigits(s[1..])
  }

  /** Whitespace PHP allows before a numeric string. */
  predicate IsNumericSpace(c: char) {
    c == ' ' || c == '\t' || c == '\n' || c == '\r' || c == '\U{B}' || c == '\U{C}'
  }

  /** `s` without its leading numeric whitespace. */
  function SkipSpace(s: string): (t: string)
    ensures |t| <= |s| && t == s[|s| - |t|..]
    ensures t == [] || !IsNumericSpace(t[0])
  {
    if s != [] && IsNumericSpace(s[0]) then SkipSpace(s[1..]) else s
  }

  /** An integer saturated to the 64-bit range. */
  function Saturate(n: int): int {
    if n > PhpIntMax then PhpIntMax else if n < PhpIntMin then PhpIntMin else n
  }

  /** The signed number at the head of `t`: an optional sign, then the leading digits. */
  function SignedPrefixValue(t: string): int {
    if t != [] && t[0] == '-' then 0 - DigitsValue(LeadingDigits(t[1..])) as int
    else if t != [] && t[0] == '+' then DigitsValue(LeadingDigits(t[1..]))
    else DigitsValue(LeadingDigits(t))
  }

  /**
   * PHP `intval` of a string: leading whitespace, an optional sign, then the
   * leading decimal digits; no digits gives 0, and overflow saturates.
   */
  function StringToInt(s: string): int {
    Saturate(SignedPrefixValue(SkipSpace(s)))
  }

  /** PHP `intval($v)`. */
  function IntVal(v: Scalar): int {
    match v
    case Null => 0
    case Bool(b) => if b then 1 else 0
    case Int(n) => n
    case Str(s) => StringToInt(s)
  }

  /** PHP conversion of a scalar to a string, as `sanitize_text_field` receives it. */
  function ToText(v: Scalar): string {
    match v
    case Null => ""
    case Bool(b) => if b then "1" else ""
    case Int(n) => DecimalString(n)
    case Str(s) => s
  }

  lemma {:induction false} DigitsValueOfNatString(n: nat)
    ensures DigitsValue(NatString(n)) == n
  {
    if n >= 10 {
      var s := NatString(n);
      assert s[..|s| - 1] == NatString(n / 10);
      DigitsValueOfNatString(n / 10);
    }
  }

  lemma {:induction false} NatStringInjective(a: nat, b: nat)
    requires NatString(a) == NatString(b)
    ensures a == b
  {
    DigitsValueOfNatString(a);
    DigitsValueOfNatString(b);
  }

  /** Decimal text starts with neither whitespace nor a sign unless it is negative. */
  lemma SkipSpaceOfDecimalString(n: int)
    ensures SkipSpace(DecimalString(n)) == DecimalString(n)
  {
    var s := DecimalString(n);
    assert !IsNumericSpace(s[0]);
  }

  /** `intval` reads back every 64-bit integer from its decimal text. */
  lemma IntValOfDecimalString(n: int)
    requires PhpIntMin <= n <= PhpIntMax
    ensures IntVal(Str(DecimalString(n))) == n
  {
    var s := DecimalString(n);
    SkipSpaceOfDecimalString(n);
    if n < 0 {
      var d := NatString(-n);
      assert s[1..] == d;
      assert LeadingDigits(d) == d;
      DigitsValueOfNatString(-n);
      assert SignedPrefixValue(s) == n;
    } else {
      var d := NatString(n);
      assert s == d && s[0] != '-' && s[0] != '+';
      assert LeadingDigits(d) == d;
      DigitsValueOfNatString(n);
      assert SignedPrefixValue(s) == n;
    }
  }

  /** Distinct integers have distinct decimal text. */
  lemma DecimalStringInjective(m: int, n: int)
    requires DecimalString(m) == DecimalString(n)
    ensures m == n
  {
    if m < 0 && n < 0 {
      assert NatString(-m) == DecimalString(m)[1..];
      assert NatString(-n) == DecimalString(n)[1..];
      NatStringInjective(-m, -n);
    } else if m >= 0 && n >= 0 {
      NatStringInjective(m, n);
    }
  }

  /** Decimal text never contains `c` unless `c` is a digit or the minus sign. */
  lemma DecimalStringAvoids(n: int, c: char)
    requires !IsDigit(c) && c != '-'
    ensures c !in DecimalString(n)
  {
  }

  /** Position of the first `c` in `s`. */
  function IndexOf(s: string, c: char): (k: nat)
    requires c in s
    ensures k < |s| && s[k] == c
  {
    if s[0] == c then 0 else 1 + IndexOf(s[1..], c)
  }

  lemma {:induction false} IndexOfSeparator(a: string, b: string, sep: char)
    requires sep !in a
    ensures sep in a + [sep] + b && IndexOf(a + [sep] + b, sep) == |a|
  {
    var s := a + [sep] + b;
    assert s[|a|] == sep;
    if a != [] {
      assert s[1..] == a[1..] + [sep] + b;
      IndexOfSeparator(a[1..], b, sep);
    }
  }

  /**
   * Splitting at the first separator: two strings joined around `sep` are
   * equal only if both halves are, when the left halves never contain `sep`.
   */
  lemma SplitAtSeparator(a1: string, b1: string, a2: string, b2: string, sep: char)
    requires sep !in a1 && sep !in a2
    requires a1 + [sep] + b1 == a2 + [sep] + b2
    ensures a1 == a2 && b1 == b2
  {
    var s := a1 + [sep] + b1;
    IndexOfSeparator(a1, b1, sep);
    IndexOfSeparator(a2, b2, sep);
    assert a1 == s[..|a1|] == a2;
    assert b1 == s[|a1| + 1..] == b2;
  }

  /** Characters PHP `trim()` strips by default: space, tab, LF, CR, NUL and vertical tab. */
  predicate IsTrimChar(c: char) {
    c == ' ' || c == '\t' || c == '\n' || c == '\r' || c == '\0' || c == '\U{B}'
  }

  predicate AllTrimChars(s: string) {
    forall i :: 0 <= i < |s| ==> IsTrimChar(s[i])
  }

  /** `ltrim($s)`: the suffix left after dropping leading trim characters. */
  function TrimStart(s: string): (r: string)
    ensures |r| <= |s| && r == s[|s| - |r|..]
    ensures AllTrimChars(s[..|s| - |r|])
    ensures r == [] || !IsTrimChar(r[0])
  {
    if s != [] && IsTrimChar(s[0]) then TrimStart(s[1..]) else s
  }

  /** `rtrim($s)`: the prefix left after dropping trailing trim characters. */
  function TrimEnd(s: string): (r: string)
    ensures |r| <= |s| && r == s[..|r|]
    ensures AllTrimChars(s[|r|..])
    ensures r == [] || !IsTrimChar(r[|r| - 1])
  {
    if s != [] && IsTrimChar(s[|s| - 1]) then TrimEnd(s[..|s| - 1]) else s
  }

  /** PHP `trim($s)`. */
  function Trim(s: string): (r: string)
    ensures |r| <= |s|
    ensures r == [] || (!IsTrimChar(r[0]) && !IsTrimChar(r[|r| - 1]))
  {
    TrimEnd(TrimStart(s))
  }

  lemma {:induction false} TrimStartSkips(p: string, t: string)
    requires AllTrimChars(p)
    requires t == [] || !IsTrimChar(t[0])
    ensures TrimStart(p + t) == t
  {
    if p != [] {
      assert (p + t)[1..] == p[1..] + t;
      TrimStartSkips(p[1..], t);
    } else {
      assert p + t == t;
    }
  }

  lemma {:induction false} TrimEndSkips(t: string, q: string)
    requires AllTrimChars(q)
    requires t == [] || !IsTrimChar(t[|t| - 1])
    ensures TrimEnd(t + q) == t
  {
    if q != [] {
      assert (t + q)[..|t + q| - 1] == t + q[..|q| - 1];
      TrimEndSkips(t, q[..|q| - 1]);
    } else {
      assert t + q == t;
    }
  }

  /**
   * `trim` is characterised by its result: whatever trim characters surround
   * a string that neither starts nor ends with one, `trim` returns that string.
   */
  lemma TrimUnique(p: string, r: string, q: string)
    requires AllTrimChars(p) && AllTrimChars(q)
    requires r == [] || (!IsTrimChar(r[0]) && !IsTrimChar(r[|r| - 1]))
    ensures Trim(p + r + q) == r
  {
    if r != [] {
      assert p + r + q == p + (r + q);
      TrimStartSkips(p, r + q);
      TrimEndSkips(r, q);
    } else {
      assert p + r + q == (p + q) + [];
      TrimStartSkips(p + q, []);
    }
  }
}
