/**
 * The ECMAScript built-ins the core relies on, on strings of code points:
 * `String.prototype.indexOf`, `includes` and `replace` (with a string as the
 * pattern), `String(n)` for integers, `parseInt` without a radix, and the
 * numbers `parseInt` can produce (an integer or NaN).
 */
module Js {

  /** A JavaScript number as far as the core uses it: an integer or NaN. */
  datatype Number = Num(n: int) | NaN

  /** `t` occurs in `s` starting at index `j`. */
  predicate MatchAt(s: string, t: string, j: int)
  {
    0 <= j && j + |t| <= |s| && s[j..j + |t|] == t
  }

  /** The search of `indexOf` from position `k` on. */
  function IndexFrom(s: string, t: string, k: nat): (r: int)
    requires k <= |s| + 1
    ensures r == -1 || (k <= r && MatchAt(s, t, r))
    ensures forall j :: k <= j && (r == -1 || j < r) ==> !MatchAt(s, t, j)
    decreases |s| + 1 - k
  {
    if k + |t| > |s| then -1
    else if s[k..k + |t|] == t then k
    else IndexFrom(s, t, k + 1)
  }

  /** `s.indexOf(t)`: the first index at which `t` occurs, or -1. */
  function IndexOf(s: string, t: string): (r: int)
    ensures r == -1 || MatchAt(s, t, r)
    ensures forall j :: 0 <= j && (r == -1 || j < r) ==> !MatchAt(s, t, j)
  {
    IndexFrom(s, t, 0)
  }

  /** `s.includes(t)`. */
  predicate Includes(s: string, t: string)
  {
    IndexOf(s, t) >= 0
  }

  lemma IncludesMeansOccurs(s: string, t: string)
    ensures Includes(s, t) <==> exists j :: MatchAt(s, t, j)
  {
    if !Includes(s, t) {
      forall j ensures !MatchAt(s, t, j) {
        if j < 0 {} else {}
      }
    }
  }

  /**
   * The expansion of a replacement template by GetSubstitution
   * (section 22.1.3.19.1 of ECMA-262) when the pattern is a string, so that
   * there are no captures: `$$` gives `$`, `$&` the matched text, `$``
   * the text before the match and `$'` the text after it; every other
   * character, a lone `$` included, is copied.
   */
  function Expand(template: string, matched: string, before: string, after: string): string
    decreases |template|
  {
    if |template| >= 2 && template[0] == '$' && template[1] == '$' then
      "$" + Expand(template[2..], matched, before, after)
    else if |template| >= 2 && template[0] == '$' && template[1] == '&' then
      matched + Expand(template[2..], matched, before, after)
    else if |template| >= 2 && template[0] == '$' && template[1] == '`' then
      before + Expand(template[2..], matched, before, after)
    else if |template| >= 2 && template[0] == '$' && template[1] == '\'' then
      after + Expand(template[2..], matched, before, after)
    else if template == [] then
      []
    else
      [template[0]] + Expand(template[1..], matched, before, after)
  }

  /** A template without `$` expands to itself. */
  lemma {:induction false} ExpandPlain(template: string, matched: string, before: string, after: string)
    requires '$' !in template
    ensures Expand(template, matched, before, after) == template
    decreases |template|
  {
    if template != [] {
      assert template[0] != '$';
      assert '$' !in template[1..];
      ExpandPlain(template[1..], matched, before, after);
    }
  }

  /**
   * `s.replace(pattern, replacement)` with a string pattern: only the first
   * occurrence is replaced, by the expansion of the template.
   */
  function Replace(s: string, pattern: string, replacement: string): string
  {
    var i := IndexOf(s, pattern);
    if i < 0 then s
    else
      var before, after := s[..i], s[i + |pattern|..];
      before + Expand(replacement, s[i..i + |pattern|], before, after) + after
  }

  /** With a template free of `$` the replacement text is inserted verbatim. */
  lemma ReplacePlain(s: string, pattern: string, replacement: string)
    requires '$' !in replacement
    requires Includes(s, pattern)
    ensures var i := IndexOf(s, pattern);
      Replace(s, pattern, replacement) == s[..i] + replacement + s[i + |pattern|..]
  {
    var i := IndexOf(s, pattern);
    ExpandPlain(replacement, pattern, s[..i], s[i + |pattern|..]);
  }

  /** The template `$&` puts the matched text back, so the string comes back unchanged. */
  lemma ReplaceWithMatch(s: string, pattern: string)
    ensures Replace(s, pattern, "$&") == s
  {
    var i := IndexOf(s, pattern);
    if i >= 0 {
      var before, matched, after := s[..i], s[i..i + |pattern|], s[i + |pattern|..];
      assert "$&"[2..] == [];
      assert Expand("$&", matched, before, after) == matched + Expand([], matched, before, after);
      assert before + matched + after == s;
    }
  }

  // ---------------------------------------------------------------------
  // Number to string and back

  /** The character of a decimal digit: `'0'` to `'9'`. */
  function DigitChar(d: nat): (c: char)
    requires d < 10
  {
    ('0' as int + d) as char
  }

  /** The decimal digits of a natural number, most significant first. */
  function Decimal(n: nat): (s: string)
    ensures |s| >= 1
    ensures forall i :: 0 <= i < |s| ==> '0' <= s[i] <= '9'
    decreases n
  {
    if n < 10 then [DigitChar(n)] else Decimal(n / 10) + [DigitChar(n % 10)]
  }

  /**
   * `String(n)` for an integer `n`: its decimal digits, after a `-` when `n`
   * is negative.
   */
  function NumberToString(n: int): string
  {
    if n < 0 then "-" + Decimal(-n) else Decimal(n)
  }

  /** StrWhiteSpaceChar of ECMA-262: WhiteSpace and LineTerminator. */
  predicate IsWhiteSpace(c: char)
  {
    c == '\t' || c == '\n' || c == '\U{000B}' || c == '\U{000C}' || c == '\r'
    || c == ' ' || c == '\U{00A0}' || c == '\U{1680}' || ('\U{2000}' <= c <= '\U{200A}')
    || c == '\U{2028}' || c == '\U{2029}' || c == '\U{202F}' || c == '\U{205F}'
    || c == '\U{3000}' || c == '\U{FEFF}'
  }

  /** Leading white space removed: what is dropped is white space, and what is kept does not start with it. */
  function TrimStart(s: string): (r: string)
    ensures r == [] || !IsWhiteSpace(r[0])
    ensures |r| <= |s| && r == s[|s| - |r|..]
    ensures forall i :: 0 <= i < |s| - |r| ==> IsWhiteSpace(s[i])
  {
    if s != [] && IsWhiteSpace(s[0]) then TrimStart(s[1..]) else s
  }

  /** The value of a digit in radix 36 (letters of either case), or 36. */
  function DigitValue(c: char): (v: nat)
    ensures v <= 36
  {
    if '0' <= c <= '9' then (c as int - '0' as int)
    else if 'a' <= c <= 'z' then (c as int - 'a' as int + 10)
    else if 'A' <= c <= 'Z' then (c as int - 'A' as int + 10)
    else 36
  }

  /** The longest prefix of `s` made of digits of the radix. */
  function DigitPrefix(s: string, radix: nat): (z: string)
    ensures |z| <= |s| && z == s[..|z|]
    ensures forall i :: 0 <= i < |z| ==> DigitValue(z[i]) < radix
    ensures |z| < |s| ==> DigitValue(s[|z|]) >= radix
  {
    if s != [] && DigitValue(s[0]) < radix then [s[0]] + DigitPrefix(s[1..], radix) else []
  }

  /** The value of a string of digits in the radix. */
  function DigitsValue(z: string, radix: nat): nat
    decreases |z|
  {
    if z == [] then 0
    else DigitsValue(z[..|z| - 1], radix) * radix + (if DigitValue(z[|z| - 1]) < radix then DigitValue(z[|z| - 1]) else 0)
  }

  /**
   * The digits after the sign: a `0x` or `0X` prefix switches to radix 16,
   * and the longest run of digits of the radix that follows is the value;
   * no digit at all gives NaN.
   */
  function ParseUnsigned(unsigned: string): Number
  {
    var hex := |unsigned| >= 2 && unsigned[0] == '0' && (unsigned[1] == 'x' || unsigned[1] == 'X');
    var radix := if hex then 16 else 10;
    var digits := DigitPrefix(if hex then unsigned[2..] else unsigned, radix);
    if digits == [] then NaN else Num(DigitsValue(digits, radix))
  }

  /**
   * `parseInt(s)` (section 19.2.5 of ECMA-262) with the radix left out:
   * leading white space is skipped, one sign is read, and the digits that
   * follow are read by ParseUnsigned. (A negative zero is the integer 0 here.)
   */
  function ParseInt(input: string): Number
  {
    var s := TrimStart(input);
    var sign := if s != [] && s[0] == '-' then -1 else 1;
    var unsigned := if s != [] && (s[0] == '-' || s[0] == '+') then s[1..] else s;
    Times(ParseUnsigned(unsigned), sign)
  }

  lemma {:induction false} DigitPrefixOfDigits(s: string)
    requires forall i :: 0 <= i < |s| ==> '0' <= s[i] <= '9'
    ensures DigitPrefix(s, 10) == s
    decreases |s|
  {
    if s != [] {
      DigitPrefixOfDigits(s[1..]);
    }
  }

  lemma {:induction false} DigitsValueOfDecimal(n: nat)
    ensures DigitsValue(Decimal(n), 10) == n
    decreases n
  {
    if n >= 10 {
      var s := Decimal(n);
      assert s[..|s| - 1] == Decimal(n / 10);
      assert DigitValue(s[|s| - 1]) == n % 10;
      DigitsValueOfDecimal(n / 10);
    }
  }

  lemma ParseUnsignedOfDecimal(m: nat)
    ensures ParseUnsigned(Decimal(m)) == Num(m)
  {
    var d := Decimal(m);
    assert !(|d| >= 2 && (d[1] == 'x' || d[1] == 'X'));
    DigitPrefixOfDigits(d);
    DigitsValueOfDecimal(m);
  }

  lemma TrimStartNoSpace(s: string)
    requires s != [] && !IsWhiteSpace(s[0])
    ensures TrimStart(s) == s
  {
  }

  /** A leading `-` negates what the digits after it give. */
  lemma ParseIntMinus(d: string)
    ensures ParseInt("-" + d) == Times(ParseUnsigned(d), -1)
  {
    var s := "-" + d;
    assert s[0] == '-' && s[1..] == d;
    TrimStartNoSpace(s);
  }

  /** With a digit first there is no white space to skip and no sign to read. */
  lemma ParseIntDigits(d: string)
    requires d != [] && '0' <= d[0] <= '9'
    ensures ParseInt(d) == ParseUnsigned(d)
  {
    TrimStartNoSpace(d);
  }

  lemma ParseIntOfNegative(n: int)
    requires n < 0
    ensures ParseInt(NumberToString(n)) == Num(n)
  {
    var m: nat := -n;
    ParseIntMinus(Decimal(m));
    ParseUnsignedOfDecimal(m);
  }

  lemma ParseIntOfNonNegative(n: nat)
    ensures ParseInt(NumberToString(n)) == Num(n)
  {
    ParseIntDigits(Decimal(n));
    ParseUnsignedOfDecimal(n);
  }

  /** `parseInt(String(n))` gives back `n` for every integer. */
  lemma ParseIntOfNumberToString(n: int)
    ensures ParseInt(NumberToString(n)) == Num(n)
  {
    if n < 0 {
      ParseIntOfNegative(n);
    } else {
      ParseIntOfNonNegative(n);
    }
  }

  /** A string with no digit where the digits must start is NaN. */
  lemma ParseIntNaN(input: string)
    requires var s := TrimStart(input);
      var unsigned := if s != [] && (s[0] == '-' || s[0] == '+') then s[1..] else s;
      unsigned == [] || DigitValue(unsigned[0]) >= 10
    ensures ParseInt(input) == NaN
  {
  }

  /** `x * k` for a number from `parseInt`: NaN stays NaN. */
  function Times(x: Number, k: int): Number
  {
    match x
    case NaN => NaN
    case Num(n) => Num(n * k)
  }

  /** `a > x`: every comparison with NaN is false. */
  predicate GreaterThan(a: int, x: Number)
  {
    x.Num? && a > x.n
  }
}
