/**
 * The few pieces of Ruby and ActiveSupport semantics the models below
 * depend on: `blank?`/`present?` on strings, `String#to_i`,
 * `Integer#to_s` and `Array#uniq`.
 */
module Ruby {
  import opened Wrappers

  /** `[[:space:]]` as ActiveSupport's `String#blank?` matches it. */
  predicate IsSpace(c: char) {
    IsAsciiSpace(c) || c == '\U{85}' || c == '\U{A0}' || c == '\U{1680}'
    || ('\U{2000}' <= c <= '\U{200A}') || c == '\U{2028}' || c == '\U{2029}'
    || c == '\U{202F}' || c == '\U{205F}' || c == '\U{3000}'
  }

  /** The white space that `String#to_i` skips before the number. */
  predicate IsAsciiSpace(c: char) {
    c == ' ' || c == '\t' || c == '\n' || c == '\U{B}' || c == '\U{C}' || c == '\r'
  }

  /** `s.blank?`: empty or white space only. */
  predicate IsBlank(s: string) {
    forall i :: 0 <= i < |s| ==> IsSpace(s[i])
  }

  /** `x.present?` for a string attribute that may be nil. */
  predicate IsPresent(x: Option<string>) {
    x.Some? && !IsBlank(x.value)
  }

  predicate IsDigit(c: char) {
    '0' <= c <= '9'
  }

  predicate AllDigits(s: string) {
    forall i :: 0 <= i < |s| ==> IsDigit(s[i])
  }

  function DigitValue(c: char): (d: nat)
    requires IsDigit(c)
    ensures d < 10
  {
    (c as int - '0' as int) as nat
  }

  function DigitChar(d: nat): (c: char)
    requires d < 10
    ensures IsDigit(c) && DigitValue(c) == d
  {
    ('0' as int + d) as char
  }

  /** The string after the leading white space. */
  function SkipSpaces(s: string): string
  {
    if |s| > 0 && IsAsciiSpace(s[0]) then SkipSpaces(s[1..]) else s
  }

  /**
   * The digits of the numeral at the front of `s`: a digit, then further
   * digits, each of which may follow a single `_`. The underscores are
   * dropped, so `"1_000"` gives `"1000"`.
   */
  function LeadingDigits(s: string): (r: string)
    ensures AllDigits(r)
  {
    if |s| > 0 && IsDigit(s[0]) then
      if |s| > 2 && s[1] == '_' && IsDigit(s[2]) then [s[0]] + LeadingDigits(s[2..])
      else [s[0]] + LeadingDigits(s[1..])
    else []
  }

  /** How many characters of `s` the numeral at its front takes, underscores included. */
  function NumeralLength(s: string): nat
  {
    if |s| > 0 && IsDigit(s[0]) then
      if |s| > 2 && s[1] == '_' && IsDigit(s[2]) then 2 + NumeralLength(s[2..])
      else 1 + NumeralLength(s[1..])
    else 0
  }

  /**
   * A decimal numeral as Ruby writes one: digits, with single underscores
   * allowed between two digits.
   */
  predicate IsNumeral(p: string) {
    |p| > 0 && IsDigit(p[0]) && IsDigit(p[|p| - 1])
    && (forall i :: 0 <= i < |p| ==> IsDigit(p[i]) || p[i] == '_')
    && (forall i :: 0 <= i < |p| - 1 && p[i] == '_' ==> p[i + 1] != '_')
  }

  /** `p` with its underscores removed. */
  function WithoutUnderscores(p: string): string {
    if |p| == 0 then [] else (if p[0] == '_' then [] else [p[0]]) + WithoutUnderscores(p[1..])
  }

  /** `t` cannot extend a numeral written before it: it starts with neither a digit nor `_` and a digit. */
  predicate StopsNumeral(t: string) {
    t == [] || (!IsDigit(t[0]) && !(|t| > 1 && t[0] == '_' && IsDigit(t[1])))
  }

  /** `to_i` starts reading at the first character that is not white space. */
  lemma {:induction false} SkipSpacesSkips(s: string)
    ensures |SkipSpaces(s)| <= |s| && SkipSpaces(s) == s[|s| - |SkipSpaces(s)|..]
    ensures forall i :: 0 <= i < |s| - |SkipSpaces(s)| ==> IsAsciiSpace(s[i])
    ensures |SkipSpaces(s)| > 0 ==> !IsAsciiSpace(SkipSpaces(s)[0])
  {
    if |s| > 0 && IsAsciiSpace(s[0]) {
      SkipSpacesSkips(s[1..]);
    }
  }

  /**
   * The characters read form the longest numeral at the front of `s`: they
   * are a numeral, their digits are the ones read, and what follows cannot
   * extend it. With no digit in front nothing is read.
   */
  lemma {:induction false} LeadingDigitsIsLongest(s: string)
    ensures NumeralLength(s) <= |s|
    ensures NumeralLength(s) == 0 <==> |s| == 0 || !IsDigit(s[0])
    ensures NumeralLength(s) > 0 ==> IsNumeral(s[..NumeralLength(s)]) && StopsNumeral(s[NumeralLength(s)..])
    ensures LeadingDigits(s) == WithoutUnderscores(s[..NumeralLength(s)])
  {
    NumeralLengthBound(s);
    if NumeralLength(s) > 0 {
      NumeralIsNumeral(s);
      NumeralStops(s);
    }
    NumeralDigits(s);
  }

  /** The step the numeral takes at the front of `s`: one digit, or a digit and an underscore. */
  function NumeralStep(s: string): nat {
    if |s| > 2 && s[1] == '_' && IsDigit(s[2]) then 2 else 1
  }

  lemma {:induction false} NumeralLengthBound(s: string)
    ensures NumeralLength(s) <= |s|
    ensures NumeralLength(s) == 0 <==> |s| == 0 || !IsDigit(s[0])
  {
    if |s| > 0 && IsDigit(s[0]) {
      NumeralLengthBound(s[NumeralStep(s)..]);
    }
  }

  lemma {:induction false} NumeralIsNumeral(s: string)
    requires NumeralLength(s) > 0
    ensures NumeralLength(s) <= |s| && IsNumeral(s[..NumeralLength(s)])
  {
    NumeralLengthBound(s);
    var k := NumeralStep(s);
    var rest := s[k..];
    var m := NumeralLength(rest);
    NumeralLengthBound(rest);
    if m > 0 {
      NumeralIsNumeral(rest);
    }
    assert s[..NumeralLength(s)] == s[..k] + rest[..m];
    if k == 2 {
      NumeralAfterUnderscore(s[0], rest[..m]);
    } else if m > 0 {
      NumeralAfterDigit(s[0], rest[..m]);
    }
  }

  lemma {:induction false} NumeralStops(s: string)
    requires NumeralLength(s) > 0
    ensures NumeralLength(s) <= |s| && StopsNumeral(s[NumeralLength(s)..])
  {
    NumeralLengthBound(s);
    var k := NumeralStep(s);
    var rest := s[k..];
    var m := NumeralLength(rest);
    NumeralLengthBound(rest);
    assert s[NumeralLength(s)..] == rest[m..];
    if m > 0 {
      NumeralStops(rest);
    }
  }

  lemma {:induction false} NumeralDigits(s: string)
    ensures NumeralLength(s) <= |s|
    ensures LeadingDigits(s) == WithoutUnderscores(s[..NumeralLength(s)])
  {
    NumeralLengthBound(s);
    if |s| > 0 && IsDigit(s[0]) {
      var k := NumeralStep(s);
      var rest := s[k..];
      var m := NumeralLength(rest);
      NumeralDigits(rest);
      assert LeadingDigits(s) == [s[0]] + LeadingDigits(rest);
      assert NumeralLength(s) == k + m;
      var p := s[..k + m];
      assert p[0] == s[0] && WithoutUnderscores(p) == [s[0]] + WithoutUnderscores(p[1..]);
      if k == 2 {
        assert p[1..][0] == '_' && p[1..][1..] == rest[..m];
        assert WithoutUnderscores(p[1..]) == WithoutUnderscores(rest[..m]);
      } else {
        assert p[1..] == rest[..m];
      }
    } else {
      assert s[..0] == [];
    }
  }

  lemma NumeralAfterUnderscore(c: char, p: string)
    requires IsDigit(c) && IsNumeral(p)
    ensures IsNumeral([c, '_'] + p)
  {
    var q := [c, '_'] + p;
    forall i | 0 <= i < |q| - 1 && q[i] == '_'
      ensures q[i + 1] != '_'
    {
      if i >= 2 {
        assert q[i] == p[i - 2] && q[i + 1] == p[i - 1];
      }
    }
    assert q[|q| - 1] == p[|p| - 1];
  }

  lemma NumeralAfterDigit(c: char, p: string)
    requires IsDigit(c) && IsNumeral(p)
    ensures IsNumeral([c] + p)
  {
    var q := [c] + p;
    forall i | 0 <= i < |q| - 1 && q[i] == '_'
      ensures q[i + 1] != '_'
    {
      assert q[i] == p[i - 1] && q[i + 1] == p[i];
    }
    assert q[|q| - 1] == p[|p| - 1];
  }

  /** The decimal value of a string of digits. */
  function DigitsValue(d: string): nat
    requires AllDigits(d)
  {
    if |d| == 0 then 0 else DigitsValue(d[..|d| - 1]) * 10 + DigitValue(d[|d| - 1])
  }

  /**
   * `String#to_i`: white space, an optional sign, then the decimal numeral
   * that follows (single underscores between digits are read over); 0 when
   * no digit follows.
   */
  function ToI(s: string): int {
    var t := SkipSpaces(s);
    if |t| > 0 && t[0] == '-' then -(UnsignedValue(t[1..]) as int)
    else if |t| > 0 && t[0] == '+' then UnsignedValue(t[1..])
    else UnsignedValue(t)
  }

  /**
   * `t` starts with the radix prefix `0d` or `0D` and then a digit. Base-10
   * `to_i` reads over such a prefix; before anything else the prefix reads
   * as the number 0, which is what its `0` alone gives.
   */
  predicate HasDecimalPrefix(t: string) {
    |t| > 2 && t[0] == '0' && (t[1] == 'd' || t[1] == 'D') && IsDigit(t[2])
  }

  /** The value of the unsigned number at the front of `t`. */
  function UnsignedValue(t: string): nat {
    DigitsValue(LeadingDigits(if HasDecimalPrefix(t) then t[2..] else t))
  }

  /** Worked examples: a single underscore between digits is read over, a doubled or leading one ends the number. */
  lemma ToIExamples()
    ensures ToI("1_000") == 1000 && ToI(" -1_0x") == -10
    ensures ToI("1__0") == 1 && ToI("1_") == 1 && ToI("_1") == 0
  {
    assert SkipSpaces("1_000") == "1_000";
    assert LeadingDigits("0") == "0";
    assert LeadingDigits("00") == "00";
    assert LeadingDigits("000") == "000";
    assert LeadingDigits("1_000") == "1000";
    assert DigitsValue("1000") == 1000 by {
      assert "1000"[..3] == "100" && "100"[..2] == "10" && "10"[..1] == "1";
    }
    assert SkipSpaces(" -1_0x") == "-1_0x";
    assert "-1_0x"[1..] == "1_0x";
    assert LeadingDigits("0x") == "0";
    assert LeadingDigits("1_0x") == "10";
    assert DigitsValue("10") == 10 by {
      assert "10"[..1] == "1";
    }
  }

  /** Worked examples: a `0d` or `0D` prefix before a digit is read over; before anything else only its `0` counts. */
  lemma ToIDecimalPrefixExamples()
    ensures ToI("0d12") == 12 && ToI("-0D7") == -7 && ToI("0dx") == 0
  {
    assert SkipSpaces("0d12") == "0d12" && HasDecimalPrefix("0d12") && "0d12"[2..] == "12";
    assert LeadingDigits("2") == "2";
    assert LeadingDigits("12") == "12";
    assert DigitsValue("12") == 12 by {
      assert "12"[..1] == "1";
    }
    assert SkipSpaces("-0D7") == "-0D7" && "-0D7"[1..] == "0D7";
    assert HasDecimalPrefix("0D7") && "0D7"[2..] == "7";
    assert LeadingDigits("7") == "7";
    assert SkipSpaces("0dx") == "0dx" && !HasDecimalPrefix("0dx");
    assert LeadingDigits("dx") == [];
    assert LeadingDigits("0dx") == "0";
  }

  /** `n.to_s` for a natural number. */
  function NatToString(n: nat): (r: string)
    ensures |r| > 0 && AllDigits(r)
  {
    if n < 10 then [DigitChar(n)] else NatToString(n / 10) + [DigitChar(n % 10)]
  }

  /** `n.to_s` (and `"#{n}"`) for any integer. */
  function IntToString(n: int): (r: string)
    ensures |r| > 0
  {
    if n < 0 then "-" + NatToString(-n) else NatToString(n)
  }

  lemma {:induction false} NatToStringValue(n: nat)
    ensures DigitsValue(NatToString(n)) == n
  {
    if n >= 10 {
      var p := NatToString(n / 10);
      var c := DigitChar(n % 10);
      assert NatToString(n) == p + [c];
      assert (p + [c])[..|p|] == p;
      NatToStringValue(n / 10);
    }
  }

  lemma {:induction false} LeadingDigitsOfDigits(d: string, t: string)
    requires AllDigits(d)
    requires StopsNumeral(t)
    ensures LeadingDigits(d + t) == d
  {
    if |d| > 0 {
      assert (d + t)[1..] == d[1..] + t;
      LeadingDigitsOfDigits(d[1..], t);
    } else {
      assert d + t == t;
    }
  }

  /** `to_i` of digits followed by text that cannot continue them. */
  lemma ToIOfDigits(d: string, t: string, x: string)
    requires |d| > 0 && AllDigits(d)
    requires StopsNumeral(t)
    requires x == d + t && !HasDecimalPrefix(x)
    ensures ToI(x) == DigitsValue(d)
  {
    LeadingDigitsOfDigits(d, t);
    assert x[0] == d[0];
    assert !IsAsciiSpace(x[0]) && x[0] != '-' && x[0] != '+';
    assert SkipSpaces(x) == x;
  }

  /** `to_i` of a minus sign, digits, then text that cannot continue them. */
  lemma ToIOfMinusDigits(d: string, t: string, y: string)
    requires |d| > 0 && AllDigits(d)
    requires StopsNumeral(t)
    requires y == "-" + (d + t) && !HasDecimalPrefix(d + t)
    ensures ToI(y) == -(DigitsValue(d) as int)
  {
    LeadingDigitsOfDigits(d, t);
    assert y[1..] == d + t;
    assert SkipSpaces(y) == y;
  }

  lemma ToIOfNegative(n: int, t: string)
    requires n < 0
    requires StopsNumeral(t)
    ensures ToI(IntToString(n) + t) == n
  {
    var d := NatToString(-n);
    NatToStringValue(-n);
    var x := IntToString(n) + t;
    assert x == "-" + (d + t);
    NatToStringHasNoPrefix(-n, t);
    ToIOfMinusDigits(d, t, x);
  }

  lemma ToIOfNonNegative(n: nat, t: string)
    requires StopsNumeral(t)
    requires n == 0 ==> !HasDecimalPrefix("0" + t)
    ensures ToI(IntToString(n) + t) == n
  {
    var d := NatToString(n);
    NatToStringValue(n);
    var x := IntToString(n) + t;
    assert x == d + t;
    if n > 0 {
      NatToStringHasNoPrefix(n, t);
    } else {
      assert d == "0";
    }
    ToIOfDigits(d, t, x);
  }

  /** A positive number's digits do not start with `0`, so they never begin a `0d` prefix. */
  lemma NatToStringHasNoPrefix(n: nat, t: string)
    requires n > 0
    ensures !HasDecimalPrefix(NatToString(n) + t)
  {
    var d := NatToString(n);
    if n < 10 {
      assert d == [DigitChar(n)] && DigitValue(d[0]) == n;
      assert (d + t)[0] == d[0];
    } else {
      assert |d| >= 2 && (d + t)[1] == d[1];
    }
  }

  /**
   * `to_i` reads back what `to_s` wrote, also when the number is followed
   * by text that cannot continue a numeral (nor, after a 0, turn it into a
   * `0d` prefix).
   */
  lemma ToIOfIntToString(n: int, t: string)
    requires StopsNumeral(t)
    requires n == 0 ==> !HasDecimalPrefix("0" + t)
    ensures ToI(IntToString(n) + t) == n
  {
    if n < 0 {
      ToIOfNegative(n, t);
    } else {
      ToIOfNonNegative(n, t);
    }
  }

  /** No element occurs twice. */
  predicate Distinct<T(==)>(s: seq<T>) {
    forall i, j :: 0 <= i < j < |s| ==> s[i] != s[j]
  }

  /** `Array#uniq`: the first occurrence of every element, in order. */
  function Uniq<T(==)>(s: seq<T>): (r: seq<T>)
    ensures Distinct(r)
    ensures forall i :: 0 <= i < |s| ==> s[i] in r
    ensures forall i :: 0 <= i < |r| ==> r[i] in s
    ensures |r| <= |s|
  {
    if |s| == 0 then []
    else
      var r := Uniq(s[..|s| - 1]);
      if s[|s| - 1] in r then r else r + [s[|s| - 1]]
  }

  /** `uniq` keeps every element and adds none. */
  lemma UniqMembers<T>(s: seq<T>, x: T)
    ensures x in Uniq(s) <==> x in s
  {
    if x in s {
      var i :| 0 <= i < |s| && s[i] == x;
    }
    if x in Uniq(s) {
      var i :| 0 <= i < |Uniq(s)| && Uniq(s)[i] == x;
    }
  }

  lemma {:induction false} UniqOfDistinct<T>(s: seq<T>)
    requires Distinct(s)
    ensures Uniq(s) == s
  {
    if |s| > 0 {
      var init := s[..|s| - 1];
      assert Distinct(init);
      UniqOfDistinct(init);
      assert s[|s| - 1] !in init;
      assert init + [s[|s| - 1]] == s;
    }
  }
}
