/** The global `parseInt` of ECMAScript (section 19.2.5 of ECMA-262) and the decimal rendering
    a template string gives an integer. */
module JsNumbers {
  import opened JsStrings

  /** The values `parseInt` yields, as far as the handlers can tell them apart. */
  datatype Number = NaN | Int(value: int)

  /** Value of `c` as a digit of radix 36; 36 for a character that is no digit. */
  function DigitValue(c: char): (d: nat)
    ensures d <= 36
    ensures d < 10 <==> '0' <= c <= '9'
  {
    if '0' <= c <= '9' then c as int - '0' as int
    else if 'a' <= c <= 'z' then c as int - 'a' as int + 10
    else if 'A' <= c <= 'Z' then c as int - 'A' as int + 10
    else 36
  }

  predicate IsDigit(c: char, radix: int) {
    DigitValue(c) < radix
  }

  /** The longest prefix of `s` made of digits of `radix`. */
  function DigitPrefix(s: string, radix: int): (r: string)
    ensures |r| <= |s| && r == s[..|r|]
    ensures forall i :: 0 <= i < |r| ==> IsDigit(r[i], radix)
    ensures |r| < |s| ==> !IsDigit(s[|r|], radix)
  {
    if s != [] && IsDigit(s[0], radix) then [s[0]] + DigitPrefix(s[1..], radix) else []
  }

  /** The mathematical value of a digit string, most significant digit first. */
  function DigitsValue(d: string, radix: int): int {
    if d == [] then 0 else DigitsValue(d[..|d| - 1], radix) * radix + DigitValue(d[|d| - 1])
  }

  /** `parseInt(s, radix)`, with `radix` already converted by ToInt32 (an absent radix is 0).
      Leading whitespace and one sign are skipped, an invalid radix gives NaN, and the
      magnitude is read by `ParseMagnitude`. */
  function ParseInt(s: string, radix: int): Number {
    ParseSigned(TrimStart(s, IsWhiteSpace), radix)
  }

  /** `parseInt` once the leading whitespace is gone. */
  function ParseSigned(t: string, radix: int): Number {
    var negative := t != [] && t[0] == '-';
    var u := if t != [] && (t[0] == '-' || t[0] == '+') then t[1..] else t;
    if radix != 0 && (radix < 2 || radix > 36) then NaN
    else match ParseMagnitude(u, radix)
      case NaN => NaN
      case Int(v) => Int(if negative then -v else v)
  }

  /** The unsigned part: with radix 0 or 16 a `0x`/`0X` prefix selects radix 16, radix 0
      otherwise means 10; the longest run of digits is read, NaN when that run is empty. */
  function ParseMagnitude(u: string, radix: int): Number {
    var hex := (radix == 0 || radix == 16) && |u| >= 2 && u[0] == '0' && (u[1] == 'x' || u[1] == 'X');
    var r := if hex then 16 else if radix == 0 then 10 else radix;
    var digits := DigitPrefix(if hex then u[2..] else u, r);
    if digits == [] then NaN else Int(DigitsValue(digits, r))
  }

  function DigitChar(d: nat): (c: char)
    requires d < 10
    ensures DigitValue(c) == d
  {
    ('0' as int + d) as char
  }

  /** Decimal digits of `m` without leading zeros. */
  function Decimal(m: nat): (r: string)
    ensures r != []
    ensures forall i :: 0 <= i < |r| ==> IsDigit(r[i], 10)
  {
    if m < 10 then [DigitChar(m)] else Decimal(m / 10) + [DigitChar(m % 10)]
  }

  /** What `${n}` or `String(n)` gives for an integer `n`. */
  function IntToString(n: int): string {
    if n < 0 then "-" + Decimal(-n) else Decimal(n)
  }

  lemma {:induction false} DecimalValue(m: nat)
    ensures DigitsValue(Decimal(m), 10) == m
  {
    var d := Decimal(m);
    if m >= 10 {
      assert d[..|d| - 1] == Decimal(m / 10);
      DecimalValue(m / 10);
    }
  }

  /** Only zero is written with a leading `0`. */
  lemma {:induction false} DecimalLeadingDigit(m: nat)
    requires m > 0
    ensures Decimal(m)[0] != '0'
  {
    if m >= 10 {
      DecimalLeadingDigit(m / 10);
    }
  }

  lemma {:induction false} DigitPrefixOf(d: string, rest: string, radix: int)
    requires forall i :: 0 <= i < |d| ==> IsDigit(d[i], radix)
    requires rest == [] || !IsDigit(rest[0], radix)
    ensures DigitPrefix(d + rest, radix) == d
  {
    if d != [] {
      assert (d + rest)[1..] == d[1..] + rest;
      DigitPrefixOf(d[1..], rest, radix);
    }
  }

  lemma {:induction false} TrimStartSkips(lead: string, tail: string, ws: char -> bool)
    requires forall i :: 0 <= i < |lead| ==> ws(lead[i])
    requires tail == [] || !ws(tail[0])
    ensures TrimStart(lead + tail, ws) == tail
  {
    if lead != [] {
      assert (lead + tail)[1..] == lead[1..] + tail;
      TrimStartSkips(lead[1..], tail, ws);
    }
  }

  /** Any integer written in decimal, after optional whitespace and followed by anything that
      does not continue the number, parses back to itself; without a radix, a `0` followed by
      `x` would instead start a hexadecimal number. */
  lemma ParseMagnitudeOfDecimal(m: nat, rest: string, radix: int)
    requires radix == 0 || radix == 10
    requires rest == [] || !IsDigit(rest[0], 10)
    requires radix == 0 && m == 0 && rest != [] ==> rest[0] != 'x' && rest[0] != 'X'
    ensures ParseMagnitude(Decimal(m) + rest, radix) == Int(m)
  {
    var u := Decimal(m) + rest;
    if m > 0 {
      DecimalLeadingDigit(m);
    }
    assert u[0] == Decimal(m)[0];
    assert |Decimal(m)| == 1 && m == 0 ==> |u| < 2 || u[1] == rest[0];
    DigitPrefixOf(Decimal(m), rest, 10);
    DecimalValue(m);
  }

  /** Leading whitespace does not change what `parseInt` reads. */
  lemma LeadingWhiteSpaceIgnored(lead: string, t: string, radix: int)
    requires forall i :: 0 <= i < |lead| ==> IsWhiteSpace(lead[i])
    requires t == [] || !IsWhiteSpace(t[0])
    ensures ParseInt(lead + t, radix) == ParseSigned(t, radix)
  {
    TrimStartSkips(lead, t, IsWhiteSpace);
  }

  lemma ParseSignedOfNegative(m: nat, rest: string, radix: int)
    requires m > 0
    requires radix == 0 || radix == 10
    requires rest == [] || !IsDigit(rest[0], 10)
    ensures ParseSigned("-" + Decimal(m) + rest, radix) == Int(-(m as int))
  {
    var t := "-" + Decimal(m) + rest;
    assert t[1..] == Decimal(m) + rest;
    ParseMagnitudeOfDecimal(m, rest, radix);
  }

  lemma ParseSignedOfNatural(m: nat, rest: string, radix: int)
    requires radix == 0 || radix == 10
    requires rest == [] || !IsDigit(rest[0], 10)
    requires radix == 0 && m == 0 && rest != [] ==> rest[0] != 'x' && rest[0] != 'X'
    ensures ParseSigned(Decimal(m) + rest, radix) == Int(m)
  {
    var t := Decimal(m) + rest;
    assert IsDigit(t[0], 10);
    ParseMagnitudeOfDecimal(m, rest, radix);
  }

  /** Any integer written in decimal, after optional whitespace and followed by anything that
      does not continue the number, parses back to itself; without a radix, a `0` followed by
      `x` would instead start a hexadecimal number. */
  lemma ParseIntOfIntToString(lead: string, n: int, rest: string, radix: int)
    requires radix == 0 || radix == 10
    requires forall i :: 0 <= i < |lead| ==> IsWhiteSpace(lead[i])
    requires rest == [] || !IsDigit(rest[0], 10)
    requires radix == 0 && n == 0 && rest != [] ==> rest[0] != 'x' && rest[0] != 'X'
    ensures ParseInt(lead + IntToString(n) + rest, radix) == Int(n)
  {
    var t := IntToString(n) + rest;
    assert lead + IntToString(n) + rest == lead + t;
    if n < 0 {
      var m: nat := -n;
      assert t == "-" + Decimal(m) + rest;
      ParseSignedOfNegative(m, rest, radix);
    } else {
      assert IsDigit(t[0], 10);
      ParseSignedOfNatural(n, rest, radix);
    }
    LeadingWhiteSpaceIgnored(lead, t, radix);
  }

  /** A leading integer is accepted whatever follows it. */
  lemma TrailingTextIgnored()
    ensures ParseInt("7abc", 0) == Int(7)
  {
    assert DigitChar(7) == '7';
    assert "" + ("7" + "abc") == "7abc";
    ParseSignedOfNatural(7, "abc", 0);
    LeadingWhiteSpaceIgnored("", "7abc", 0);
  }

  /** Without digits there is no number: the empty string, */
  lemma NaNOfEmpty()
    ensures ParseInt("", 0) == NaN
  {
    assert TrimStart("", IsWhiteSpace) == "";
    assert DigitPrefix("", 10) == [];
  }

  /** letters that are no digits of the radix, */
  lemma NaNOfLetters()
    ensures ParseInt("abc", 10) == NaN
  {
    LeadingWhiteSpaceIgnored("", "abc", 10);
    assert "" + "abc" == "abc";
    assert !IsDigit('a', 10);
    assert DigitPrefix("abc", 10) == [];
  }

  /** An unsigned part without digits is no number, whatever the radix. */
  lemma NaNOfNoDigits(radix: int)
    ensures ParseMagnitude([], radix) == NaN
  {
    assert DigitPrefix([], if radix == 0 then 10 else radix) == [];
  }

  /** A sign followed by nothing leaves no digits to read. */
  lemma NaNOfSignedEmpty(radix: int)
    requires radix == 0 || 2 <= radix <= 36
    ensures ParseSigned(['-'], radix) == NaN
  {
    assert ['-'][1..] == [];
    NaNOfNoDigits(radix);
  }

  /** and a sign alone. */
  lemma NaNOfSignOnly()
    ensures ParseInt("-", 0) == NaN
  {
    assert "-" == ['-'];
    assert TrimStart(['-'], IsWhiteSpace) == ['-'] by {
      assert !IsWhiteSpace('-');
    }
    NaNOfSignedEmpty(0);
  }

  /** Only an absent radix (or 16) lets a `0x` prefix switch to hexadecimal, */
  lemma HexPrefixRead()
    ensures ParseInt("0x1A", 0) == Int(26)
  {
    LeadingWhiteSpaceIgnored("", "0x1A", 0);
    assert "" + "0x1A" == "0x1A";
    assert "0x1A"[2..] == "1A";
    assert DigitPrefix("1A", 16) == "1A" by {
      assert "1A"[1..] == "A";
      assert "A"[1..] == [];
    }
    assert "1A"[..1] == "1" && "1"[..0] == [];
    assert DigitsValue("1", 16) == 1;
    assert DigitsValue("1A", 16) == 26;
  }

  /** with radix 10 the `x` ends the number after its `0`, */
  lemma HexPrefixWithRadix10()
    ensures ParseInt("0x1A", 10) == Int(0)
  {
    LeadingWhiteSpaceIgnored("", "0x1A", 10);
    assert "" + "0x1A" == "0x1A";
    assert DigitPrefix("0x1A", 10) == "0" by {
      assert "0x1A"[1..] == "x1A";
      assert !IsDigit('x', 10);
    }
    assert "0"[..0] == [];
    assert DigitsValue("0", 10) == 0;
  }

  /** and a prefix without digits is no number. */
  lemma HexPrefixWithoutDigits()
    ensures ParseInt("0x", 0) == NaN
  {
    LeadingWhiteSpaceIgnored("", "0x", 0);
    assert "" + "0x" == "0x";
    assert "0x"[2..] == [];
    assert DigitPrefix([], 16) == [];
  }
}
