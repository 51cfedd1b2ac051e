/** Decimal text and numbers: `Number(digits)`, `String(n)`, the es-CO thousands
    grouping of `toLocaleString`, and the prefix parsers `parseFloat` and `parseInt`. */
module Decimal {
  import opened Wrappers
  import opened Strings

  function DigitChar(d: nat): (c: char)
    requires d < 10
    ensures IsDigit(c) && c as int == 48 + d
  {
    (48 + d) as char
  }

  function DigitValue(c: char): (d: nat)
    requires IsDigit(c)
    ensures d < 10 && DigitChar(d) == c
  {
    c as int - 48
  }

  /** `String(n)` for a natural number: no leading zeros, "0" for zero. */
  function NatToDecimal(n: nat): (r: string)
    ensures IsDigits(r) && |r| >= 1
    ensures r[0] != '0' || n == 0
  {
    if n < 10 then [DigitChar(n)] else NatToDecimal(n / 10) + [DigitChar(n % 10)]
  }

  /** `Number(s)` for a digit string; the empty string is 0, as in JavaScript. */
  function DecimalValue(s: string): nat
    requires IsDigits(s)
  {
    if s == [] then 0 else DecimalValue(s[..|s| - 1]) * 10 + DigitValue(s[|s| - 1])
  }

  /** A digit string without superfluous leading zeros. */
  predicate Canonical(s: string) {
    IsDigits(s) && |s| >= 1 && (s[0] != '0' || |s| == 1)
  }

  lemma {:induction false} DecimalRoundTrip(n: nat)
    ensures DecimalValue(NatToDecimal(n)) == n
  {
    if n >= 10 {
      DecimalRoundTrip(n / 10);
      var s := NatToDecimal(n);
      assert s[..|s| - 1] == NatToDecimal(n / 10);
    }
  }

  lemma {:induction false} DecimalValueLeadingNonZero(s: string)
    requires IsDigits(s) && |s| >= 2 && s[0] != '0'
    ensures DecimalValue(s) >= 10
  {
    var p := s[..|s| - 1];
    if |s| > 2 {
      DecimalValueLeadingNonZero(p);
    } else {
      assert p == [s[0]];
      assert DecimalValue(p[..0]) == 0;
    }
  }

  /** Every canonical digit string is the text of its own value. */
  lemma {:induction false} CanonicalRoundTrip(s: string)
    requires Canonical(s)
    ensures NatToDecimal(DecimalValue(s)) == s
  {
    var n := DecimalValue(s);
    if |s| == 1 {
      assert s[..0] == [];
    } else {
      var p := s[..|s| - 1];
      assert Canonical(p);
      DecimalValueLeadingNonZero(s);
      CanonicalRoundTrip(p);
      assert n / 10 == DecimalValue(p) && n % 10 == DigitValue(s[|s| - 1]);
    }
  }

  /** The three digits of `m`, zero-padded. */
  function Pad3(m: nat): (r: string)
    requires m < 1000
    ensures |r| == 3 && IsDigits(r)
  {
    [DigitChar(m / 100), DigitChar(m / 10 % 10), DigitChar(m % 10)]
  }

  lemma SplitThousands(n: nat)
    requires n >= 1000
    ensures NatToDecimal(n) == NatToDecimal(n / 1000) + Pad3(n % 1000)
  {
    ThousandsArith(n);
    calc {
      NatToDecimal(n);
      NatToDecimal(n / 10) + [DigitChar(n % 10)];
      NatToDecimal(n / 100) + [DigitChar(n / 10 % 10)] + [DigitChar(n % 10)];
      NatToDecimal(n / 1000) + [DigitChar(n / 100 % 10)] + [DigitChar(n / 10 % 10)] + [DigitChar(n % 10)];
      NatToDecimal(n / 1000) + Pad3(n % 1000);
    }
  }

  lemma ThousandsArith(n: nat)
    requires n >= 1000
    ensures n / 10 >= 10 && n / 100 >= 10
    ensures n / 10 / 10 == n / 100 && n / 100 / 10 == n / 1000 && n / 10 / 10 % 10 == n / 100 % 10
    ensures n % 1000 / 100 == n / 100 % 10 && n % 1000 / 10 % 10 == n / 10 % 10 && n % 1000 % 10 == n % 10
  {
  }

  /** `n.toLocaleString("es-CO")`: '.' between every group of three digits. */
  function GroupThousands(n: nat): (r: string)
    ensures |r| >= 1 && IsDigit(r[0]) && IsDigit(r[|r| - 1])
    ensures forall i :: 0 <= i < |r| ==> IsDigit(r[i]) || r[i] == '.'
  {
    if n < 1000 then NatToDecimal(n) else GroupThousands(n / 1000) + "." + Pad3(n % 1000)
  }

  /** Removing the separators of the grouped text gives the plain decimal text back. */
  lemma {:induction false} GroupThousandsDigits(n: nat)
    ensures DigitsOf(GroupThousands(n)) == NatToDecimal(n)
  {
    if n < 1000 {
      DigitsOfDigits(NatToDecimal(n));
    } else {
      GroupThousandsDigits(n / 1000);
      DigitsOfAppend(GroupThousands(n / 1000) + ".", Pad3(n % 1000));
      DigitsOfAppend(GroupThousands(n / 1000), ".");
      DigitsOfDigits(Pad3(n % 1000));
      SplitThousands(n);
    }
  }

  /** Reading the grouped text back as digits gives the number. */
  lemma GroupThousandsValue(n: nat)
    ensures DecimalValue(DigitsOf(GroupThousands(n))) == n
  {
    GroupThousandsDigits(n);
    DecimalRoundTrip(n);
  }

  /** `String(i)` for any integer. */
  function IntToDecimal(i: int): (r: string)
    ensures |r| >= 1
  {
    if i < 0 then "-" + NatToDecimal(-i) else NatToDecimal(i)
  }

  /** Different integers have different texts. */
  lemma IntToDecimalInjective(a: int, b: int)
    requires IntToDecimal(a) == IntToDecimal(b)
    ensures a == b
  {
    IntToDecimalSign(a);
    IntToDecimalSign(b);
    if a < 0 {
      DecimalRoundTrip(-a);
      DecimalRoundTrip(-b);
    } else {
      DecimalRoundTrip(a);
      DecimalRoundTrip(b);
    }
  }

  /** The text starts with '-' exactly for a negative integer, followed by the digits of its
      magnitude. */
  lemma IntToDecimalSign(i: int)
    ensures IntToDecimal(i)[0] == '-' <==> i < 0
    ensures i < 0 ==> IntToDecimal(i)[1..] == NatToDecimal(-i)
    ensures i >= 0 ==> IntToDecimal(i) == NatToDecimal(i)
  {
    if i >= 0 {
      assert IsDigit(NatToDecimal(i)[0]);
    }
  }

  /** The longest prefix of `s` made of digits. */
  function DigitPrefix(s: string): (r: string)
    ensures IsDigits(r) && |r| <= |s| && r == s[..|r|]
    ensures |r| == |s| || !IsDigit(s[|r|])
  {
    if s != [] && IsDigit(s[0]) then [s[0]] + DigitPrefix(s[1..]) else []
  }

  /** The value of the digits after a decimal point. */
  function FractionValue(fp: string): (v: real)
    requires IsDigits(fp)
    ensures 0.0 <= v <= 1.0
  {
    if fp == [] then 0.0 else (DigitValue(fp[0]) as real + FractionValue(fp[1..])) / 10.0
  }

  /** The unsigned part of parseFloat's grammar: digits, optionally '.' and more digits;
      at least one digit on either side of the point. */
  function ParseUnsigned(u: string): (r: Option<real>)
    ensures r.Some? ==> r.value >= 0.0
  {
    var ip := DigitPrefix(u);
    var rest := u[|ip|..];
    var fp := if rest != [] && rest[0] == '.' then DigitPrefix(rest[1..]) else "";
    if ip == "" && fp == "" then None
    else Some(DecimalValue(ip) as real + FractionValue(fp))
  }

  /** `parseFloat(s)`: leading whitespace, an optional sign, then the unsigned number;
      None is NaN. Exponents and "Infinity" are not modelled. */
  function ParseFloat(s: string): (r: Option<real>)
  {
    var t := TrimStart(s);
    var signed := t != [] && (t[0] == '-' || t[0] == '+');
    var negative := t != [] && t[0] == '-';
    Negate(ParseUnsigned(if signed then t[1..] else t), negative)
  }

  function Negate(x: Option<real>, negative: bool): (r: Option<real>)
    ensures r.Some? <==> x.Some?
    ensures r.Some? ==> r.value == if negative then -x.value else x.value
  {
    match x
    case None => None
    case Some(v) => Some(if negative then -v else v)
  }

  /** `x > 0` for a parsed number; false for NaN. */
  predicate Positive(x: Option<real>) {
    x.Some? && x.value > 0.0
  }

  /** `parseFloat(s) > 0`. */
  predicate ParsesPositive(s: string) {
    Positive(ParseFloat(s))
  }

  lemma DigitPrefixOfDigits(s: string)
    requires IsDigits(s)
    ensures DigitPrefix(s) == s
  {
  }

  lemma ParseUnsignedDigits(s: string)
    requires IsDigits(s) && s != []
    ensures ParseUnsigned(s) == Some(DecimalValue(s) as real)
  {
    DigitPrefixOfDigits(s);
    assert s[|s|..] == [];
    assert FractionValue("") == 0.0;
  }

  /** A digit prefix stops at the first non-digit. */
  lemma DigitPrefixStops(d: string, rest: string)
    requires IsDigits(d)
    requires rest == [] || !IsDigit(rest[0])
    ensures DigitPrefix(d + rest) == d
  {
    if d != [] {
      assert (d + rest)[1..] == d[1..] + rest;
      DigitPrefixStops(d[1..], rest);
    } else {
      assert d + rest == rest;
    }
  }

  /** parseFloat reads a digit string as its decimal value. */
  lemma ParseFloatDigits(s: string)
    requires IsDigits(s) && s != []
    ensures ParseFloat(s) == Some(DecimalValue(s) as real)
  {
    ParseFloatUnsigned(s);
    ParseUnsignedDigits(s);
  }

  lemma ParseUnsignedNat(n: nat)
    ensures ParseUnsigned(NatToDecimal(n)) == Some(n as real)
  {
    ParseUnsignedDigits(NatToDecimal(n));
    DecimalRoundTrip(n);
  }

  /** parseFloat reads the decimal text of a natural number back as that number. */
  lemma ParseFloatNat(n: nat)
    ensures ParseFloat(NatToDecimal(n)) == Some(n as real)
  {
    ParseFloatDigits(NatToDecimal(n));
    DecimalRoundTrip(n);
  }

  /** A string whose first non-blank character is neither a sign, a digit nor '.' is NaN. */
  lemma ParseFloatNaN(s: string)
    requires var t := TrimStart(s); t == [] || !(IsDigit(t[0]) || t[0] in "+-.")
    ensures ParseFloat(s) == None
  {
  }

  /** A leading '-' fails the `parseFloat(x) > 0` test, whether the rest reads as a number,
      as zero or not at all. */
  lemma NegativeNotPositive(s: string)
    requires var t := TrimStart(s); t != [] && t[0] == '-'
    ensures !ParsesPositive(s)
  {
  }

  /** A hexadecimal digit of either case. */
  predicate IsHexDigit(c: char) {
    IsDigit(c) || 'a' <= c <= 'f' || 'A' <= c <= 'F'
  }

  predicate IsHexDigits(s: string) {
    forall i :: 0 <= i < |s| ==> IsHexDigit(s[i])
  }

  function HexDigitValue(c: char): (d: nat)
    requires IsHexDigit(c)
    ensures d < 16
    ensures IsDigit(c) ==> d == DigitValue(c)
  {
    if IsDigit(c) then DigitValue(c)
    else if 'a' <= c <= 'f' then c as int - 'a' as int + 10
    else c as int - 'A' as int + 10
  }

  /** The value of a hexadecimal digit string; the empty string is 0. */
  function HexValue(s: string): nat
    requires IsHexDigits(s)
  {
    if s == [] then 0 else HexValue(s[..|s| - 1]) * 16 + HexDigitValue(s[|s| - 1])
  }

  /** The longest prefix of `s` made of hexadecimal digits. */
  function HexDigitPrefix(s: string): (r: string)
    ensures IsHexDigits(r) && |r| <= |s| && r == s[..|r|]
    ensures |r| == |s| || !IsHexDigit(s[|r|])
  {
    if s != [] && IsHexDigit(s[0]) then [s[0]] + HexDigitPrefix(s[1..]) else []
  }

  /** Whether the unsigned part starts with "0x" or "0X", which a radix-less `parseInt`
      takes as the mark of base 16. */
  predicate HexMarked(u: string) {
    |u| >= 2 && u[0] == '0' && (u[1] == 'x' || u[1] == 'X')
  }

  /** The unsigned part of a radix-less `parseInt`: "0x" or "0X" and the longest run of
      hexadecimal digits, or else the longest run of decimal digits. None is NaN. */
  function ParseIntUnsigned(u: string): (r: Option<nat>)
    ensures r.None? <==> if HexMarked(u) then |u| == 2 || !IsHexDigit(u[2]) else u == [] || !IsDigit(u[0])
  {
    if HexMarked(u) then
      var hp := HexDigitPrefix(u[2..]);
      if hp == "" then None else Some(HexValue(hp))
    else
      var ip := DigitPrefix(u);
      if ip == "" then None else Some(DecimalValue(ip))
  }

  function Signed(x: Option<nat>, negative: bool): (r: Option<int>)
    ensures r.Some? <==> x.Some?
    ensures r.Some? ==> r.value == if negative then -(x.value as int) else x.value
  {
    match x
    case None => None
    case Some(n) => Some(if negative then -(n as int) else n)
  }

  /** `parseInt(s)` with no radix: leading whitespace, an optional sign, then either "0x" or
      "0X" and the longest run of hexadecimal digits, or the longest run of decimal digits.
      None is NaN: exactly when, after blanks and an optional sign, a "0x"/"0X" mark is not
      followed by a hexadecimal digit, or an unmarked text does not start with a decimal digit. */
  function ParseInt(s: string): (r: Option<int>)
    ensures r.None? <==> (var t := TrimStart(s);
      var u := if t != [] && (t[0] == '-' || t[0] == '+') then t[1..] else t;
      if HexMarked(u) then |u| == 2 || !IsHexDigit(u[2]) else u == [] || !IsDigit(u[0]))
  {
    ParseIntSigned(TrimStart(s))
  }

  /** parseInt after the leading whitespace: an optional sign and the unsigned part. */
  function ParseIntSigned(t: string): (r: Option<int>)
    ensures r.None? <==> (var u := if t != [] && (t[0] == '-' || t[0] == '+') then t[1..] else t;
      if HexMarked(u) then |u| == 2 || !IsHexDigit(u[2]) else u == [] || !IsDigit(u[0]))
  {
    var u := if t != [] && (t[0] == '-' || t[0] == '+') then t[1..] else t;
    Signed(ParseIntUnsigned(u), t != [] && t[0] == '-')
  }

  /** A text starting with a digit is read from that digit, unsigned. */
  lemma ParseIntPlain(u: string)
    requires u != [] && IsDigit(u[0])
    ensures ParseInt(u) == Signed(ParseIntUnsigned(u), false)
  {
    assert !IsWhitespace(u[0]);
  }

  /** A '-' negates whatever the unsigned part after it reads as, the "0x" form included. */
  lemma ParseIntMinus(u: string)
    ensures ParseInt("-" + u) == Signed(ParseIntUnsigned(u), true)
  {
    var s := "-" + u;
    TrimStartNonBlank(s);
    ParseIntSignedMinus(s);
    assert s[1..] == u;
  }

  lemma ParseIntSignedMinus(t: string)
    requires t != [] && t[0] == '-'
    ensures ParseIntSigned(t) == Signed(ParseIntUnsigned(t[1..]), true)
  {
  }

  /** After "0x", a hexadecimal digit string reads as its base-16 value. */
  lemma ParseIntUnsignedHex(h: string)
    requires IsHexDigits(h) && h != []
    ensures ParseIntUnsigned("0x" + h) == Some(HexValue(h))
  {
    assert ("0x" + h)[2..] == h;
    HexDigitPrefixOfHex(h);
  }

  /** "0x" and a hexadecimal digit string read as its base-16 value. */
  lemma ParseIntHex(h: string)
    requires IsHexDigits(h) && h != []
    ensures ParseInt("0x" + h) == Some(HexValue(h))
  {
    var u := "0x" + h;
    assert u[0] == '0';
    ParseIntUnsignedHex(h);
    ParseIntPlain(u);
  }

  lemma {:induction false} HexDigitPrefixOfHex(h: string)
    requires IsHexDigits(h)
    ensures HexDigitPrefix(h) == h
  {
    if h != [] {
      HexDigitPrefixOfHex(h[1..]);
    }
  }

  /** "0x" with no hexadecimal digit after it is NaN, not zero. */
  lemma ParseIntHexEmpty(rest: string)
    requires rest == [] || !IsHexDigit(rest[0])
    ensures ParseInt("0x" + rest) == None && ParseInt("0X" + rest) == None
  {
    ParseIntPlain("0x" + rest);
    ParseIntPlain("0X" + rest);
    assert ("0x" + rest)[2..] == rest;
    assert ("0X" + rest)[2..] == rest;
  }

  /** "0x1A" reads as 26 and "-0x10" as -16. */
  lemma ParseIntHexExamples()
    ensures ParseInt("0x" + "1A") == Some(26)
    ensures ParseInt("-" + ("0x" + "10")) == Some(-16)
  {
    assert HexValue("1A") == 26 by {
      assert "1A"[..1] == "1";
      assert "1"[..0] == "";
    }
    assert HexValue("10") == 16 by {
      assert "10"[..1] == "1";
      assert "1"[..0] == "";
    }
    ParseIntHex("1A");
    var u := "0x" + "10";
    assert u[0] == '0';
    ParseIntUnsignedHex("10");
    ParseIntMinus(u);
  }

  /** parseInt reads a digit string as its decimal value. */
  lemma ParseIntDigits(s: string)
    requires IsDigits(s) && s != []
    ensures ParseInt(s) == Some(DecimalValue(s))
  {
    TrimStartDigits(s);
    DigitPrefixOfDigits(s);
    assert !HexMarked(s) by {
      if |s| >= 2 {
        assert IsDigit(s[1]);
      }
    }
  }

  /** parseInt reads the decimal text of a natural number back as that number. */
  lemma ParseIntNat(n: nat)
    ensures ParseInt(NatToDecimal(n)) == Some(n)
  {
    ParseIntDigits(NatToDecimal(n));
    DecimalRoundTrip(n);
  }

  lemma TrimStartNonBlank(s: string)
    requires s != [] && !IsWhitespace(s[0])
    ensures TrimStart(s) == s
  {
  }

  lemma TrimStartDigits(s: string)
    requires s != [] && IsDigit(s[0])
    ensures TrimStart(s) == s
  {
    assert !IsWhitespace(s[0]);
  }

  /** parseFloat of a string starting with a digit is its unsigned parse. */
  lemma ParseFloatUnsigned(s: string)
    requires s != [] && IsDigit(s[0])
    ensures ParseFloat(s) == ParseUnsigned(s)
  {
    TrimStartDigits(s);
  }

  lemma ParseUnsignedFraction(whole: string, w: nat, fp: string, v: real)
    requires IsDigits(whole) && whole != [] && DecimalValue(whole) == w && IsDigits(fp)
    requires w as real + FractionValue(fp) == v
    ensures ParseUnsigned(whole + "." + fp) == Some(v)
  {
    var r := whole + "." + fp;
    assert r == whole + ("." + fp);
    DigitPrefixStops(whole, "." + fp);
    var rest := r[|whole|..];
    assert rest == "." + fp;
    DigitPrefixOfDigits(fp);
    assert rest[1..] == fp;
    UnsignedParts(r, whole, w, fp, v);
  }

  lemma UnsignedParts(u: string, ip: string, w: nat, fp: string, v: real)
    requires IsDigits(ip) && IsDigits(fp) && ip != [] && DecimalValue(ip) == w
    requires w as real + FractionValue(fp) == v
    requires DigitPrefix(u) == ip
    requires var rest := u[|ip|..]; rest != [] && rest[0] == '.' && DigitPrefix(rest[1..]) == fp
    ensures ParseUnsigned(u) == Some(v)
  {
  }
}
