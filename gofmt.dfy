/** The formatting verbs route.go applies through `fmt.Sprintf`: `%x` on a byte
    array or a string (lower-case hexadecimal, two digits per byte), `%v` on a
    whole number (its decimal digits) and `%v` on a float64 holding a whole number
    (plain digits below a million, exponent form from there on). */
module GoFmt {
  import opened Wrappers
  import opened GoStrings

  type Byte = b: int | 0 <= b < 256

  predicate IsLowerHexDigit(c: char) {
    '0' <= c <= '9' || 'a' <= c <= 'f'
  }

  predicate IsLowerHex(s: string) {
    forall i :: 0 <= i < |s| ==> IsLowerHexDigit(s[i])
  }

  predicate IsDecimal(s: string) {
    forall i :: 0 <= i < |s| ==> '0' <= s[i] <= '9'
  }

  /** The value of one lower-case hexadecimal digit. */
  function DigitValue(c: char): (n: int)
    requires IsLowerHexDigit(c)
    ensures 0 <= n < 16
    ensures ('0' <= c <= '9') == (n < 10)
  {
    if '0' <= c <= '9' then c as int - '0' as int else c as int - 'a' as int + 10
  }

  /** The lower-case hexadecimal digit for `n`, as `%x` writes it. */
  function HexDigit(n: int): (c: char)
    requires 0 <= n < 16
    ensures IsLowerHexDigit(c) && DigitValue(c) == n
    ensures n < 10 ==> '0' <= c <= '9'
  {
    if n < 10 then ('0' as int + n) as char else ('a' as int + (n - 10)) as char
  }

  lemma DigitRoundTrip(c: char)
    requires IsLowerHexDigit(c)
    ensures HexDigit(DigitValue(c)) == c
  {
  }

  /** `%x` on a byte sequence: two lower-case digits per byte, high nibble first. */
  function Hex(bs: seq<Byte>): (s: string)
    ensures |s| == 2 * |bs|
    ensures IsLowerHex(s)
  {
    if bs == [] then "" else [HexDigit(bs[0] / 16), HexDigit(bs[0] % 16)] + Hex(bs[1..])
  }

  /** Reads back what `Hex` writes. */
  function Unhex(s: string): (bs: seq<Byte>)
    requires |s| % 2 == 0 && IsLowerHex(s)
    ensures 2 * |bs| == |s|
  {
    if s == [] then [] else [DigitValue(s[0]) * 16 + DigitValue(s[1])] + Unhex(s[2..])
  }

  lemma {:induction false} UnhexHex(bs: seq<Byte>)
    ensures Unhex(Hex(bs)) == bs
  {
    if bs != [] {
      var s := Hex(bs);
      assert s[2..] == Hex(bs[1..]);
      UnhexHex(bs[1..]);
      assert bs == [bs[0]] + bs[1..];
    }
  }

  lemma {:induction false} HexUnhex(s: string)
    requires |s| % 2 == 0 && IsLowerHex(s)
    ensures Hex(Unhex(s)) == s
    decreases |s|
  {
    if s != [] {
      var b := DigitValue(s[0]) * 16 + DigitValue(s[1]);
      assert b / 16 == DigitValue(s[0]) && b % 16 == DigitValue(s[1]);
      DigitRoundTrip(s[0]);
      DigitRoundTrip(s[1]);
      HexUnhex(s[2..]);
      assert Unhex(s)[1..] == Unhex(s[2..]);
      assert s == [s[0], s[1]] + s[2..];
    }
  }

  /** Hex encoding commutes with taking a prefix: the first `2k` digits encode the first `k` bytes. */
  lemma {:induction false} HexPrefix(bs: seq<Byte>, k: nat)
    requires k <= |bs|
    ensures Hex(bs)[..2 * k] == Hex(bs[..k])
  {
    if k > 0 {
      HexPrefix(bs[1..], k - 1);
      assert bs[..k][1..] == bs[1..][..k - 1];
    }
  }

  lemma HexInjective(a: seq<Byte>, b: seq<Byte>)
    ensures Hex(a) == Hex(b) <==> a == b
  {
    if Hex(a) == Hex(b) {
      UnhexHex(a);
      UnhexHex(b);
    }
  }

  predicate IsAscii(s: string) {
    forall i :: 0 <= i < |s| ==> s[i] as int < 128
  }

  /** The bytes of a string of ASCII characters (its UTF-8 encoding). */
  function AsciiBytes(s: string): (bs: seq<Byte>)
    requires IsAscii(s)
    ensures |bs| == |s|
    ensures forall i :: 0 <= i < |s| ==> bs[i] == s[i] as int
  {
    if s == [] then [] else [s[0] as int] + AsciiBytes(s[1..])
  }

  /** `%x` on a Go string: the hex encoding of its bytes. */
  function HexString(s: string): (h: string)
    requires IsAscii(s)
    ensures |h| == 2 * |s| && IsLowerHex(h)
  {
    Hex(AsciiBytes(s))
  }

  /** `%v` on a whole number: its decimal digits, without leading zeros. */
  function FormatNat(n: nat): (s: string)
    ensures |s| >= 1 && IsDecimal(s)
    ensures (s[0] == '0') == (n == 0)
  {
    if n < 10 then [HexDigit(n)] else FormatNat(n / 10) + [HexDigit(n % 10)]
  }

  /** The value of a string of decimal digits. */
  function ParseNat(s: string): nat
    requires IsDecimal(s)
  {
    if s == [] then 0 else ParseNat(s[..|s| - 1]) * 10 + DigitValue(s[|s| - 1])
  }

  lemma {:induction false} ParseFormat(n: nat)
    ensures ParseNat(FormatNat(n)) == n
  {
    if n >= 10 {
      var s := FormatNat(n);
      assert s[..|s| - 1] == FormatNat(n / 10);
      ParseFormat(n / 10);
    }
  }

  // `%v` on a float64 that holds a whole number

  /** Every whole number below 2^53 is a float64 exactly. */
  const TwoTo53: nat := 0x20_0000_0000_0000

  /** `10^k`. */
  function Pow10(k: nat): (p: nat)
    ensures p >= 1
  {
    if k == 0 then 1 else 10 * Pow10(k - 1)
  }

  /** A number has at most `k` digits exactly when it is below `10^k`. */
  lemma {:induction false} FormatNatLength(n: nat, k: nat)
    requires k >= 1
    ensures |FormatNat(n)| <= k <==> n < Pow10(k)
  {
    if n >= 10 {
      if k == 1 {
        assert |FormatNat(n)| == |FormatNat(n / 10)| + 1;
      } else {
        FormatNatLength(n / 10, k - 1);
        assert n / 10 < Pow10(k - 1) <==> n < 10 * Pow10(k - 1);
      }
    } else {
      assert Pow10(k) >= 10 by { assert Pow10(k) == 10 * Pow10(k - 1); }
    }
  }

  /** `s` without its trailing zeros. */
  function TrimZeros(s: string): (t: string)
    ensures t <= s
    ensures forall i :: |t| <= i < |s| ==> s[i] == '0'
    ensures t == [] || t[|t| - 1] != '0'
  {
    if s == [] || s[|s| - 1] != '0' then s else TrimZeros(s[..|s| - 1])
  }

  /** `v` followed by `k` zeros: `v * 10^k`. */
  function Shift(v: nat, k: nat): nat {
    if k == 0 then v else 10 * Shift(v, k - 1)
  }

  /** Appending `k` zeros multiplies by `10^k`. */
  lemma {:induction false} ShiftScales(v: nat, k: nat)
    ensures Shift(v, k) == v * Pow10(k)
  {
    if k > 0 {
      ShiftScales(v, k - 1);
      assert v * Pow10(k) == 10 * (v * Pow10(k - 1));
    }
  }

  /** Trailing zeros scale the value by ten each. */
  lemma {:induction false} ParseTrimZeros(s: string)
    requires IsDecimal(s)
    ensures IsDecimal(TrimZeros(s))
    ensures ParseNat(s) == Shift(ParseNat(TrimZeros(s)), |s| - |TrimZeros(s)|)
  {
    if s == [] || s[|s| - 1] != '0' {
      assert TrimZeros(s) == s;
    } else {
      var init := s[..|s| - 1];
      ParseTrimZeros(init);
      var t := TrimZeros(init);
      assert TrimZeros(s) == t;
      assert ParseNat(s) == 10 * ParseNat(init);
      assert Shift(ParseNat(t), |s| - |t|) == 10 * Shift(ParseNat(t), |init| - |t|);
    }
  }

  /** The exponent of `%e`: at least two decimal digits. */
  function ExponentDigits(e: nat): (s: string)
    ensures |s| >= 2 && IsDecimal(s)
  {
    if e < 10 then ['0', HexDigit(e)] else FormatNat(e)
  }

  lemma ParseExponentDigits(e: nat)
    ensures ParseNat(ExponentDigits(e)) == e
  {
    if e < 10 {
      assert ParseNat(['0', HexDigit(e)][..1]) == 0;
    } else {
      ParseFormat(e);
    }
  }

  /** The mantissa of `%e`: the first digit, then a point and the others if any. */
  function Mantissa(digits: string): string
    requires |digits| >= 1
  {
    if |digits| == 1 then digits else digits[..1] + "." + digits[1..]
  }

  /** `%v` of a float64 holding the whole number `n`. Go writes the shortest digits
      that read back as the value; below 2^53 those are the digits of `n` without
      trailing zeros. While the decimal exponent (one less than the number of
      digits) is below 6, that is below a million, it writes them in plain form,
      which for a whole number is `n`'s own digits; from there on it writes
      `d.ddde+XX`, so a million is `1e+06`. */
  function FormatWholeFloat(n: nat): (s: string)
    requires n < TwoTo53
    ensures |s| >= 1
  {
    if n < 1000000 then FormatNat(n) else ExponentForm(FormatNat(n))
  }

  /** The exponent form of a number written as `digits` (no leading zero). */
  function ExponentForm(digits: string): (s: string)
    requires |digits| >= 1 && IsDecimal(digits) && digits[0] != '0'
    ensures |s| >= 1
  {
    var m := TrimZeros(digits);
    assert m != [] by { assert digits[0] != '0'; }
    ExponentNotation(m, ExponentDigits(|digits| - 1))
  }

  /** `d.ddde+XX` for the mantissa digits `m` and the exponent digits `x`. */
  function ExponentNotation(m: string, x: string): string
    requires |m| >= 1
  {
    Mantissa(m) + "e" + ("+" + x)
  }

  /** The plain form is taken exactly while the decimal exponent is below 6; it is
      the one made of digits only, and it is `n`'s own digits. */
  lemma FormatWholeFloatPlain(n: nat)
    requires n < TwoTo53
    ensures n < 1000000 <==> |FormatNat(n)| - 1 < 6
    ensures IsDecimal(FormatWholeFloat(n)) <==> n < 1000000
    ensures n < 1000000 ==> FormatWholeFloat(n) == FormatNat(n)
  {
    FormatNatLength(n, 6);
    assert Pow10(6) == 1000000;
    if n >= 1000000 {
      var digits := FormatNat(n);
      var m := TrimZeros(digits);
      assert m != [] by { assert digits[0] != '0'; }
      var s := Mantissa(m) + "e" + ("+" + ExponentDigits(|digits| - 1));
      assert s[|Mantissa(m)|] == 'e';
    }
  }

  /** Reads back what `%v` writes for a whole float64: plain digits, or a mantissa
      and a `+` exponent whose value is whole. */
  function ParseWholeFloat(s: string): Option<nat> {
    ParseFloatParts(Split(s, 'e'))
  }

  /** The value of the pieces of a `%v` float64 around its `e`. */
  function ParseFloatParts(parts: seq<string>): Option<nat> {
    if |parts| == 1 then
      if parts[0] != "" && IsDecimal(parts[0]) then Some(ParseNat(parts[0])) else None
    else if |parts| == 2 then
      match (ParseMantissa(parts[0]), ParseExponent(parts[1]))
      case (Some(digits), Some(e)) => Scaled(digits, e)
      case _ => None
    else None
  }

  /** The whole number a mantissa of `digits` with exponent `e` stands for, if it is
      whole: the digits are moved so that the first one is worth `10^e`. */
  function Scaled(digits: string, e: nat): Option<nat>
    requires |digits| >= 1 && IsDecimal(digits)
  {
    if |digits| - 1 <= e then Some(Shift(ParseNat(digits), e - (|digits| - 1))) else None
  }

  /** The digits of a mantissa: one digit, or one digit, a point and more digits. */
  function ParseMantissa(mant: string): (digits: Option<string>)
    ensures digits.Some? ==> |digits.value| >= 1 && IsDecimal(digits.value)
  {
    var pieces := Split(mant, '.');
    if |pieces| == 1 && |mant| == 1 && IsDecimal(mant) then Some(mant)
    else if |pieces| == 2 && |pieces[0]| == 1 && IsDecimal(pieces[0] + pieces[1]) then Some(pieces[0] + pieces[1])
    else None
  }

  /** The value of an exponent `+XX`. */
  function ParseExponent(t: string): Option<nat> {
    if |t| >= 2 && t[0] == '+' && IsDecimal(t[1..]) then Some(ParseNat(t[1..])) else None
  }

  lemma NotADigit(s: string, c: char)
    requires IsDecimal(s) && !('0' <= c <= '9')
    ensures c !in s
  {
  }

  lemma ParseMantissaOf(m: string)
    requires |m| >= 1 && IsDecimal(m)
    ensures ParseMantissa(Mantissa(m)) == Some(m)
  {
    if |m| == 1 {
      SplitWhole(m, '.');
    } else {
      assert '.' !in m[..1] && '.' !in m[1..];
      SplitPair(m[..1], m[1..], '.');
      assert m[..1] + m[1..] == m;
    }
  }

  lemma ParseExponentOf(x: string)
    requires |x| >= 1 && IsDecimal(x)
    ensures ParseExponent("+" + x) == Some(ParseNat(x))
  {
    assert ("+" + x)[1..] == x;
  }

  /** A `%v` float64 with one `e` is read piece by piece. */
  lemma ParseAroundE(a: string, b: string)
    requires 'e' !in a && 'e' !in b
    ensures ParseWholeFloat(a + "e" + b) == ParseFloatParts([a, b])
  {
    SplitPair(a, b, 'e');
  }

  /** Reading the exponent form: a mantissa of the digits `m` and exponent digits `x`
      denote `m` scaled so that its first digit is worth `10^x`. */
  lemma ParseExponentNotation(m: string, x: string, s: string)
    requires |m| >= 1 && IsDecimal(m) && |x| >= 1 && IsDecimal(x)
    requires s == ExponentNotation(m, x)
    ensures ParseWholeFloat(s) == Scaled(m, ParseNat(x))
  {
    var mant, exp := Mantissa(m), "+" + x;
    MantissaLetters(m);
    NotADigit(x, 'e');
    assert 'e' !in exp;
    ParseAroundE(mant, exp);
    ParseMantissaOf(m);
    ParseExponentOf(x);
    assert ParseFloatParts([mant, exp]) == Scaled(m, ParseNat(x));
  }

  /** A mantissa holds digits and at most a point. */
  lemma MantissaLetters(m: string)
    requires |m| >= 1 && IsDecimal(m)
    ensures 'e' !in Mantissa(m)
  {
    NotADigit(m, 'e');
    if |m| > 1 {
      assert 'e' !in m[..1] && 'e' !in m[1..];
    }
  }

  /** The exponent form reads back as the number its digits are. */
  lemma ParseExponentForm(digits: string)
    requires |digits| >= 1 && IsDecimal(digits) && digits[0] != '0'
    ensures ParseWholeFloat(ExponentForm(digits)) == Some(ParseNat(digits))
  {
    var m, x := TrimZeros(digits), ExponentDigits(|digits| - 1);
    ParseExponentDigits(|digits| - 1);
    ScaledTrimmed(digits, ParseNat(x));
    ParseExponentNotation(m, x, ExponentForm(digits));
  }

  /** The digits without their trailing zeros, with the first worth `10^(|digits| - 1)`,
      are the number `digits` is. */
  lemma ScaledTrimmed(digits: string, e: nat)
    requires |digits| >= 1 && IsDecimal(digits) && digits[0] != '0' && e == |digits| - 1
    ensures TrimZeros(digits) != [] && IsDecimal(TrimZeros(digits))
    ensures Scaled(TrimZeros(digits), e) == Some(ParseNat(digits))
  {
    var m := TrimZeros(digits);
    assert m != [] by { assert digits[0] != '0'; }
    ParseTrimZeros(digits);
    assert e - (|m| - 1) == |digits| - |m|;
  }

  /** What `%v` writes for a whole float64 reads back as that number. */
  lemma ParseFormatWholeFloat(n: nat)
    requires n < TwoTo53
    ensures ParseWholeFloat(FormatWholeFloat(n)) == Some(n)
  {
    var digits := FormatNat(n);
    ParseFormat(n);
    if n < 1000000 {
      SplitWhole(digits, 'e');
    } else {
      ParseExponentForm(digits);
    }
  }

  // Worked cases

  lemma MillionDigits()
    ensures FormatNat(1000000) == "1000000"
  {
    assert FormatNat(1000) == "1000";
  }

  lemma MillionTrimmed()
    ensures TrimZeros("1000000") == "1"
  {
    assert "1000000"[..6] == "100000" && "100000"[..5] == "10000" && "10000"[..4] == "1000";
    assert "1000"[..3] == "100" && "100"[..2] == "10" && "10"[..1] == "1";
  }

  /** A million is the first whole number `%v` writes in exponent form. */
  lemma FormatWholeFloatMillion()
    ensures FormatWholeFloat(1000000) == "1e+06"
  {
    MillionDigits();
    MillionTrimmed();
    assert ExponentDigits(6) == "06";
  }

  lemma MantissaDigits()
    ensures FormatNat(1200000) == "1200000"
  {
    assert FormatNat(1200) == "1200";
  }

  lemma MantissaTrimmed()
    ensures TrimZeros("1200000") == "12"
  {
    assert "1200000"[..6] == "120000" && "120000"[..5] == "12000" && "12000"[..4] == "1200";
    assert "1200"[..3] == "120" && "120"[..2] == "12";
  }

  /** The mantissa keeps the digits before the trailing zeros, after a point. */
  lemma FormatWholeFloatMantissa()
    ensures FormatWholeFloat(1200000) == "1.2e+06"
  {
    MantissaDigits();
    MantissaTrimmed();
    assert Mantissa("12") == "1.2";
  }
}
