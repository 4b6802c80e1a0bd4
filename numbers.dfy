/**
 * `parseFloat` and `parseInt` (no radix argument), as the form validator and
 * the form conversion use them. `None` stands for NaN.
 */
module Numbers {
  import opened Optional
  import opened Strings

  predicate IsDigit(c: char) {
    '0' <= c <= '9'
  }

  predicate IsHexDigit(c: char) {
    IsDigit(c) || 'a' <= c <= 'f' || 'A' <= c <= 'F'
  }

  function HexDigitValue(c: char): (v: nat)
    requires IsHexDigit(c)
    ensures v < 16
  {
    if IsDigit(c) then c as int - '0' as int
    else if 'a' <= c <= 'f' then c as int - 'a' as int + 10
    else c as int - 'A' as int + 10
  }

  /** A digit of base `radix` (10 or 16). */
  predicate IsRadixDigit(c: char, radix: nat) {
    if radix == 16 then IsHexDigit(c) else IsDigit(c)
  }

  /** The length of the longest prefix of `s` made of base-`radix` digits. */
  function LeadingRun(s: string, radix: nat): (n: nat)
    ensures n <= |s|
    ensures forall i :: 0 <= i < n ==> IsRadixDigit(s[i], radix)
    ensures n < |s| ==> !IsRadixDigit(s[n], radix)
  {
    if s != [] && IsRadixDigit(s[0], radix) then 1 + LeadingRun(s[1..], radix) else 0
  }

  /** The value of a string of base-`radix` digits, most significant first. */
  function DigitsValue(d: string, radix: nat): nat
    requires radix == 10 || radix == 16
    requires forall i :: 0 <= i < |d| ==> IsRadixDigit(d[i], radix)
  {
    if d == [] then 0
    else
      assert IsRadixDigit(d[|d| - 1], radix);
      DigitsValue(d[..|d| - 1], radix) * radix + HexDigitValue(d[|d| - 1])
  }

  function Pow10(k: nat): (p: nat)
    ensures p >= 1
  {
    if k == 0 then 1 else 10 * Pow10(k - 1)
  }

  /** The value of the numeral `whole.fraction` when the fraction is written with `places` digits. */
  function Decimal(whole: nat, fraction: nat, places: nat): (v: real)
    ensures v >= whole as real
    ensures fraction == 0 ==> v == whole as real
  {
    whole as real + fraction as real / Pow10(places) as real
  }

  /** `m` under the sign text `sign`: negated after `-`, kept after `+` or no sign. */
  function WithSign(sign: string, m: nat): int {
    if sign == "-" then -(m as int) else m
  }

  /** `v` under the sign text `sign`, as `WithSign` for reals. */
  function WithSignReal(sign: string, v: real): real {
    if sign == "-" then -v else v
  }

  /** Splits an optional leading sign off `t`: whether it was `-`, and the rest. */
  function SplitSign(t: string): (bool, string) {
    if t != [] && (t[0] == '-' || t[0] == '+') then (t[0] == '-', t[1..]) else (false, t)
  }

  /** The longest prefix digits [ `.` digits ] of `u` with at least one digit, as a number. */
  function UnsignedDecimal(u: string): (r: Option<real>)
    ensures r.Some? ==> r.value >= 0.0
  {
    var n := LeadingRun(u, 10);
    var rest := if n < |u| && u[n] == '.' then u[n + 1..] else [];
    var m := LeadingRun(rest, 10);
    if n + m == 0 then None
    else
      var whole := DigitsValue(u[..n], 10);
      var fraction := DigitsValue(rest[..m], 10);
      Some(Decimal(whole, fraction, m))
  }

  /**
   * `parseFloat(s)`: leading white space, an optional sign, then the longest
   * prefix of the form digits [ `.` digits ] with at least one digit; NaN
   * when there is none.
   */
  function ParseFloat(s: string): (r: Option<real>)
    ensures r.Some? && r.value < 0.0 ==> SplitSign(TrimStart(s)).0
  {
    SignedDecimal(TrimStart(s))
  }

  /** The numeral `parseFloat` reads once the white space is gone: an optional sign and an unsigned decimal. */
  function SignedDecimal(t: string): (r: Option<real>)
    ensures r.Some? && r.value < 0.0 ==> SplitSign(t).0
  {
    var sign := SplitSign(t);
    match UnsignedDecimal(sign.1)
    case None => None
    case Some(v) => Some(if sign.0 then -v else v)
  }

  /**
   * `parseInt(s)`: leading white space, an optional sign, a `0x`/`0X` prefix
   * selecting base 16, then the longest run of digits of that base; NaN when
   * the run is empty.
   */
  function ParseInt(s: string): (r: Option<int>)
    ensures r.Some? && r.value < 0 ==> SplitSign(TrimStart(s)).0
  {
    SignedInteger(TrimStart(s))
  }

  /** The numeral `parseInt` reads once the white space is gone: an optional sign and a magnitude. */
  function SignedInteger(t: string): (r: Option<int>)
    ensures r.Some? && r.value < 0 ==> SplitSign(t).0
  {
    var sign := SplitSign(t);
    match Magnitude(sign.1)
    case None => None
    case Some(m) => Some(if sign.0 then -(m as int) else m)
  }

  /** The unsigned part of `parseInt`: hexadecimal after `0x`/`0X`, decimal otherwise. */
  function Magnitude(u: string): Option<nat> {
    if |u| >= 2 && u[0] == '0' && (u[1] == 'x' || u[1] == 'X') then RunValue(u[2..], 16)
    else RunValue(u, 10)
  }

  /** The value of the longest leading run of base-`radix` digits of `d`; none when the run is empty. */
  function RunValue(d: string, radix: nat): Option<nat>
    requires radix == 10 || radix == 16
  {
    var n := LeadingRun(d, radix);
    if n == 0 then None else Some(DigitsValue(d[..n], radix))
  }

  /** `parseFloat("0")` is zero, which the price check rejects. */
  lemma ParseFloatZero()
    ensures ParseFloat("0") == Some(0.0)
  {
    assert TrimStart("0") == "0";
    assert SplitSign("0") == (false, "0");
    UnsignedZero();
  }

  /** The unsigned part `"0"` reads as zero. */
  lemma UnsignedZero()
    ensures UnsignedDecimal("0") == Some(0.0)
  {
    assert LeadingRun("0", 10) == 1;
    assert LeadingRun([], 10) == 0;
    assert DigitsValue("0", 10) == 0;
  }

  /** `parseFloat("-5")` is negative, which the price check rejects. */
  lemma ParseFloatMinusFive()
    ensures ParseFloat("-5") == Some(-5.0)
  {
    assert TrimStart("-5") == "-5";
    assert SplitSign("-5") == (true, "5");
    assert LeadingRun("5", 10) == 1;
    assert DigitsValue("5", 10) == 5;
  }

  /** `parseInt` stops at the first character that is not a digit: `"3.7"` reads as 3. */
  lemma ParseIntStopsAtPoint()
    ensures ParseInt("3.7") == Some(3)
  {
    assert TrimStart("3.7") == "3.7";
    assert SplitSign("3.7") == (false, "3.7");
    assert "3.7"[0] != '0';
    DecimalRunBeforePoint();
  }

  /** The decimal run of `"3.7"` is the `3` before the point. */
  lemma DecimalRunBeforePoint()
    ensures RunValue("3.7", 10) == Some(3)
  {
    assert LeadingRun("3.7", 10) == 1;
    assert "3.7"[..1] == "3";
    assert DigitsValue("3", 10) == 3;
  }

  /** Digits followed by a non-digit, or by nothing, make a leading run exactly as long as the digits. */
  lemma RunOfDigits(d: string, tail: string, radix: nat)
    requires forall i :: 0 <= i < |d| ==> IsRadixDigit(d[i], radix)
    requires tail == [] || !IsRadixDigit(tail[0], radix)
    ensures LeadingRun(d + tail, radix) == |d|
    ensures (d + tail)[..|d|] == d && (d + tail)[|d|..] == tail
  {
    var s := d + tail;
    assert forall i :: 0 <= i < |d| ==> s[i] == d[i];
    assert tail != [] ==> s[|d|] == tail[0];
    assert s[..|d|] == d;
    assert s[|d|..] == tail;
  }

  /** A point and what follows it. */
  lemma AfterPoint(rest: string)
    ensures ("." + rest)[0] == '.' && ("." + rest)[1..] == rest
  {
  }

  /** `trimStart` drops exactly the white space in front of text that starts with something else. */
  lemma {:induction false} TrimStartBlank(lead: string, u: string)
    requires IsBlank(lead)
    requires u == [] || !IsWhiteSpace(u[0])
    ensures TrimStart(lead + u) == u
  {
    if lead == [] {
      assert lead + u == u;
    } else {
      assert (lead + u)[1..] == lead[1..] + u;
      TrimStartBlank(lead[1..], u);
    }
  }

  /** Digits, points and signs are not white space. */
  lemma NotWhiteSpace(c: char)
    requires IsHexDigit(c) || c == '.' || c == '-' || c == '+'
    ensures !IsWhiteSpace(c)
  {
  }

  /** White space, then an optional sign, then text starting with a digit or a point: `trimStart` leaves the sign and the text. */
  lemma TrimBeforeSign(lead: string, sign: string, u: string)
    requires IsBlank(lead) && (sign == "" || sign == "-" || sign == "+")
    requires u != [] && (IsHexDigit(u[0]) || u[0] == '.')
    ensures TrimStart(lead + (sign + u)) == sign + u
  {
    var t := sign + u;
    if sign == "" {
      assert t == u;
      NotWhiteSpace(u[0]);
    } else {
      NotWhiteSpace(t[0]);
    }
    TrimStartBlank(lead, t);
  }

  /** An optional sign before text starting with a digit or a point is read as the sign. */
  lemma SignRead(sign: string, u: string)
    requires sign == "" || sign == "-" || sign == "+"
    requires u != [] && (IsHexDigit(u[0]) || u[0] == '.')
    ensures SplitSign(sign + u) == (sign == "-", u)
  {
    if sign == "" {
      assert sign + u == u;
    } else {
      assert (sign + u)[1..] == u;
    }
  }

  /** Decimal digits not followed by a digit or a point read as their value. */
  lemma UnsignedInteger(d: string, tail: string)
    requires d != [] && forall i :: 0 <= i < |d| ==> IsDigit(d[i])
    requires tail == [] || (!IsDigit(tail[0]) && tail[0] != '.')
    ensures UnsignedDecimal(d + tail) == Some(DigitsValue(d, 10) as real)
  {
    RunOfDigits(d, tail, 10);
    assert (d + tail)[..|d|] == d;
    assert |d| < |d + tail| ==> (d + tail)[|d|] == tail[0];
  }

  /** Digits, a point and digits read as the whole part plus the fraction over ten to the fraction's length. */
  lemma UnsignedFraction(d: string, f: string, tail: string)
    requires d + f != []
    requires forall i :: 0 <= i < |d| ==> IsDigit(d[i])
    requires forall i :: 0 <= i < |f| ==> IsDigit(f[i])
    requires tail == [] || !IsDigit(tail[0])
    ensures UnsignedDecimal(d + ("." + (f + tail)))
      == Some(Decimal(DigitsValue(d, 10), DigitsValue(f, 10), |f|))
  {
    var after := "." + (f + tail);
    var u := d + after;
    AfterPoint(f + tail);
    RunOfDigits(d, after, 10);
    RunOfDigits(f, tail, 10);
    assert u[|d|] == after[0];
    assert u[|d| + 1..] == after[1..];
  }

  /** The sign read is applied to the unsigned value after it. */
  lemma SignedDecimalOf(sign: string, u: string, v: real)
    requires sign == "" || sign == "-" || sign == "+"
    requires u != [] && (IsDigit(u[0]) || u[0] == '.')
    requires UnsignedDecimal(u) == Some(v)
    ensures SignedDecimal(sign + u) == Some(WithSignReal(sign, v))
  {
    SignRead(sign, u);
  }

  /**
   * `parseFloat` of white space, an optional sign and a decimal numeral is the
   * numeral's value with that sign; what follows is ignored unless it starts an
   * exponent.
   */
  lemma ParseFloatDecimal(lead: string, sign: string, d: string, f: string, tail: string)
    requires IsBlank(lead) && (sign == "" || sign == "-" || sign == "+")
    requires d + f != []
    requires forall i :: 0 <= i < |d| ==> IsDigit(d[i])
    requires forall i :: 0 <= i < |f| ==> IsDigit(f[i])
    requires tail == [] || (!IsDigit(tail[0]) && tail[0] != 'e' && tail[0] != 'E')
    ensures ParseFloat(lead + (sign + (d + ("." + (f + tail)))))
      == Some(WithSignReal(sign, Decimal(DigitsValue(d, 10), DigitsValue(f, 10), |f|)))
  {
    var u := d + ("." + (f + tail));
    assert u[0] == if d == [] then '.' else d[0];
    TrimBeforeSign(lead, sign, u);
    SignedFraction(sign, d, f, tail);
  }

  /** An optional sign and a numeral with a point, with nothing to trim, read as the numeral's value with that sign. */
  lemma SignedFraction(sign: string, d: string, f: string, tail: string)
    requires sign == "" || sign == "-" || sign == "+"
    requires d + f != []
    requires forall i :: 0 <= i < |d| ==> IsDigit(d[i])
    requires forall i :: 0 <= i < |f| ==> IsDigit(f[i])
    requires tail == [] || !IsDigit(tail[0])
    ensures SignedDecimal(sign + (d + ("." + (f + tail))))
      == Some(WithSignReal(sign, Decimal(DigitsValue(d, 10), DigitsValue(f, 10), |f|)))
  {
    var u := d + ("." + (f + tail));
    assert u[0] == if d == [] then '.' else d[0];
    UnsignedFraction(d, f, tail);
    SignedDecimalOf(sign, u, Decimal(DigitsValue(d, 10), DigitsValue(f, 10), |f|));
  }

  /** `parseFloat` of white space, an optional sign and digits with no point after them is the digits' value with that sign. */
  lemma ParseFloatInteger(lead: string, sign: string, d: string, tail: string)
    requires IsBlank(lead) && (sign == "" || sign == "-" || sign == "+")
    requires d != [] && forall i :: 0 <= i < |d| ==> IsDigit(d[i])
    requires tail == [] || (!IsDigit(tail[0]) && tail[0] != '.' && tail[0] != 'e' && tail[0] != 'E')
    ensures ParseFloat(lead + (sign + (d + tail)))
      == Some(WithSignReal(sign, DigitsValue(d, 10) as real))
  {
    assert (d + tail)[0] == d[0];
    TrimBeforeSign(lead, sign, d + tail);
    SignedWhole(sign, d, tail);
  }

  /** An optional sign and digits with no point after them, with nothing to trim, read as the digits' value with that sign. */
  lemma SignedWhole(sign: string, d: string, tail: string)
    requires sign == "" || sign == "-" || sign == "+"
    requires d != [] && forall i :: 0 <= i < |d| ==> IsDigit(d[i])
    requires tail == [] || (!IsDigit(tail[0]) && tail[0] != '.')
    ensures SignedDecimal(sign + (d + tail))
      == Some(WithSignReal(sign, DigitsValue(d, 10) as real))
  {
    assert (d + tail)[0] == d[0];
    UnsignedInteger(d, tail);
    SignedDecimalOf(sign, d + tail, DigitsValue(d, 10) as real);
  }

  /** The sign read is applied to the magnitude after it. */
  lemma SignedIntegerOf(sign: string, u: string, m: nat)
    requires sign == "" || sign == "-" || sign == "+"
    requires u != [] && IsDigit(u[0])
    requires Magnitude(u) == Some(m)
    ensures SignedInteger(sign + u) == Some(WithSign(sign, m))
  {
    SignRead(sign, u);
  }

  /** Decimal digits with no `x` straight after a lone `0` have their decimal value as magnitude. */
  lemma DecimalMagnitude(d: string, tail: string)
    requires d != [] && forall i :: 0 <= i < |d| ==> IsDigit(d[i])
    requires tail == [] || !IsDigit(tail[0])
    requires !(d == "0" && tail != [] && (tail[0] == 'x' || tail[0] == 'X'))
    ensures Magnitude(d + tail) == Some(DigitsValue(d, 10))
  {
    var u := d + tail;
    RunOfDigits(d, tail, 10);
    assert u[..|d|] == d;
    if |d| >= 2 {
      assert u[1] == d[1];
    } else if tail != [] {
      assert u[1] == tail[0];
    }
  }

  /** `0x` or `0X` and hexadecimal digits have their hexadecimal value as magnitude. */
  lemma HexMagnitude(x: char, h: string, tail: string)
    requires x == 'x' || x == 'X'
    requires h != [] && forall i :: 0 <= i < |h| ==> IsHexDigit(h[i])
    requires tail == [] || !IsHexDigit(tail[0])
    ensures Magnitude(['0', x] + (h + tail)) == Some(DigitsValue(h, 16))
  {
    var u := ['0', x] + (h + tail);
    assert u[2..] == h + tail;
    RunOfDigits(h, tail, 16);
    assert (h + tail)[..|h|] == h;
  }

  /**
   * `parseInt` of white space, an optional sign and decimal digits is their value
   * with that sign; what follows the digits is ignored, unless the digits are a
   * lone `0` followed by `x`, which starts a hexadecimal numeral instead.
   */
  lemma ParseIntDecimal(lead: string, sign: string, d: string, tail: string)
    requires IsBlank(lead) && (sign == "" || sign == "-" || sign == "+")
    requires d != [] && forall i :: 0 <= i < |d| ==> IsDigit(d[i])
    requires tail == [] || !IsDigit(tail[0])
    requires !(d == "0" && tail != [] && (tail[0] == 'x' || tail[0] == 'X'))
    ensures ParseInt(lead + (sign + (d + tail)))
      == Some(WithSign(sign, DigitsValue(d, 10)))
  {
    assert (d + tail)[0] == d[0];
    TrimBeforeSign(lead, sign, d + tail);
    SignedDecimalDigits(sign, d, tail);
  }

  /** An optional sign and decimal digits, with nothing to trim, read as the digits' value with that sign. */
  lemma SignedDecimalDigits(sign: string, d: string, tail: string)
    requires sign == "" || sign == "-" || sign == "+"
    requires d != [] && forall i :: 0 <= i < |d| ==> IsDigit(d[i])
    requires tail == [] || !IsDigit(tail[0])
    requires !(d == "0" && tail != [] && (tail[0] == 'x' || tail[0] == 'X'))
    ensures SignedInteger(sign + (d + tail))
      == Some(WithSign(sign, DigitsValue(d, 10)))
  {
    assert (d + tail)[0] == d[0];
    DecimalMagnitude(d, tail);
    SignedIntegerOf(sign, d + tail, DigitsValue(d, 10));
  }

  /** `parseInt` of white space, an optional sign, `0x` and hexadecimal digits is their value with that sign. */
  lemma ParseIntHex(lead: string, sign: string, x: char, h: string, tail: string)
    requires IsBlank(lead) && (sign == "" || sign == "-" || sign == "+")
    requires x == 'x' || x == 'X'
    requires h != [] && forall i :: 0 <= i < |h| ==> IsHexDigit(h[i])
    requires tail == [] || !IsHexDigit(tail[0])
    ensures ParseInt(lead + (sign + (['0', x] + (h + tail))))
      == Some(WithSign(sign, DigitsValue(h, 16)))
  {
    var u := ['0', x] + (h + tail);
    assert u[0] == '0';
    TrimBeforeSign(lead, sign, u);
    SignedHexDigits(sign, x, h, tail);
  }

  /** An optional sign, `0x` and hexadecimal digits, with nothing to trim, read as the digits' value with that sign. */
  lemma SignedHexDigits(sign: string, x: char, h: string, tail: string)
    requires sign == "" || sign == "-" || sign == "+"
    requires x == 'x' || x == 'X'
    requires h != [] && forall i :: 0 <= i < |h| ==> IsHexDigit(h[i])
    requires tail == [] || !IsHexDigit(tail[0])
    ensures SignedInteger(sign + (['0', x] + (h + tail)))
      == Some(WithSign(sign, DigitsValue(h, 16)))
  {
    var u := ['0', x] + (h + tail);
    assert u[0] == '0';
    HexMagnitude(x, h, tail);
    SignedIntegerOf(sign, u, DigitsValue(h, 16));
  }

  /** `parseInt` of white space alone is NaN. */
  lemma ParseIntBlank(s: string)
    requires IsBlank(s)
    ensures ParseInt(s) == None
  {
    assert TrimStart(s) == [];
  }
}
