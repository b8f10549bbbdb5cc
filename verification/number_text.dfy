/** The three JavaScript number/text conversions the core relies on:
    `parseFloat(s)` (decimal prefix parsing, `NaN` as `None`),
    `n.toFixed(2)` for non-negative amounts, and the `${index}` rendering of a
    non-negative integer. Numbers are exact reals, not IEEE doubles. */
module NumberText {
  import opened Optional

  /** `Math.abs(x)`. */
  function Abs(x: real): (r: real)
    ensures r >= 0.0 && (r == x || r == -x)
  {
    if x < 0.0 then -x else x
  }

  predicate IsDigit(c: char) { '0' <= c <= '9' }

  predicate AllDigits(s: string) { forall i :: 0 <= i < |s| ==> IsDigit(s[i]) }

  function DigitValue(c: char): nat
    requires IsDigit(c)
  {
    c as int - '0' as int
  }

  function DigitChar(d: nat): (c: char)
    requires d < 10
    ensures IsDigit(c) && DigitValue(c) == d
  {
    ('0' as int + d) as char
  }

  function Pow10(n: nat): (p: nat)
    ensures p >= 1
  {
    if n == 0 then 1 else 10 * Pow10(n - 1)
  }

  /** The value of a string of decimal digits, most significant digit first. */
  function DigitsValue(s: string): nat
    requires AllDigits(s)
  {
    if |s| == 0 then 0 else DigitsValue(s[..|s| - 1]) * 10 + DigitValue(s[|s| - 1])
  }

  lemma {:induction false} DigitsValueAppend(a: string, b: string)
    requires AllDigits(a) && AllDigits(b)
    ensures AllDigits(a + b)
    ensures DigitsValue(a + b) == DigitsValue(a) * Pow10(|b|) + DigitsValue(b)
  {
    if |b| > 0 {
      var b' := b[..|b| - 1];
      var d := DigitValue(b[|b| - 1]);
      assert (a + b)[..|a + b| - 1] == a + b';
      DigitsValueAppend(a, b');
      var x, y := DigitsValue(a), Pow10(|b'|);
      calc {
        DigitsValue(a + b);
        DigitsValue(a + b') * 10 + d;
        (x * y + DigitsValue(b')) * 10 + d;
        { ShiftDecimal(x, y); }
        x * (10 * y) + (DigitsValue(b') * 10 + d);
      }
    } else {
      assert a + b == a;
    }
  }

  lemma ShiftDecimal(x: int, y: int)
    ensures (x * y) * 10 == x * (10 * y)
  {
  }

  /** Length of the longest prefix of `s` whose characters all satisfy `p`. */
  function Span(s: string, p: char -> bool): (n: nat)
    ensures n <= |s|
    ensures forall i :: 0 <= i < n ==> p(s[i])
    ensures n < |s| ==> !p(s[n])
  {
    if |s| == 0 || !p(s[0]) then 0 else 1 + Span(s[1..], p)
  }

  lemma SpanOfPrefix(a: string, b: string, p: char -> bool)
    requires forall i :: 0 <= i < |a| ==> p(a[i])
    requires |b| == 0 || !p(b[0])
    ensures Span(a + b, p) == |a|
  {
    assert forall i :: 0 <= i < |a| ==> (a + b)[i] == a[i];
    if |b| > 0 {
      assert (a + b)[|a|] == b[0];
    }
  }

  /** The characters ECMAScript's StrWhiteSpaceChar admits: WhiteSpace
      (tab, vertical tab, form feed, ZWNBSP and the Zs separators) and
      LineTerminator. */
  predicate IsJsSpace(c: char) {
    || c == '\t' || c == '\n' || c == '\r' || c == ' '
    || c == '\U{000B}' || c == '\U{000C}' || c == '\U{00A0}' || c == '\U{1680}'
    || ('\U{2000}' <= c <= '\U{200A}')
    || c == '\U{2028}' || c == '\U{2029}' || c == '\U{202F}' || c == '\U{205F}'
    || c == '\U{3000}' || c == '\U{FEFF}'
  }

  function TrimStart(s: string): (t: string)
    ensures |t| <= |s| && t == s[|s| - |t|..]
    ensures |t| > 0 ==> !IsJsSpace(t[0])
    ensures forall i :: 0 <= i < |s| - |t| ==> IsJsSpace(s[i])
  {
    s[Span(s, IsJsSpace)..]
  }

  /** The text after at most one leading `+` or `-`. */
  function Unsigned(t: string): string {
    if |t| > 0 && (t[0] == '-' || t[0] == '+') then t[1..] else t
  }

  /** Does an unsigned decimal literal start here: a digit, or a point followed by a digit? */
  predicate StartsNumeric(u: string) {
    || (|u| > 0 && IsDigit(u[0]))
    || (|u| > 1 && u[0] == '.' && IsDigit(u[1]))
  }

  /** `m` times ten to the power `e`. */
  function Scale(m: real, e: int): (r: real)
    ensures m >= 0.0 ==> r >= 0.0
  {
    if e >= 0 then m * Pow10(e) as real else m / Pow10(-e) as real
  }

  /** The value of an exponent part `e12`, `E-3`, `e+7` at the start of `s`, or 0
      when `s` does not start with a complete one (then it is not consumed). */
  function ExponentOf(s: string): int {
    if |s| >= 2 && (s[0] == 'e' || s[0] == 'E') then
      var negative := s[1] == '-';
      var body := if s[1] == '-' || s[1] == '+' then s[2..] else s[1..];
      var n := Span(body, IsDigit);
      var e: int := DigitsValue(body[..n]);
      if negative then -e else e
    else
      0
  }

  /** The longest prefix of `u` that is an unsigned StrDecimalLiteral
      (`digits [. [digits]] [exponent]` or `. digits [exponent]`), valued. */
  function ParseUnsigned(u: string): (r: Option<real>)
    ensures r.Some? <==> StartsNumeric(u)
    ensures r.Some? ==> r.value >= 0.0
  {
    var i := Span(u, IsDigit);
    var rest := u[i..];
    if |rest| > 0 && rest[0] == '.' then
      var f := Span(rest[1..], IsDigit);
      if i == 0 && f == 0 then
        None
      else
        Some(Scale(Mantissa(u[..i], rest[1..][..f]), ExponentOf(rest[1..][f..])))
    else if i == 0 then
      None
    else
      Some(Scale(Mantissa(u[..i], ""), ExponentOf(rest)))
  }

  /** The value of `whole.fraction`. */
  function Mantissa(whole: string, fraction: string): (m: real)
    requires AllDigits(whole) && AllDigits(fraction)
    ensures m >= 0.0
  {
    DigitsValue(whole) as real + DigitsValue(fraction) as real / Pow10(|fraction|) as real
  }

  /** JavaScript's `parseFloat`: skip leading white space, read an optional
      sign, then the longest decimal-literal prefix; `None` is `NaN`. */
  function ParseFloat(s: string): (r: Option<real>)
    ensures r.Some? <==> StartsNumeric(Unsigned(TrimStart(s)))
    ensures r.Some? && r.value < 0.0 ==> TrimStart(s)[0] == '-'
  {
    var t := TrimStart(s);
    var magnitude := ParseUnsigned(Unsigned(t));
    if |t| > 0 && t[0] == '-' && magnitude.Some? then Some(-magnitude.value) else magnitude
  }

  /** The text `[-]whole[.fraction]`, the shape amounts take in the export. */
  function DecimalText(negative: bool, whole: string, fraction: string): string {
    (if negative then "-" else "") + whole + (if |fraction| == 0 then "" else "." + fraction)
  }

  function DecimalValue(negative: bool, whole: string, fraction: string): real
    requires AllDigits(whole) && AllDigits(fraction)
  {
    var m := Mantissa(whole, fraction);
    if negative then -m else m
  }

  /** The unsigned part `whole[.fraction]` of a plain numeral is read exactly. */
  lemma ParseUnsignedDecimal(u: string, whole: string, fraction: string)
    requires AllDigits(whole) && |whole| > 0 && AllDigits(fraction)
    requires u == whole + (if |fraction| == 0 then "" else "." + fraction)
    ensures ParseUnsigned(u) == Some(Mantissa(whole, fraction))
  {
    if |fraction| == 0 {
      assert fraction == "" && u == whole + "";
      ParseUnsignedWhole(u, whole);
    } else {
      ParseUnsignedFraction(u, whole, fraction);
    }
  }

  lemma ParseUnsignedWhole(u: string, whole: string)
    requires AllDigits(whole) && |whole| > 0 && u == whole + ""
    ensures ParseUnsigned(u) == Some(Mantissa(whole, ""))
  {
    SpanOfPrefix(whole, "", IsDigit);
    assert u[..|whole|] == whole && u[|whole|..] == "";
    assert ExponentOf("") == 0;
    ScaleZero(Mantissa(whole, ""));
  }

  lemma ParseUnsignedFraction(u: string, whole: string, fraction: string)
    requires AllDigits(whole) && |whole| > 0 && AllDigits(fraction) && |fraction| > 0
    requires u == whole + ("." + fraction)
    ensures ParseUnsigned(u) == Some(Mantissa(whole, fraction))
  {
    var tail := "." + fraction;
    SpanOfPrefix(whole, tail, IsDigit);
    assert u[..|whole|] == whole && u[|whole|..] == tail;
    assert tail[1..] == fraction + "";
    SpanOfPrefix(fraction, "", IsDigit);
    assert fraction[..|fraction|] == fraction && fraction[|fraction|..] == "";
    assert ExponentOf("") == 0;
    ScaleZero(Mantissa(whole, fraction));
  }

  lemma ScaleZero(m: real)
    ensures Scale(m, 0) == m
  {
  }

  lemma TrimStartAtNonSpace(s: string)
    requires |s| > 0 && !IsJsSpace(s[0])
    ensures TrimStart(s) == s
  {
    assert Span(s, IsJsSpace) == 0;
  }

  /** `parseFloat` reads a plain decimal numeral as its exact value. */
  lemma ParseDecimalText(t: string, negative: bool, whole: string, fraction: string)
    requires AllDigits(whole) && |whole| > 0 && AllDigits(fraction)
    requires t == DecimalText(negative, whole, fraction)
    ensures ParseFloat(t) == Some(DecimalValue(negative, whole, fraction))
  {
    var u := whole + (if |fraction| == 0 then "" else "." + fraction);
    DecimalTextShape(t, negative, whole, fraction);
    ParseUnsignedDecimal(u, whole, fraction);
    var m := Mantissa(whole, fraction);
    SignedParse(t, u, m, negative);
    DecimalValueSign(negative, whole, fraction, m);
  }

  /** `parseFloat` of a numeral without leading space is its unsigned part's
      value, negated under a `-`. */
  lemma SignedParse(t: string, u: string, m: real, negative: bool)
    requires |t| > 0 && TrimStart(t) == t && Unsigned(t) == u
    requires (t[0] == '-' <==> negative) && ParseUnsigned(u) == Some(m)
    ensures ParseFloat(t) == Some(if negative then -m else m)
  {
  }

  lemma DecimalValueSign(negative: bool, whole: string, fraction: string, m: real)
    requires AllDigits(whole) && AllDigits(fraction) && m == Mantissa(whole, fraction)
    ensures DecimalValue(negative, whole, fraction) == if negative then -m else m
  {
  }

  /** A plain numeral has no leading space, and its sign is `-` exactly when
      it is negative. */
  lemma DecimalTextShape(t: string, negative: bool, whole: string, fraction: string)
    requires AllDigits(whole) && |whole| > 0
    requires t == DecimalText(negative, whole, fraction)
    ensures |t| > 0 && TrimStart(t) == t && (t[0] == '-' <==> negative)
    ensures Unsigned(t) == whole + (if |fraction| == 0 then "" else "." + fraction)
  {
    var u := whole + (if |fraction| == 0 then "" else "." + fraction);
    assert t == (if negative then "-" else "") + u;
    assert t[0] == if negative then '-' else whole[0];
    TrimStartAtNonSpace(t);
    if negative {
      assert t[1..] == u;
    }
  }

  /** Decimal rendering of a natural number without leading zeros, as the
      template literal `${n}` renders a non-negative integer. */
  function NatToString(n: nat): (s: string)
    ensures 1 <= |s| && AllDigits(s)
    ensures |s| == 1 || s[0] != '0'
    ensures DigitsValue(s) == n
  {
    if n < 10 then
      [DigitChar(n)]
    else
      var s := NatToString(n / 10) + [DigitChar(n % 10)];
      assert s[..|s| - 1] == NatToString(n / 10);
      s
  }

  function Zeros(k: nat): (z: string)
    ensures |z| == k && AllDigits(z)
    ensures forall i :: 0 <= i < k ==> z[i] == '0'
  {
    seq(k, _ => '0')
  }

  lemma {:induction false} ZerosValue(k: nat)
    ensures DigitsValue(Zeros(k)) == 0
  {
    if k > 0 {
      assert Zeros(k)[..k - 1] == Zeros(k - 1);
      ZerosValue(k - 1);
    }
  }

  /** `s` with `'0'`s prepended up to length `width`. */
  function PadZeros(s: string, width: nat): (r: string)
    ensures |r| == if |s| >= width then |s| else width
  {
    if |s| >= width then s else Zeros(width - |s|) + s
  }

  /** Padding a number's rendering back to a digit string's length restores
      that string, leading zeros included. */
  lemma {:induction false} PadNatToString(s: string)
    requires AllDigits(s) && |s| >= 1
    ensures PadZeros(NatToString(DigitsValue(s)), |s|) == s
  {
    if |s| == 1 {
      var c := s[0];
      assert s == [c] && s[..0] == [];
      assert DigitsValue(s) == DigitValue(c);
    } else if DigitsValue(s) < 10 {
      PadOneDigitValue(s);
    } else {
      PadNatToString(s[..|s| - 1]);
      PadLastDigit(s);
    }
  }

  /** A longer digit string whose value is one digit is zeros then that digit. */
  lemma PadOneDigitValue(s: string)
    requires AllDigits(s) && |s| > 1 && DigitsValue(s) < 10
    ensures PadZeros(NatToString(DigitsValue(s)), |s|) == s
  {
    var p, c := s[..|s| - 1], s[|s| - 1];
    var q, d := DigitsValue(p), DigitValue(c);
    assert DigitsValue(s) == q * 10 + d;
    assert q == 0;
    ZerosDigits(p);
    assert DigitChar(d) == c;
    var y := NatToString(d);
    assert y == [c];
    assert PadZeros(y, |s|) == Zeros(|p|) + y;
    SnocLast(s);
  }

  /** The rendering of a number of two digits or more is the rendering of
      all but its last digit, then that digit. */
  lemma NatToStringLast(v: nat)
    requires v >= 10
    ensures NatToString(v) == NatToString(v / 10) + [DigitChar(v % 10)]
  {
  }

  lemma DivModTen(q: nat, d: nat)
    requires d < 10
    ensures (q * 10 + d) / 10 == q && (q * 10 + d) % 10 == d
  {
  }

  /** For a digit string of value ten or more, the rendering of its value is
      the rendering of the value of all but its last digit, then that digit. */
  lemma NatToStringSnoc(s: string)
    requires AllDigits(s) && |s| > 1 && DigitsValue(s) >= 10
    ensures NatToString(DigitsValue(s)) == NatToString(DigitsValue(s[..|s| - 1])) + [s[|s| - 1]]
  {
    var c := s[|s| - 1];
    var v, q, d := DigitsValue(s), DigitsValue(s[..|s| - 1]), DigitValue(c);
    assert v == q * 10 + d;
    DivModTen(q, d);
    assert v / 10 == q && v % 10 == d;
    NatToStringLast(v);
    assert NatToString(v / 10) == NatToString(q);
    assert DigitChar(v % 10) == c;
  }

  /** Padding commutes with appending a character. */
  lemma PadSnoc(x: string, p: string, c: char)
    requires PadZeros(x, |p|) == p
    ensures PadZeros(x + [c], |p| + 1) == p + [c]
  {
    if |x| < |p| {
      var z := Zeros(|p| - |x|);
      assert p == z + x;
      assert PadZeros(x + [c], |p| + 1) == z + (x + [c]);
    }
  }

  /** The rendering of a value of two digits or more ends in its last digit,
      after the rendering of the rest. */
  lemma PadLastDigit(s: string)
    requires AllDigits(s) && |s| > 1 && DigitsValue(s) >= 10
    requires PadZeros(NatToString(DigitsValue(s[..|s| - 1])), |s| - 1) == s[..|s| - 1]
    ensures PadZeros(NatToString(DigitsValue(s)), |s|) == s
  {
    var p, c := s[..|s| - 1], s[|s| - 1];
    var x := NatToString(DigitsValue(p));
    NatToStringSnoc(s);
    PadSnoc(x, p, c);
    SnocLast(s);
  }

  lemma SnocLast<T>(s: seq<T>)
    requires |s| > 0
    ensures s[..|s| - 1] + [s[|s| - 1]] == s
  {
  }

  /** A digit string of value zero is all zeros. */
  lemma {:induction false} ZerosDigits(s: string)
    requires AllDigits(s) && DigitsValue(s) == 0
    ensures s == Zeros(|s|)
  {
    if |s| > 0 {
      ZerosDigits(s[..|s| - 1]);
      assert s == s[..|s| - 1] + [s[|s| - 1]];
    }
  }

  /** A canonical digit string (no leading zero unless it is `"0"`) is the
      rendering of its own value: `NatToString` is onto the canonical numerals. */
  lemma NatToStringOfCanonical(s: string)
    requires AllDigits(s) && |s| >= 1 && (|s| == 1 || s[0] != '0')
    ensures NatToString(DigitsValue(s)) == s
  {
    PadNatToString(s);
  }

  /** Round to the nearest hundredth, ties upward, counted in hundredths. */
  function Cents(x: real): (n: nat)
    requires x >= 0.0
    ensures n as real - 0.5 <= x * 100.0 < n as real + 0.5
  {
    (x * 100.0 + 0.5).Floor
  }

  /** JavaScript's `x.toFixed(2)` for a non-negative `x` below 10^21: the
      nearest multiple of 0.01 (the larger on a tie), with at least one digit
      before the point and exactly two after it. */
  function Fixed2(x: real): (r: string)
    requires x >= 0.0
    ensures |r| >= 4 && r[|r| - 3] == '.'
    ensures AllDigits(r[..|r| - 3]) && AllDigits(r[|r| - 2..])
  {
    var digits := PadZeros(NatToString(Cents(x)), 3);
    digits[..|digits| - 2] + "." + digits[|digits| - 2..]
  }

  /** The three digits or more that `Fixed2` splits around the point. */
  lemma CentsDigits(n: nat)
    ensures AllDigits(PadZeros(NatToString(n), 3))
    ensures DigitsValue(PadZeros(NatToString(n), 3)) == n
  {
    var x := NatToString(n);
    if |x| < 3 {
      DigitsValueAppend(Zeros(3 - |x|), x);
      ZerosValue(3 - |x|);
    }
  }

  /** A digit string read as hundredths. */
  lemma Hundredths(whole: string, fraction: string)
    requires AllDigits(whole) && AllDigits(fraction) && |fraction| == 2
    ensures AllDigits(whole + fraction)
    ensures Mantissa(whole, fraction) == DigitsValue(whole + fraction) as real / 100.0
  {
    DigitsValueAppend(whole, fraction);
    assert Pow10(2) == 100;
  }

  /** `Fixed2` writes the cents digits with a point before the last two. */
  lemma Fixed2Text(x: real) returns (whole: string, fraction: string)
    requires x >= 0.0
    ensures AllDigits(whole) && |whole| > 0 && AllDigits(fraction) && |fraction| == 2
    ensures Fixed2(x) == DecimalText(false, whole, fraction)
    ensures DigitsValue(whole + fraction) == Cents(x)
  {
    var digits := PadZeros(NatToString(Cents(x)), 3);
    CentsDigits(Cents(x));
    whole, fraction := digits[..|digits| - 2], digits[|digits| - 2..];
    assert digits == whole + fraction;
  }

  /** Reading back what `toFixed(2)` wrote gives `x` rounded to the nearest
      hundredth: the rendering loses at most half a cent. */
  lemma Fixed2ReadsBack(x: real)
    requires x >= 0.0
    ensures ParseFloat(Fixed2(x)) == Some(Cents(x) as real / 100.0)
    ensures -0.005 < Cents(x) as real / 100.0 - x <= 0.005
  {
    var whole, fraction := Fixed2Text(x);
    var n := Cents(x);
    ParseDecimalText(Fixed2(x), false, whole, fraction);
    Hundredths(whole, fraction);
    assert DecimalValue(false, whole, fraction) == Mantissa(whole, fraction) == n as real / 100.0;
    CentsClose(x);
  }

  /** Rounding to the nearest hundredth moves by at most half a cent. */
  lemma CentsClose(x: real)
    requires x >= 0.0
    ensures -0.005 < Cents(x) as real / 100.0 - x <= 0.005
  {
    var n := Cents(x) as real;
    assert n - 0.5 <= x * 100.0 < n + 0.5;
  }

  /** `toFixed(2)` reproduces a canonical two-decimal numeral exactly, with its
      sign dropped when applied to the magnitude: `"-500.00"` comes back as
      `"500.00"`. */
  lemma Fixed2OfDecimal(negative: bool, whole: string, fraction: string)
    requires AllDigits(whole) && |whole| >= 1 && (|whole| == 1 || whole[0] != '0')
    requires AllDigits(fraction) && |fraction| == 2
    ensures var v := DecimalValue(negative, whole, fraction);
            Fixed2(Abs(v)) == whole + "." + fraction
  {
    var v := DecimalValue(negative, whole, fraction);
    var m := Abs(v);
    MagnitudeCents(negative, whole, fraction);
    Fixed2OfDigits(m, whole, fraction);
  }

  /** The magnitude of `[-]whole.ff` is `whole ff` hundredths. */
  lemma MagnitudeCents(negative: bool, whole: string, fraction: string)
    requires AllDigits(whole) && AllDigits(fraction) && |fraction| == 2
    ensures var v := DecimalValue(negative, whole, fraction);
            Cents(Abs(v)) == DigitsValue(whole + fraction)
  {
    DigitsValueAppend(whole, fraction);
    assert Pow10(2) == 100;
    var n := DigitsValue(whole + fraction);
    var v := DecimalValue(negative, whole, fraction);
    var m := Abs(v);
    assert m == n as real / 100.0;
  }

  /** A value of `whole ff` hundredths is written back as `whole.ff`. */
  lemma Fixed2OfDigits(m: real, whole: string, fraction: string)
    requires AllDigits(whole) && |whole| >= 1 && (|whole| == 1 || whole[0] != '0')
    requires AllDigits(fraction) && |fraction| == 2
    requires m >= 0.0 && Cents(m) == DigitsValue(whole + fraction)
    ensures Fixed2(m) == whole + "." + fraction
  {
    var s := whole + fraction;
    PadNatToString(s);
    var x := NatToString(DigitsValue(s));
    assert PadZeros(x, 3) == s by {
      if |x| < |s| {
        // then s has a leading zero, so it is "0dd" and |s| == 3
        assert s[0] == (Zeros(|s| - |x|) + x)[0] == '0';
        assert |whole| == 1;
      }
    }
    assert s[..|s| - 2] == whole && s[|s| - 2..] == fraction;
  }
}
