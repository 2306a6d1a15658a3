/** Python's `float(str)`, `int(str)` and `str()` of numbers, for the decimal
    amounts the backend reads from bank statements.

    A float is modelled as the exact decimal it was parsed from: a sign, a
    magnitude and a number of fractional digits, kept normalised (no trailing
    fractional zero). Binary rounding is not modelled. */
module PyNum {
  import opened Wrappers
  import opened PyStr

  datatype Decimal = Decimal(negative: bool, mantissa: nat, scale: nat)

  /** No trailing zero after the decimal point: the shape `float()` yields,
      since `float("2.50") == float("2.5")`. */
  predicate Normal(d: Decimal) {
    d.scale == 0 || d.mantissa % 10 != 0
  }

  function Pow10(k: nat): (r: nat)
    ensures r >= 1
  {
    if k == 0 then 1 else 10 * Pow10(k - 1)
  }

  /** The real number a decimal denotes (`-0.0` denotes 0). */
  function RealOf(d: Decimal): real {
    (if d.negative then -1.0 else 1.0) * (d.mantissa as real) / (Pow10(d.scale) as real)
  }

  /** Drops trailing fractional zeros; the denoted number is unchanged. */
  function Normalize(d: Decimal): (r: Decimal)
    ensures Normal(r) && r.negative == d.negative && r.scale <= d.scale
    ensures r.mantissa * Pow10(d.scale - r.scale) == d.mantissa
    decreases d.scale
  {
    if d.scale > 0 && d.mantissa % 10 == 0 then
      var n := Normalize(Decimal(d.negative, d.mantissa / 10, d.scale - 1));
      assert Pow10(d.scale - n.scale) == 10 * Pow10(d.scale - 1 - n.scale);
      n
    else d
  }

  lemma {:induction false} NormalizeNormal(d: Decimal)
    requires Normal(d)
    ensures Normalize(d) == d
  {
  }

  /** The sign and the unsigned rest of a numeric literal. */
  function SplitSign(t: string): (bool, string) {
    if |t| > 0 && (t[0] == '-' || t[0] == '+') then (t[0] == '-', t[1..]) else (false, t)
  }

  /** `float(s)` for decimal literals: surrounding white space, an optional
      sign, digits with at most one '.', and at least one digit. `None` is the
      `ValueError` Python raises for anything else. */
  function ParseFloat(s: string): (r: Option<Decimal>)
    ensures r.Some? ==> Normal(r.value)
  {
    var (neg, body) := SplitSign(Strip(s));
    var k := Find(body, '.');
    var ip := if k < 0 then body else body[..k];
    var fp := if k < 0 then [] else body[k + 1..];
    if AllDigits(ip) && AllDigits(fp) && |ip| + |fp| > 0 then
      Some(Normalize(Decimal(neg, DigitsValue(ip + fp), |fp|)))
    else None
  }

  /** `str(x)` / `repr(x)` of a float: the digits before the point, a point,
      and the fractional digits, with ".0" for a whole number. */
  function FloatText(d: Decimal): (r: string)
    ensures '.' in r
  {
    var t := ZeroPad(d.mantissa, d.scale + 1);
    (if d.negative then "-" else "")
    + t[..|t| - d.scale] + "."
    + (if d.scale == 0 then "0" else t[|t| - d.scale..])
  }

  /** `str(i)` of an int. */
  function IntText(i: int): (r: string)
    ensures |r| >= 1
  {
    if i < 0 then "-" + NatToString(-i) else NatToString(i)
  }

  /** `int(s)`: surrounding white space, an optional sign and at least one
      digit. `None` is Python's `ValueError`. */
  function ParseInt(s: string): (r: Option<int>)
  {
    var (neg, body) := SplitSign(Strip(s));
    if |body| > 0 && AllDigits(body) then
      Some(if neg then -(DigitsValue(body) as int) else DigitsValue(body))
    else None
  }

  // ---------------------------------------------------------------------
  // Digit strings

  lemma {:induction false} AllDigitsAppend(a: string, b: string)
    requires AllDigits(a) && AllDigits(b)
    ensures AllDigits(a + b)
  {
    forall k | 0 <= k < |a + b| ensures IsDigit((a + b)[k]) {
      if k < |a| { assert (a + b)[k] == a[k]; } else { assert (a + b)[k] == b[k - |a|]; }
    }
  }

  /** Digit strings run together are a digit string, no shorter than the
      first. */
  lemma {:induction false} ConcatDigits(parts: seq<string>)
    requires forall k :: 0 <= k < |parts| ==> AllDigits(parts[k])
    ensures AllDigits(Concat(parts))
    ensures |parts| > 0 ==> |Concat(parts)| >= |parts[0]| && Concat(parts)[..|parts[0]|] == parts[0]
    decreases |parts|
  {
    if parts != [] {
      ConcatDigits(parts[1..]);
      AllDigitsAppend(parts[0], Concat(parts[1..]));
    }
  }

  lemma {:induction false} DigitsValueAppend(a: string, b: string)
    requires AllDigits(a) && AllDigits(b)
    ensures AllDigits(a + b)
    ensures DigitsValue(a + b) == DigitsValue(a) * Pow10(|b|) + DigitsValue(b)
  {
    AllDigitsAppend(a, b);
    if b != [] {
      var b' := b[..|b| - 1];
      var c := b[|b| - 1];
      assert (a + b)[..|a + b| - 1] == a + b';
      assert (a + b)[|a + b| - 1] == c;
      DigitsValueAppend(a, b');
      assert DigitsValue(a + b) == 10 * DigitsValue(a + b') + DigitValue(c);
      assert DigitsValue(b) == 10 * DigitsValue(b') + DigitValue(c);
      assert Pow10(|b|) == 10 * Pow10(|b'|);
      ShiftDigit(DigitsValue(a), Pow10(|b'|), DigitsValue(b'), DigitValue(c));
    } else {
      assert a + b == a;
    }
  }

  /** Appending a digit to both sides of `x * p + y`. */
  lemma {:induction false} ShiftDigit(x: int, p: int, y: int, d: int)
    ensures 10 * (x * p + y) + d == x * (10 * p) + (10 * y + d)
  {
  }

  lemma {:induction false} LeadingZeros(k: nat, t: string)
    requires AllDigits(t)
    ensures AllDigits(seq(k, _ => '0') + t)
    ensures DigitsValue(seq(k, _ => '0') + t) == DigitsValue(t)
  {
    var z: string := seq(k, _ => '0');
    assert AllDigits(z);
    ZerosValue(k);
    DigitsValueAppend(z, t);
  }

  lemma {:induction false} ZerosValue(k: nat)
    ensures AllDigits(seq(k, _ => '0'))
    ensures DigitsValue(seq(k, _ => '0')) == 0
  {
    var z: string := seq(k, _ => '0');
    if k > 0 {
      assert z[..k - 1] == seq(k - 1, _ => '0');
      ZerosValue(k - 1);
    }
  }

  lemma {:induction false} NatToStringShort(n: nat, k: nat)
    requires 1 <= k && n < Pow10(k)
    ensures |NatToString(n)| <= k
  {
    if n >= 10 {
      NatToStringShort(n / 10, k - 1);
    }
  }

  /** `ZeroPad` renders `n` in exactly `width` digits when `n` fits. */
  lemma {:induction false} ZeroPadExact(n: nat, width: nat)
    requires 1 <= width && n < Pow10(width)
    ensures |ZeroPad(n, width)| == width
    ensures DigitsValue(ZeroPad(n, width)) == n
  {
    NatToStringShort(n, width);
    NatToStringRoundTrip(n);
    var t := NatToString(n);
    if |t| < width {
      LeadingZeros(width - |t|, t);
    }
  }

  lemma {:induction false} NatToStringFirst(n: nat)
    ensures IsDigit(NatToString(n)[0])
  {
  }

  // ---------------------------------------------------------------------
  // Round trips

  lemma {:induction false} NoDot(t: string)
    requires AllDigits(t)
    ensures '.' !in t
  {
    forall k | 0 <= k < |t| ensures t[k] != '.' { assert IsDigit(t[k]); }
  }

  lemma {:induction false} StripLiteral(neg: bool, body: string)
    requires |body| > 0 && IsDigit(body[0]) && IsDigit(body[|body| - 1])
    ensures Strip((if neg then "-" else "") + body) == (if neg then "-" else "") + body
  {
    var text := (if neg then "-" else "") + body;
    assert text[|text| - 1] == body[|body| - 1];
    StripNoSpaceAtEnds(text);
  }

  lemma {:induction false} FindPoint(ip: string, fp: string)
    requires AllDigits(ip)
    ensures Find(ip + "." + fp, '.') == |ip|
  {
    var body := ip + "." + fp;
    assert body[|ip|] == '.';
    assert forall j :: 0 <= j < |ip| ==> body[j] == ip[j] && IsDigit(ip[j]);
    FindFirst(body, '.', |ip|);
  }

  /** How `ParseFloat` reads a literal once its pieces are known. */
  lemma {:induction false} ParseFloatPieces(neg: bool, ip: string, fp: string, text: string, body: string)
    requires AllDigits(ip) && AllDigits(fp) && AllDigits(ip + fp) && |ip| > 0 && body == ip + "." + fp
    requires Strip(text) == text && SplitSign(text) == (neg, body)
    requires Find(body, '.') == |ip|
    ensures ParseFloat(text) == Some(Normalize(Decimal(neg, DigitsValue(ip + fp), |fp|)))
  {
    PointPieces(ip, fp);
  }

  lemma {:induction false} SplitSignOf(neg: bool, body: string)
    requires |body| > 0 && IsDigit(body[0])
    ensures SplitSign((if neg then "-" else "") + body) == (neg, body)
  {
    if neg {
      assert ("-" + body)[1..] == body;
    } else {
      assert "" + body == body;
    }
  }

  lemma {:induction false} PointPieces(ip: string, fp: string)
    ensures (ip + "." + fp)[..|ip|] == ip && (ip + "." + fp)[|ip| + 1..] == fp
  {
  }

  /** A signed literal `ip.fp` of digits has no white space to strip. */
  lemma {:induction false} StripDecimalLiteral(neg: bool, ip: string, fp: string)
    requires AllDigits(ip) && AllDigits(fp) && |ip| > 0 && |fp| > 0
    ensures Strip((if neg then "-" else "") + ip + "." + fp) == (if neg then "-" else "") + ip + "." + fp
  {
    var body := ip + "." + fp;
    assert body[0] == ip[0] && body[|body| - 1] == fp[|fp| - 1];
    StripLiteral(neg, body);
    assert (if neg then "-" else "") + ip + "." + fp == (if neg then "-" else "") + body;
  }

  /** A signed literal `ip.fp` of digits parses to its digits' value. */
  lemma {:induction false} ParseFloatLiteral(neg: bool, ip: string, fp: string)
    requires AllDigits(ip) && AllDigits(fp) && |ip| > 0 && |fp| > 0
    ensures ParseFloat((if neg then "-" else "") + ip + "." + fp)
         == Some(Normalize(Decimal(neg, DigitsValue(ip + fp), |fp|)))
  {
    var body := ip + "." + fp;
    var text := (if neg then "-" else "") + body;
    assert (if neg then "-" else "") + ip + "." + fp == text;
    assert body[0] == ip[0] && body[|body| - 1] == fp[|fp| - 1];
    StripLiteral(neg, body);
    SplitSignOf(neg, body);
    FindPoint(ip, fp);
    AllDigitsAppend(ip, fp);
    ParseFloatPieces(neg, ip, fp, text, body);
  }

  lemma {:induction false} ZeroPadValue(n: nat, width: nat)
    ensures DigitsValue(ZeroPad(n, width)) == n
  {
    NatToStringRoundTrip(n);
    var t := NatToString(n);
    if |t| < width {
      LeadingZeros(width - |t|, t);
    }
  }

  lemma {:induction false} NormalizeTen(neg: bool, m: nat)
    ensures Normalize(Decimal(neg, m * 10, 1)) == Decimal(neg, m, 0)
  {
    assert (m * 10) % 10 == 0 && (m * 10) / 10 == m;
  }

  lemma {:induction false} FloatTextWhole(d: Decimal)
    requires d.scale == 0
    ensures ParseFloat(FloatText(d)) == Some(d)
  {
    var t := ZeroPad(d.mantissa, 1);
    var fp := "0";
    assert t[..|t|] == t;
    assert FloatText(d) == (if d.negative then "-" else "") + t + "." + fp;
    ZeroPadValue(d.mantissa, 1);
    assert AllDigits(fp) && DigitsValue(fp) == 0;
    ParseFloatLiteral(d.negative, t, fp);
    DigitsValueAppend(t, fp);
    assert Pow10(|fp|) == 10;
    NormalizeTen(d.negative, d.mantissa);
  }

  lemma {:induction false} SplitDigits(t: string, k: nat)
    requires AllDigits(t) && k <= |t|
    ensures AllDigits(t[..k]) && AllDigits(t[k..]) && t[..k] + t[k..] == t
  {
    assert forall j :: 0 <= j < k ==> t[..k][j] == t[j];
    assert forall j :: 0 <= j < |t| - k ==> t[k..][j] == t[k + j];
  }

  lemma {:induction false} FloatTextFraction(d: Decimal)
    requires Normal(d) && d.scale > 0
    ensures ParseFloat(FloatText(d)) == Some(d)
  {
    var t := ZeroPad(d.mantissa, d.scale + 1);
    var ip, fp := t[..|t| - d.scale], t[|t| - d.scale..];
    assert FloatText(d) == (if d.negative then "-" else "") + ip + "." + fp;
    SplitDigits(t, |t| - d.scale);
    ZeroPadValue(d.mantissa, d.scale + 1);
    ParseFloatLiteral(d.negative, ip, fp);
    NormalizeNormal(d);
  }

  /** Reading back `str(x)` of a float gives `x`. */
  lemma {:induction false} FloatTextRoundTrip(d: Decimal)
    requires Normal(d)
    ensures ParseFloat(FloatText(d)) == Some(d)
  {
    if d.scale == 0 { FloatTextWhole(d); } else { FloatTextFraction(d); }
  }

  lemma {:induction false} ParseIntPieces(neg: bool, body: string, text: string)
    requires |body| > 0 && AllDigits(body)
    requires Strip(text) == text && SplitSign(text) == (neg, body)
    ensures ParseInt(text) == Some(if neg then -(DigitsValue(body) as int) else DigitsValue(body))
  {
  }

  /** Reading back `str(i)` of an int gives `i`. */
  lemma {:induction false} IntTextRoundTrip(i: int)
    ensures ParseInt(IntText(i)) == Some(i)
  {
    var n: nat := if i < 0 then -i else i;
    var t := NatToString(n);
    NatToStringRoundTrip(n);
    NatToStringFirst(n);
    assert IntText(i) == (if i < 0 then "-" else "") + t;
    StripLiteral(i < 0, t);
    SplitSignOf(i < 0, t);
    ParseIntPieces(i < 0, t, IntText(i));
  }
}
