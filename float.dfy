/**
 * The `f64` a sample carries. Values are kept as exact decimals: what
 * `str::parse::<f64>` reads, what `f64`'s `Display` writes back, and the two
 * ways the converters consume a value (the saturating `as u64` cast and
 * floating-point arithmetic, read here as arithmetic on reals).
 */
module Float {
  import opened Wrappers
  import opened Text

  /** A finite value `mantissa / 10^scale`, one of the two infinities, or NaN. */
  datatype F64 = Decimal(mantissa: int, scale: nat) | Infinity(negative: bool) | NaN

  /** The canonical form the parser produces: no trailing zero in the fraction. */
  predicate IsNormal(v: F64)
  {
    v.Decimal? ==> v.scale == 0 || v.mantissa % 10 != 0
  }

  function Abs(m: int): nat
  {
    if m < 0 then -m else m
  }

  /** `mantissa / 10^scale` with its trailing fraction zeros dropped. */
  function Normalize(m: int, k: nat): (r: F64)
    ensures r.Decimal? && IsNormal(r) && r.scale <= k
    ensures r.mantissa * Pow10(k - r.scale) == m
    decreases k
  {
    if k > 0 && m % 10 == 0 then
      var r := Normalize(m / 10, k - 1);
      var p := Pow10(k - 1 - r.scale);
      assert Pow10(k - r.scale) == 10 * p;
      assert r.mantissa * Pow10(k - r.scale) == 10 * (r.mantissa * p);
      r
    else Decimal(m, k)
  }

  /**
   * The unsigned part of a float literal (`12`, `12.5`, `.5`, `1.`, `1e3`,
   * `2.5E-1`) as its digits read as one number and the power of ten they are
   * scaled by, or None when the text is not one.
   */
  function ParseDecimal(s: string): Option<(nat, int)>
  {
    var i := DigitRun(s);
    var (frac, afterFrac) := SplitFraction(s[i..]);
    if i + |frac| == 0 then None
    else match ParseExponent(afterFrac)
      case None => None
      case Some(e) =>
        AllDigitsAppend(s[..i], frac);
        Some((DigitsValue(s[..i] + frac), e - |frac|))
  }

  /** `m * 10^shift` in canonical form. */
  function Scaled(m: int, shift: int): (r: F64)
    ensures IsNormal(r)
  {
    if shift >= 0 then Decimal(m * Pow10(shift), 0) else Normalize(m, -shift)
  }

  /** The words `str::parse::<f64>` accepts for the values that are not finite, already lower-cased. */
  function SpecialValue(lower: string, neg: bool): (r: Option<F64>)
    ensures r.Some? ==> !r.value.Decimal?
  {
    if lower == "inf" || lower == "infinity" then Some(Infinity(neg))
    else if lower == "nan" then Some(NaN)
    else None
  }

  /**
   * `str::parse::<f64>`: an optional sign, then a decimal literal or one of
   * `inf`, `infinity`, `nan` in any case.
   */
  function ParseF64(s: string): (r: Option<F64>)
    ensures r.Some? ==> IsNormal(r.value)
  {
    var neg := s != [] && s[0] == '-';
    var body := if s != [] && (s[0] == '-' || s[0] == '+') then s[1..] else s;
    match SpecialValue(ToAsciiLower(body), neg)
    case Some(v) => Some(v)
    case None => Signed(neg, ParseDecimal(body))
  }

  /** A parsed unsigned literal with its sign applied. */
  function Signed(neg: bool, d: Option<(nat, int)>): (r: Option<F64>)
    ensures r.Some? ==> IsNormal(r.value)
  {
    match d
    case None => None
    case Some((m, shift)) => Some(Scaled(if neg then -(m as int) else m as int, shift))
  }

  /** `a / 10^k`, one digit at a time. */
  function DivPow10(a: nat, k: nat): nat
  {
    if k == 0 then a else DivPow10(a / 10, k - 1)
  }

  /** The last `width` digits of `n`, zero-padded on the left. */
  function PadDigits(n: nat, width: nat): (r: string)
    ensures |r| == width && AllDigits(r)
  {
    if width == 0 then [] else PadDigits(n / 10, width - 1) + [('0' as int + n % 10) as char]
  }

  /** The sign of a finite value as `Display` writes it. */
  function SignText(m: int): string
  {
    if m < 0 then "-" else ""
  }

  /**
   * `f64`'s `Display`: never an exponent, the fraction only when there is
   * one, and `inf`, `-inf`, `NaN` for the values that are not finite.
   */
  function F64Text(v: F64): (r: string)
    ensures r != [] && HasNoWhitespace(r)
  {
    match v
    case NaN => "NaN"
    case Infinity(neg) => if neg then "-inf" else "inf"
    case Decimal(m, k) =>
      var r := SignText(m) + DigitsText(Abs(m), k);
      assert forall i | 0 <= i < |r| :: IsNumberChar(r[i]);
      r
  }

  predicate IsNumberChar(c: char)
  {
    IsDigit(c) || c == '.' || c == '-'
  }

  /** The digits of `a / 10^k`, with the point and `k` fraction digits when `k > 0`. */
  function DigitsText(a: nat, k: nat): (r: string)
    ensures r != [] && IsDigit(r[0])
    ensures forall i :: 0 <= i < |r| ==> IsNumberChar(r[i])
  {
    if k == 0 then NatToString(a) else NatToString(DivPow10(a, k)) + "." + PadDigits(a, k)
  }

  /** The saturating `as u64` cast: NaN and negatives give 0, fractions truncate, large values clamp. */
  function AsU64(v: F64): (r: nat)
    ensures r <= U64Max
  {
    match v
    case NaN => 0
    case Infinity(neg) => if neg then 0 else U64Max
    case Decimal(m, k) => if m <= 0 then 0 else Min(DivPow10(m, k), U64Max)
  }

  /** A finite value as a real number; the infinities and NaN are read as 0. */
  function ToReal(v: F64): real
  {
    if v.Decimal? then Shifted(v.mantissa, v.scale) else 0.0
  }

  /** `m` with the decimal point moved `k` places to the left, one tenth at a time. */
  function Shifted(m: int, k: nat): real
  {
    if k == 0 then m as real else Shifted(m, k - 1) / 10.0
  }

  /** Moving the point `k` places divides by ten to the `k`. */
  lemma {:induction false} ShiftedQuotient(m: int, k: nat)
    ensures Shifted(m, k) == m as real / Pow10(k) as real
  {
    if k > 0 {
      ShiftedQuotient(m, k - 1);
      var p := Pow10(k - 1);
      assert Pow10(k) as real == p as real * 10.0;
      TenthOfQuotient(m as real, p as real);
    }
  }

  lemma TenthOfQuotient(a: real, b: real)
    requires b > 0.0
    ensures (a / b) / 10.0 == a / (b * 10.0)
  {
  }

  /** A whole number as the parser reads it from its decimal rendering. */
  function Whole(n: nat): (r: F64)
    ensures IsNormal(r) && AsU64(r) == Min(n, U64Max) && ToReal(r) == n as real
  {
    Decimal(n, 0)
  }

  /** A value the cast leaves unchanged: a whole number within the `u64` range. */
  predicate IsWholeCount(v: F64)
  {
    v.Decimal? && v.scale == 0 && 0 <= v.mantissa <= U64Max
  }

  lemma WholeCountCast(v: F64)
    requires IsWholeCount(v)
    ensures ToReal(v) == AsU64(v) as real
  {
    assert Pow10(0) == 1;
  }

  // ---------------------------------------------------------------------------
  // Round trip
  // ---------------------------------------------------------------------------

  lemma {:induction false} DigitsValueAppend(a: string, b: string)
    requires AllDigits(a) && AllDigits(b)
    ensures AllDigits(a + b)
    ensures DigitsValue(a + b) == DigitsValue(a) * Pow10(|b|) + DigitsValue(b)
    decreases |b|
  {
    var ab := a + b;
    assert AllDigits(ab);
    if b == [] {
      assert ab == a;
    } else {
      var b' := b[..|b| - 1];
      assert ab[..|ab| - 1] == a + b' && ab[|ab| - 1] == b[|b| - 1];
      DigitsValueAppend(a, b');
      var d := b[|b| - 1] as int - '0' as int;
      ShiftDigit(DigitsValue(a), DigitsValue(b'), Pow10(|b'|), d);
    }
  }

  lemma ShiftDigit(x: int, y: int, p: int, d: int)
    ensures (x * p + y) * 10 + d == x * (10 * p) + (y * 10 + d)
  {
  }

  /** The digit run of a digit string stops where the string ends or a non-digit begins. */
  lemma {:induction false} DigitRunOfAppend(s: string, rest: string)
    requires AllDigits(s)
    requires rest == [] || !IsDigit(rest[0])
    ensures DigitRun(s + rest) == |s|
    decreases |s|
  {
    if s != [] {
      assert (s + rest)[1..] == s[1..] + rest;
      DigitRunOfAppend(s[1..], rest);
    }
  }

  /** A digit string, a point and a digit string read as one number scaled down by the second's length. */
  lemma BodyParses(ip: string, fp: string)
    requires ip != [] && AllDigits(ip) && AllDigits(fp)
    ensures AllDigits(ip + fp)
    ensures ParseDecimal(ip + "." + fp) == Some((DigitsValue(ip + fp), 0 - |fp|))
  {
    var body := ip + "." + fp;
    var tail := "." + fp;
    assert body == ip + tail;
    DigitRunOfAppend(ip, tail);
    assert body[..|ip|] == ip && body[|ip|..] == tail;
    FractionOf(fp);
    AllDigitsAppend(ip, fp);
  }

  lemma FractionOf(fp: string)
    requires AllDigits(fp)
    ensures SplitFraction("." + fp) == (fp, [])
  {
    var tail := "." + fp;
    assert tail[1..] == fp;
    DigitRunOfAppend(fp, []);
    assert fp + [] == fp;
    assert fp[..|fp|] == fp && fp[|fp|..] == [];
  }

  /** The text `DigitsText` writes reads back as the same digits and scale. */
  lemma DigitsTextParses(a: nat, k: nat)
    ensures ParseDecimal(DigitsText(a, k)) == Some((a, 0 - k))
  {
    if k == 0 {
      WholeBodyParses(a);
    } else {
      var ip, fp := NatToString(DivPow10(a, k)), PadDigits(a, k);
      assert DigitsText(a, k) == ip + "." + fp;
      BodyParses(ip, fp);
      assert DigitsValue(ip + fp) == a by {
        DigitsValueAppend(ip, fp);
        SplitDigits(a, k);
      }
    }
  }

  /** The digits above and the `k` digits below the point make up the number again. */
  lemma {:induction false} SplitDigits(a: nat, k: nat)
    ensures DivPow10(a, k) * Pow10(k) + DigitsValue(PadDigits(a, k)) == a
  {
    if k > 0 {
      var q, low := a / 10, a % 10;
      SplitDigits(q, k - 1);
      var pad := PadDigits(a, k);
      assert pad[..|pad| - 1] == PadDigits(q, k - 1);
      assert DigitsValue(pad) == DigitsValue(PadDigits(q, k - 1)) * 10 + low;
      ShiftDigit(DivPow10(q, k - 1), DigitsValue(PadDigits(q, k - 1)), Pow10(k - 1), low);
    }
  }

  /** `DivPow10` is the quotient: the largest whole number whose multiple fits under `a`. */
  lemma {:induction false} DivPow10Bounds(a: nat, k: nat)
    ensures DivPow10(a, k) * Pow10(k) <= a < (DivPow10(a, k) + 1) * Pow10(k)
  {
    if k > 0 {
      var d := a / 10;
      DivPow10Bounds(d, k - 1);
      var q, p := DivPow10(d, k - 1), Pow10(k - 1);
      assert Pow10(k) == 10 * p;
      QuotientStep(a, d, q, p);
    }
  }

  lemma QuotientStep(a: nat, d: nat, q: nat, p: nat)
    requires d == a / 10
    requires q * p <= d < (q + 1) * p
    ensures q * (10 * p) <= a < (q + 1) * (10 * p)
  {
    assert q * (10 * p) == 10 * (q * p);
    assert (q + 1) * (10 * p) == 10 * ((q + 1) * p);
  }

  lemma WholeBodyParses(a: nat)
    ensures ParseDecimal(NatToString(a)) == Some((a, 0))
  {
    var s := NatToString(a);
    DigitRunOfAppend(s, []);
    assert s + [] == s;
    assert s[..|s|] == s && s[|s|..] == [];
  }

  /** What follows the sign of a finite value's text never reads as `inf` or `nan`. */
  lemma DigitsNotSpecial(body: string, neg: bool)
    requires body != [] && IsDigit(body[0])
    ensures SpecialValue(ToAsciiLower(body), neg) == None
  {
    var lower := ToAsciiLower(body);
    assert lower[0] == body[0];
    assert "inf"[0] == 'i' && "infinity"[0] == 'i' && "nan"[0] == 'n';
  }

  /** Writing a value and parsing the text back gives the value. */
  lemma ParseF64OfF64Text(v: F64)
    requires IsNormal(v)
    ensures ParseF64(F64Text(v)) == Some(v)
  {
    match v
    case NaN =>
      assert ToAsciiLower("NaN") == "nan";
    case Infinity(neg) =>
      InfinityRoundTrip(neg);
    case Decimal(m, k) =>
      DecimalRoundTrip(m, k);
  }

  lemma InfinityRoundTrip(neg: bool)
    ensures ParseF64(F64Text(Infinity(neg))) == Some(Infinity(neg))
  {
    var t := F64Text(Infinity(neg));
    var body := if neg then t[1..] else t;
    assert body == "inf";
    assert ToAsciiLower(body) == "inf";
  }

  lemma DecimalRoundTrip(m: int, k: nat)
    requires IsNormal(Decimal(m, k))
    ensures ParseF64(F64Text(Decimal(m, k))) == Some(Decimal(m, k))
  {
    var a := Abs(m);
    var sign, body := SignText(m), DigitsText(a, k);
    calc {
      ParseF64(F64Text(Decimal(m, k)));
      ParseF64(sign + body);
      { SignedParses(sign, body); }
      Signed(m < 0, ParseDecimal(body));
      { DigitsTextParses(a, k); }
      Signed(m < 0, Some((a, 0 - k)));
      { SignedValue(m, k); }
      Some(Decimal(m, k));
    }
  }

  /** Applying the sign of a canonical value to its magnitude and scale gives the value back. */
  lemma SignedValue(m: int, k: nat)
    requires IsNormal(Decimal(m, k))
    ensures Signed(m < 0, Some((Abs(m), 0 - k))) == Some(Decimal(m, k))
  {
    assert (if m < 0 then -(Abs(m) as int) else Abs(m) as int) == m;
    ScaledNormal(m, k);
  }

  /** A value in canonical form is its own canonical form. */
  lemma ScaledNormal(m: int, k: nat)
    requires IsNormal(Decimal(m, k))
    ensures Scaled(m, 0 - k) == Decimal(m, k)
  {
    if k == 0 {
      assert Pow10(0) == 1;
    }
  }

  /** A sign and an unsigned decimal literal read as that literal with the sign applied. */
  lemma SignedParses(sign: string, body: string)
    requires sign == "-" || sign == ""
    requires body != [] && IsDigit(body[0])
    ensures ParseF64(sign + body) == Signed(sign == "-", ParseDecimal(body))
  {
    var t := sign + body;
    var neg := t[0] == '-';
    assert neg == (sign == "-");
    assert (if t != [] && (t[0] == '-' || t[0] == '+') then t[1..] else t) == body;
    DigitsNotSpecial(body, neg);
  }

  /**
   * The cast is the largest whole number not above the value, clamped to
   * the `u64` range.
   */
  lemma AsU64Floor(v: F64)
    requires v.Decimal?
    ensures AsU64(v) == if ToReal(v) <= 0.0 then 0 else Min(ToReal(v).Floor, U64Max)
  {
    var m, k := v.mantissa, v.scale;
    var p := Pow10(k);
    ShiftedQuotient(m, k);
    if m <= 0 {
      NonPositiveQuotient(m, p);
    } else {
      DivPow10Bounds(m, k);
      RealFloor(m, p, DivPow10(m, k));
    }
  }

  lemma NonPositiveQuotient(m: int, p: nat)
    requires m <= 0 && p >= 1
    ensures m as real / p as real <= 0.0
  {
  }

  lemma RealFloor(m: nat, p: nat, q: nat)
    requires m > 0 && p >= 1
    requires q * p <= m < (q + 1) * p
    ensures 0.0 < m as real / p as real
    ensures (m as real / p as real).Floor == q
  {
    CastProducts(m, p, q);
    FloorOfQuotient(m as real, p as real, q);
  }

  lemma CastProducts(m: nat, p: nat, q: nat)
    requires q * p <= m < (q + 1) * p
    ensures q as real * p as real <= m as real < (q as real + 1.0) * p as real
  {
    assert (q * p) as real == q as real * p as real;
    assert ((q + 1) * p) as real == (q as real + 1.0) * p as real;
  }

  lemma FloorOfQuotient(mr: real, pr: real, q: nat)
    requires mr > 0.0 && pr > 0.0
    requires q as real * pr <= mr < (q as real + 1.0) * pr
    ensures 0.0 < mr / pr
    ensures (mr / pr).Floor == q
  {
    var qr := q as real;
    PositiveQuotient(mr, pr);
    PositiveQuotient(mr - qr * pr, pr);
    PositiveQuotient((qr + 1.0) * pr - mr, pr);
    QuotientDifference(mr, qr, pr);
    QuotientDifference(mr, qr + 1.0, pr);
  }

  lemma QuotientDifference(a: real, b: real, c: real)
    requires c > 0.0
    ensures (a - b * c) / c == a / c - b
    ensures (b * c - a) / c == b - a / c
  {
  }

  lemma PositiveQuotient(a: real, b: real)
    requires a >= 0.0 && b > 0.0
    ensures a / b >= 0.0 && (a > 0.0 ==> a / b > 0.0)
  {
  }
}
