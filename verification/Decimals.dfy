/** Decimal numbers with a 96-bit mantissa and at most 28 decimals, and their conversion to
    the fractions and rates of the chain parameters. */
module Decimals {
  import opened Bytes

  const MAX_MAGNITUDE: nat := 0xFFFF_FFFF_FFFF_FFFF_FFFF_FFFF
  const MAX_SCALE: nat := 28
  const MAX_U32: nat := 0xFFFF_FFFF

  /** `magnitude / 10^scale` with a sign; zero may carry either sign. */
  datatype Decimal = Decimal(negative: bool, magnitude: nat, scale: nat)

  predicate Valid(d: Decimal) {
    d.magnitude <= MAX_MAGNITUDE && d.scale <= MAX_SCALE
  }

  function Mantissa(d: Decimal): int {
    if d.negative then 0 - d.magnitude else d.magnitude
  }

  function Pow10(n: nat): (p: nat)
    ensures p > 0
  {
    if n == 0 then 1 else 10 * Pow10(n - 1)
  }

  /** The decimal has the value `n / 10^e`. */
  ghost predicate Equals(d: Decimal, n: int, e: nat) {
    Mantissa(d) * Pow10(e) == n * Pow10(d.scale)
  }

  // ---------- Arithmetic of powers of ten ----------

  lemma {:induction false} Pow10Add(a: nat, b: nat)
    ensures Pow10(a + b) == Pow10(a) * Pow10(b)
  {
    if a > 0 {
      Pow10Add(a - 1, b);
      assert Pow10(a) * Pow10(b) == 10 * (Pow10(a - 1) * Pow10(b));
    }
  }

  lemma Cancel(x: int, y: int, z: nat)
    requires z > 0 && x * z == y * z
    ensures x == y
  {
    if x < y {
      Grows(y - x, z);
    } else if y < x {
      Grows(x - y, z);
    }
  }

  lemma Grows(k: nat, z: nat)
    requires k > 0 && z > 0
    ensures k * z > 0
  {
  }

  lemma CrossCancel(a: int, b: int, c: int, x: nat, y: nat, z: nat)
    requires a * y == b * x && b * z == c * y && y > 0
    ensures a * z == c * x
  {
    calc {
      (a * z) * y;
      (a * y) * z;
      (b * x) * z;
      (b * z) * x;
      (c * y) * x;
      (c * x) * y;
    }
    Cancel(a * z, c * x, y);
  }

  /** If `a/10^s = b/10^e` and `e <= s` then `a` is `b` shifted by the difference. */
  lemma Shift(a: int, s: nat, b: int, e: nat)
    requires a * Pow10(e) == b * Pow10(s) && e <= s
    ensures a == b * Pow10(s - e)
  {
    Pow10Add(s - e, e);
    assert a * Pow10(e) == (b * Pow10(s - e)) * Pow10(e);
    Cancel(a, b * Pow10(s - e), Pow10(e));
  }

  lemma {:induction false} ShiftedIsMultiple(a: int, s: nat, b: int, e: nat)
    requires a * Pow10(e) == b * Pow10(s) && e < s
    ensures a % 10 == 0
  {
    Shift(a, s, b, e);
    assert b * Pow10(s - e) == 10 * (b * Pow10(s - e - 1));
  }

  // ---------- Normal form ----------

  /** Trailing zeros removed, as long as there are decimals. */
  function Strip(magnitude: nat, scale: nat): (nat, nat)
    decreases scale
  {
    if scale > 0 && magnitude % 10 == 0 then Strip(magnitude / 10, scale - 1) else (magnitude, scale)
  }

  function Normalize(d: Decimal): Decimal {
    if d.magnitude == 0 then Decimal(false, 0, 0)
    else var (m, s) := Strip(d.magnitude, d.scale); Decimal(d.negative, m, s)
  }

  lemma {:induction false} StripKeepsValue(magnitude: nat, scale: nat)
    ensures var (m, s) := Strip(magnitude, scale);
            && m * Pow10(scale) == magnitude * Pow10(s)
            && m <= magnitude && s <= scale
            && (magnitude > 0 ==> m > 0)
            && (s == 0 || m % 10 != 0)
    decreases scale
  {
    if scale > 0 && magnitude % 10 == 0 {
      StripKeepsValue(magnitude / 10, scale - 1);
      var (m, s) := Strip(magnitude, scale);
      TimesTen(m, Pow10(scale - 1), magnitude / 10, Pow10(s));
    }
  }

  lemma TimesTen(m: nat, x: nat, n: nat, y: nat)
    requires m * x == n * y
    ensures m * (10 * x) == (10 * n) * y
  {
  }

  /** The normal form has the same value, and no form of that value has fewer decimals. */
  lemma NormalizeIsLeast(d: Decimal)
    ensures var f := Normalize(d);
            && Equals(d, Mantissa(f), f.scale)
            && f.magnitude <= d.magnitude && f.scale <= d.scale
            && (f.scale == 0 || f.magnitude % 10 != 0)
            && (f.magnitude == 0 ==> !f.negative)
            && (d.magnitude == 0 <==> f.magnitude == 0)
  {
    StripKeepsValue(d.magnitude, d.scale);
    var f := Normalize(d);
    Signed(f.magnitude, Pow10(d.scale), d.magnitude, Pow10(f.scale));
  }

  lemma Signed(m: int, x: int, n: int, y: int)
    ensures m * x == n * y ==> -m * x == -n * y
    ensures n == 0 ==> n * y == 0
  {
  }

  /** Every form of a value is its normal form with zeros appended. */
  lemma {:induction false} NormalForm(d: Decimal, n: int, e: nat)
    requires Equals(d, n, e)
    ensures Normalize(d).scale <= e
    ensures n == Mantissa(Normalize(d)) * Pow10(e - Normalize(d).scale)
  {
    var f := Normalize(d);
    NormalizeIsLeast(d);
    assert Mantissa(f) * Pow10(d.scale) == Mantissa(d) * Pow10(f.scale);
    CrossCancel(Mantissa(f), Mantissa(d), n, Pow10(f.scale), Pow10(d.scale), Pow10(e));
    if e < f.scale {
      ShiftedIsMultiple(Mantissa(f), f.scale, n, e);
    } else {
      Shift(n, e, Mantissa(f), f.scale);
    }
  }

  /** More decimals, up to `target` or the last that the mantissa has room for. */
  function Rescale(magnitude: nat, scale: nat, target: nat): (nat, nat)
    requires scale <= target
    decreases target - scale
  {
    if scale == target || magnitude * 10 > MAX_MAGNITUDE then (magnitude, scale)
    else Rescale(magnitude * 10, scale + 1, target)
  }

  /** Either rescaling shifts by all the decimals asked for, or the mantissa is nearly full. */
  lemma {:induction false} RescaleShifts(magnitude: nat, scale: nat, target: nat)
    requires scale <= target
    ensures var (m, s) := Rescale(magnitude, scale, target);
            || (s == target && m == magnitude * Pow10(target - scale))
            || (10 * m > MAX_MAGNITUDE && m <= magnitude * Pow10(target - scale))
    decreases target - scale
  {
    if scale == target {
    } else if magnitude * 10 > MAX_MAGNITUDE {
      Enlarges(magnitude, Pow10(target - scale));
    } else {
      RescaleShifts(magnitude * 10, scale + 1, target);
      assert magnitude * Pow10(target - scale) == (magnitude * 10) * Pow10(target - scale - 1);
    }
  }

  lemma Enlarges(m: nat, p: nat)
    requires p > 0
    ensures m <= m * p
  {
  }

  method NormalizeAssign(d: Decimal) returns (f: Decimal)
    ensures f == Normalize(d)
  {
    if d.magnitude == 0 {
      return Decimal(false, 0, 0);
    }
    var magnitude: nat, scale: nat := d.magnitude, d.scale;
    while scale > 0
      invariant Strip(magnitude, scale) == Strip(d.magnitude, d.scale)
    {
      if magnitude % 10 > 0 { break; }
      magnitude, scale := magnitude / 10, scale - 1;
    }
    return Decimal(d.negative, magnitude, scale);
  }

  method RescaleAssign(d: Decimal, target: nat) returns (f: Decimal)
    requires d.scale <= target
    ensures (f.magnitude, f.scale) == Rescale(d.magnitude, d.scale, target) && f.negative == d.negative
  {
    var magnitude: nat, scale: nat := d.magnitude, d.scale;
    while scale < target && magnitude * 10 <= MAX_MAGNITUDE
      invariant scale <= target
      invariant Rescale(magnitude, scale, target) == Rescale(d.magnitude, d.scale, target)
    {
      magnitude, scale := magnitude * 10, scale + 1;
    }
    return Decimal(d.negative, magnitude, scale);
  }

  // ---------- Parts per hundred thousand ----------

  const WHOLE := 100_000

  datatype PartsResult = Ok(parts: nat) | TooManyDecimals | Negative | OutOfBounds

  /** `PartsPerHundredThousands::try_from`: four checks, in this order.  The value as a
      number of parts is the integer `q` with `value = q / 10^5`, if there is one. */
  method PartsFromDecimal(value: Decimal) returns (r: PartsResult)
    requires Valid(value)
    ensures r == TooManyDecimals <==> !exists q :: Equals(value, q, 5)
    ensures r == Negative <==> exists q :: Equals(value, q, 5) && q < 0
    ensures r == OutOfBounds <==> exists q :: Equals(value, q, 5) && q > 100_000
    ensures forall p: nat :: r == Ok(p) <==> Equals(value, p, 5) && p <= 100_000
  {
    var f := NormalizeAssign(value);
    if f.scale > 5 {
      forall q | Equals(value, q, 5) ensures false { NormalForm(value, q, 5); }
      return TooManyDecimals;
    }
    ghost var q := PartsOf(value);
    assert Equals(value, q, 5);
    if f.negative && f.magnitude != 0 {
      return Negative;
    }
    f := RescaleAssign(f, 5);
    RescaleShifts(Normalize(value).magnitude, Normalize(value).scale, 5);
    if f.magnitude > WHOLE {
      return OutOfBounds;
    }
    return Ok(f.magnitude);
  }

  /** The one number of parts that a decimal with at most five decimals amounts to. */
  lemma PartsOf(d: Decimal) returns (q: int)
    requires Normalize(d).scale <= 5
    ensures q == Mantissa(Normalize(d)) * Pow10(5 - Normalize(d).scale)
    ensures forall p :: Equals(d, p, 5) <==> p == q
    ensures q < 0 <==> Normalize(d).negative && Normalize(d).magnitude != 0
  {
    var f := Normalize(d);
    q := Mantissa(f) * Pow10(5 - f.scale);
    NormalizeIsLeast(d);
    Pow10Add(5 - f.scale, f.scale);
    assert Mantissa(f) * Pow10(5) == q * Pow10(f.scale);
    CrossCancel(Mantissa(d), Mantissa(f), q, Pow10(d.scale), Pow10(f.scale), Pow10(5));
    forall p | Equals(d, p, 5) ensures p == q {
      NormalForm(d, p, 5);
    }
    SignOfProduct(Mantissa(f), Pow10(5 - f.scale));
  }

  lemma SignOfProduct(x: int, p: nat)
    requires p > 0
    ensures x * p < 0 <==> x < 0
  {
  }

  function PartsToDecimal(parts: nat): Decimal {
    Decimal(false, parts, 5)
  }

  /** Converting parts to a decimal and back changes nothing. */
  method PartsRoundTrip(parts: nat) returns (r: PartsResult)
    requires parts <= 100_000
    ensures r == Ok(parts)
  {
    r := PartsFromDecimal(PartsToDecimal(parts));
  }

  // ---------- Mint rates ----------

  /** `mantissa / 10^exponent`, with a 32-bit mantissa and an 8-bit exponent. */
  datatype MintRate = MintRate(mantissa: nat, exponent: nat)

  predicate ValidRate(r: MintRate) {
    r.mantissa <= MAX_U32 && r.exponent < 256
  }

  /** `MintRate::try_from`: the normal form, if its mantissa fits. */
  method RateFromDecimal(value: Decimal) returns (r: Option<MintRate>)
    requires Valid(value)
    ensures r.Some? <==> exists n: nat, e: nat :: n <= MAX_U32 && Equals(value, n, e)
    ensures r.Some? ==> ValidRate(r.value) && Equals(value, r.value.mantissa, r.value.exponent)
    ensures r.Some? ==> forall n: nat, e: nat :: Equals(value, n, e) ==> r.value.exponent <= e && r.value.mantissa <= n
    ensures r == Reduced(value)
  {
    var f := NormalizeAssign(value);
    NormalizeIsLeast(value);
    forall n: nat, e: nat | Equals(value, n, e) ensures f.scale <= e && 0 <= Mantissa(f) <= n {
      NormalForm(value, n, e);
      SignOfProduct(Mantissa(f), Pow10(e - f.scale));
      Enlarges(f.magnitude, Pow10(e - f.scale));
    }
    if 0 <= Mantissa(f) <= MAX_U32 {
      return Some(MintRate(f.magnitude, f.scale));
    }
    return None;
  }

  function Reduced(d: Decimal): Option<MintRate> {
    var f := Normalize(d);
    if 0 <= Mantissa(f) <= MAX_U32 then Some(MintRate(f.magnitude, f.scale)) else None
  }

  /** The decimal a rate is printed as; there is none with more than 28 decimals. */
  function RateToDecimal(r: MintRate): (d: Option<Decimal>)
    ensures d.Some? <==> r.exponent <= 28
  {
    if r.exponent <= MAX_SCALE then Some(Decimal(false, r.mantissa, r.exponent)) else None
  }

  /** Printing and parsing a rate gives the one reduced rate of the same value, whatever the
      form it had, and changes a reduced rate no more. */
  lemma RateRoundTrip(r: MintRate)
    requires ValidRate(r) && r.exponent <= 28
    ensures var back := Reduced(RateToDecimal(r).value);
            && back.Some? && ValidRate(back.value) && back.value.exponent <= r.exponent
            && back.value.mantissa * Pow10(r.exponent) == r.mantissa * Pow10(back.value.exponent)
            && Reduced(RateToDecimal(back.value).value) == back
  {
    var d := RateToDecimal(r).value;
    NormalizeIsLeast(d);
    var f := Normalize(d);
    if f.magnitude == 0 {
      assert Normalize(f) == f;
    } else {
      assert Strip(f.magnitude, f.scale) == (f.magnitude, f.scale);
    }
  }

  /** Two rates print alike after parsing exactly if they are equal in value. */
  lemma ReducedIsCanonical(r: MintRate, r': MintRate)
    requires ValidRate(r) && ValidRate(r') && r.exponent <= 28 && r'.exponent <= 28
    ensures Reduced(RateToDecimal(r).value) == Reduced(RateToDecimal(r').value)
            <==> r.mantissa * Pow10(r'.exponent) == r'.mantissa * Pow10(r.exponent)
  {
    var d, d' := RateToDecimal(r).value, RateToDecimal(r').value;
    var f, f' := Normalize(d), Normalize(d');
    NormalizeIsLeast(d);
    NormalizeIsLeast(d');
    if r.mantissa * Pow10(r'.exponent) == r'.mantissa * Pow10(r.exponent) {
      CrossCancel(r'.mantissa, r.mantissa, f.magnitude, Pow10(r'.exponent), Pow10(r.exponent), Pow10(f.scale));
      CrossCancel(r.mantissa, r'.mantissa, f'.magnitude, Pow10(r.exponent), Pow10(r'.exponent), Pow10(f'.scale));
      NormalForm(d, f'.magnitude, f'.scale);
      NormalForm(d', f.magnitude, f.scale);
      assert f.scale == f'.scale;
    }
    if f == f' {
      CrossCancel(r.mantissa, f.magnitude, r'.mantissa, Pow10(r.exponent), Pow10(f.scale), Pow10(r'.exponent));
    }
  }
}
