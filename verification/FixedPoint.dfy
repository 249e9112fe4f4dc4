/** `Fraction` is U68F60: an unsigned 128-bit number of 2^-60 units ("ulps").
    Products and quotients of two fractions floor, products with an integer are
    exact, and whatever does not fit aborts. */
module FixedPoint {
  import opened Results
  import opened Arithmetic

  const ONE: nat := 0x1000_0000_0000_0000
  const TWO_64: nat := 0x1_0000_0000_0000_0000
  const TWO_128: nat := 0x1_0000_0000_0000_0000_0000_0000_0000_0000
  const TWO_256: nat := 0x1_0000_0000_0000_0000_0000_0000_0000_0000_0000_0000_0000_0000_0000_0000_0000_0000
  const MAX_U64: U64 := 0xFFFF_FFFF_FFFF_FFFF
  const MAX_FRACTION: Fraction := 0xFFFF_FFFF_FFFF_FFFF_FFFF_FFFF_FFFF_FFFF

  type U64 = x: int | 0 <= x < 0x1_0000_0000_0000_0000
  type Fraction = x: int | 0 <= x < 0x1_0000_0000_0000_0000_0000_0000_0000_0000
  type U256 = x: int | 0 <= x < 0x1_0000_0000_0000_0000_0000_0000_0000_0000_0000_0000_0000_0000_0000_0000_0000_0000

  /** The value if it is a 128-bit quantity, an abort otherwise. */
  function Narrow(x: int): (r: Result<Fraction>) {
    if x < 0 then Err(Underflow) else if x >= TWO_128 then Err(Overflow) else Ok(x)
  }

  function Narrow64(x: int): (r: Result<U64>) {
    if x < 0 then Err(Underflow) else if x >= TWO_64 then Err(Overflow) else Ok(x)
  }

  function Narrow256(x: int): (r: Result<U256>) {
    if x < 0 then Err(Underflow) else if x >= TWO_256 then Err(Overflow) else Ok(x)
  }

  function Add(a: Fraction, b: Fraction): Result<Fraction> {
    Narrow(a + b)
  }

  function Sub(a: Fraction, b: Fraction): Result<Fraction> {
    Narrow(a - b)
  }

  /** The product of two fractions in ulps, before the width check. */
  function MulFloor(a: nat, b: nat): nat {
    a * b / ONE
  }

  function Mul(a: Fraction, b: Fraction): Result<Fraction> {
    Narrow(MulFloor(a, b))
  }

  /** The quotient of two fractions in ulps, before the width check. */
  function DivFloor(a: nat, b: nat): nat
    requires b > 0
  {
    a * ONE / b
  }

  function Div(a: Fraction, b: Fraction): Result<Fraction> {
    if b == 0 then Err(DivisionByZero) else Narrow(DivFloor(a, b))
  }

  function MulInt(a: Fraction, n: nat): Result<Fraction> {
    Narrow(a * n)
  }

  function DivInt(a: Fraction, n: nat): Result<Fraction> {
    if n == 0 then Err(DivisionByZero) else Narrow(a / n)
  }

  function SatSub(a: nat, b: nat): nat {
    if a >= b then a - b else 0
  }

  /** `div_ceil` (utils/fraction.rs:138-147); `denum_sf - 1` underflows on zero. */
  function DivCeil(a: Fraction, b: Fraction): Result<Fraction> {
    if b == 0 then Err(Underflow) else Narrow(CeilDiv(a * ONE, b))
  }

  function FromInt(n: U64): Fraction {
    n * ONE
  }

  function Floor(a: nat): nat {
    a / ONE
  }

  function Ceil(a: nat): nat {
    CeilDiv(a, ONE)
  }

  /** Half-way cases round up. */
  function Round(a: nat): nat {
    (a + ONE / 2) / ONE
  }

  function ToFloor(a: Fraction): Result<U64> {
    Narrow64(Floor(a))
  }

  /** `ceil` and `round` are themselves fractions, so they abort near the top of the range. */
  function ToCeil(a: Fraction): Result<U64> {
    Narrow64(Ceil(a))
  }

  function ToRound(a: Fraction): Result<U64> {
    Narrow64(Round(a))
  }

  function FromPercent(p: U64): Fraction {
    p * ONE / 100
  }

  function FromBps(b: U64): Fraction {
    b * ONE / 10_000
  }

  lemma MulBounds(a: nat, b: nat)
    ensures MulFloor(a, b) * ONE <= a * b < MulFloor(a, b) * ONE + ONE
  {
    DivBounds(a * b, ONE);
  }

  lemma MulFloorMono(a: nat, b: nat, c: nat, d: nat)
    requires a <= b && c <= d
    ensures MulFloor(a, c) <= MulFloor(b, d)
  {
    MulMono(a, b, c, d);
    DivMono(a * c, b * d, ONE);
  }

  /** A factor of at most one never increases; a factor of at least one never decreases. */
  lemma MulFloorUnit(a: nat, f: nat)
    ensures f <= ONE ==> MulFloor(a, f) <= a && MulFloor(f, a) <= a
    ensures f >= ONE ==> MulFloor(a, f) >= a && MulFloor(f, a) >= a
  {
    DivExact(a, ONE);
    if f <= ONE {
      MulFloorMono(a, a, f, ONE);
      assert f * a == a * f;
    }
    if f >= ONE {
      MulFloorMono(a, a, ONE, f);
      assert f * a == a * f;
    }
  }

  lemma MulIntExact(a: Fraction, n: nat)
    ensures MulInt(a, n).Ok? || MulInt(a, n) == Err(Overflow)
    ensures MulInt(a, n).Ok? ==> MulInt(a, n).value == a * n
  {
    assert a * n >= 0 by { MulLeft(n, 0, a); }
  }

  lemma MulIntMono(a: Fraction, b: Fraction, n: nat)
    requires a <= b && MulInt(b, n).Ok?
    ensures MulInt(a, n).Ok? && MulInt(a, n).value <= MulInt(b, n).value
  {
    assert 0 <= a * n <= b * n by { MulLeft(n, 0, a); MulLeft(n, a, b); }
  }

  lemma DivIntMono(a: Fraction, b: Fraction, n: nat)
    requires a <= b && n > 0
    ensures DivInt(a, n).Ok? && DivInt(b, n).Ok? && DivInt(a, n).value <= DivInt(b, n).value
  {
    DivMono(a, b, n);
    DivAntitone(b, 1, n);
    DivAntitone(a, 1, n);
  }

  lemma DivFloorBounds(a: nat, b: nat)
    requires b > 0
    ensures DivFloor(a, b) * b <= a * ONE < DivFloor(a, b) * b + b
  {
    DivBounds(a * ONE, b);
  }

  /** A part of a whole is a ratio of at most one. */
  lemma DivFloorUnit(a: nat, b: nat)
    requires 0 < b && a <= b
    ensures DivFloor(a, b) <= ONE
  {
    MulLeft(ONE, a, b);
    DivExact(ONE, b);
    DivMono(a * ONE, b * ONE, b);
    assert b * ONE == ONE * b;
  }

  lemma FloorCeil(a: nat)
    ensures Floor(a) * ONE <= a <= Ceil(a) * ONE
    ensures a < Floor(a) * ONE + ONE
    ensures Ceil(a) * ONE < a + ONE
    ensures Floor(a) <= Ceil(a) <= Floor(a) + 1
  {
  }

  lemma FromIntExact(n: U64)
    ensures Floor(FromInt(n)) == n && Ceil(FromInt(n)) == n && Round(FromInt(n)) == n
  {
  }

  /** Rounding is to the nearest whole number, upwards half-way. */
  lemma RoundNearest(a: nat)
    ensures 2 * Round(a) * ONE <= 2 * a + ONE < 2 * Round(a) * ONE + 2 * ONE
  {
  }

  /** Percentages and basis points as fractions, rounded down; 100% is one. */
  lemma SharesOfOne(n: U64)
    ensures FromPercent(n) * 100 <= n * ONE < FromPercent(n) * 100 + 100
    ensures FromBps(n) * 10_000 <= n * ONE < FromBps(n) * 10_000 + 10_000
    ensures FromPercent(100) == ONE && FromBps(10_000) == ONE
  {
    DivBounds(n * ONE, 100);
    DivBounds(n * ONE, 10_000);
  }

  /** The share of a value by a floored ratio, floored again, from below. */
  lemma ShareAbove(value: nat, part: nat, whole: nat, ratio: nat, share: nat)
    requires whole > 0 && part * ONE < ratio * whole + whole && value * ratio < share * ONE + ONE
    ensures value * part * ONE < ((share + 1) * ONE + value) * whole
  {
    if value == 0 {
      assert (share + 1) * ONE * whole > 0 by { MulLeft(whole, 1, (share + 1) * ONE); }
    } else {
      MulLeft(value, part * ONE + 1, ratio * whole + whole);
      NextRatio(value, ratio, whole);
      MulLeft(whole, value * ratio + value, (share + 1) * ONE + value);
      assert value * (part * ONE + 1) == value * part * ONE + value;
    }
  }

  lemma NextRatio(value: nat, ratio: nat, whole: nat)
    ensures value * (ratio * whole + whole) == whole * (value * ratio + value)
  {
    MulSwap(whole, value, ratio);
    assert whole * ratio == ratio * whole;
  }
}
