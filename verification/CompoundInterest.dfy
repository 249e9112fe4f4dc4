/** The truncated binomial used for per-slot compounding
    (`approximate_compounded_interest`, state/reserve.rs:1224-1252). */
module CompoundInterest {
  import opened Results
  import opened Arithmetic
  import opened FixedPoint

  const SLOTS_PER_YEAR: nat := 2 * 60 * 60 * 24 * 365

  /** The rate of one slot. */
  function SlotRate(rate: Fraction): Fraction {
    rate / SLOTS_PER_YEAR
  }

  function ApproximateCompoundedInterest(rate: Fraction, slots: U64): Result<Fraction> {
    var base: Fraction := SlotRate(rate);
    match slots
    case 0 => Ok(ONE)
    case 1 => Add(ONE, base)
    case 2 =>
      var x :- Add(ONE, base);
      Mul(x, x)
    case 3 =>
      var x :- Add(ONE, base);
      var square :- Mul(x, x);
      Mul(square, x)
    case 4 =>
      var x :- Add(ONE, base);
      var square :- Mul(x, x);
      Mul(square, square)
    case _ =>
      var square :- Mul(base, base);
      var cube :- Mul(square, base);
      var first :- MulInt(base, slots);
      var second :- SecondTerm(square, slots);
      var third :- ThirdTerm(cube, slots);
      var a :- Add(ONE, first);
      var b :- Add(a, second);
      Add(b, third)
  }

  function SecondTerm(square: Fraction, n: U64): Result<Fraction>
    requires n >= 5
  {
    var a :- MulInt(square, n);
    var b :- MulInt(a, n - 1);
    DivInt(b, 2)
  }

  function ThirdTerm(cube: Fraction, n: U64): Result<Fraction>
    requires n >= 5
  {
    var a :- MulInt(cube, n);
    var b :- MulInt(a, n - 1);
    var c :- MulInt(b, n - 2);
    DivInt(c, 6)
  }

  /** The only way to abort is to leave the width. */
  lemma OnlyOverflows(rate: Fraction, slots: U64)
    ensures ApproximateCompoundedInterest(rate, slots).Ok? ||
            ApproximateCompoundedInterest(rate, slots) == Err(Overflow)
  {
    hide MulFloor, SlotRate, SecondTerm, ThirdTerm;
    forall f: Fraction | slots >= 5
      ensures SecondTerm(f, slots).Ok? || SecondTerm(f, slots) == Err(Overflow)
      ensures ThirdTerm(f, slots).Ok? || ThirdTerm(f, slots) == Err(Overflow)
    {
      TermsOnlyOverflow(f, slots);
    }
  }

  lemma TermsOnlyOverflow(f: Fraction, n: U64)
    requires n >= 5
    ensures SecondTerm(f, n).Ok? || SecondTerm(f, n) == Err(Overflow)
    ensures ThirdTerm(f, n).Ok? || ThirdTerm(f, n) == Err(Overflow)
  {
    hide MulInt, DivInt;
    MulIntExact(f, n);
    if MulInt(f, n).Ok? {
      var a := MulInt(f, n).value;
      MulIntExact(a, n - 1);
      if MulInt(a, n - 1).Ok? {
        var b := MulInt(a, n - 1).value;
        DivIntMono(b, b, 2);
        MulIntExact(b, n - 2);
        if MulInt(b, n - 2).Ok? {
          DivIntMono(MulInt(b, n - 2).value, MulInt(b, n - 2).value, 6);
        }
      }
    }
  }

  // ---- bounds from below --------------------------------------------------

  lemma ProductAtLeastSum(a: nat, b: nat)
    ensures MulFloor(ONE + a, ONE + b) >= ONE + a + b
  {
    assert (ONE + a) * (ONE + b) == (ONE + a + b) * ONE + a * b;
    LeDiv(ONE + a + b, (ONE + a) * (ONE + b), ONE);
  }

  /** Compounding yields at least simple interest. */
  lemma AtLeastSimpleInterest(rate: Fraction, slots: U64)
    requires ApproximateCompoundedInterest(rate, slots).Ok?
    ensures ApproximateCompoundedInterest(rate, slots).value >= ONE + slots * SlotRate(rate)
  {
    var base: nat := SlotRate(rate);
    var square := MulFloor(ONE + base, ONE + base);
    if slots == 2 {
      ProductAtLeastSum(base, base);
    } else if slots == 3 {
      ProductAtLeastSum(base, base);
      ProductAtLeastSum(2 * base, base);
      MulFloorMono(ONE + 2 * base, square, ONE + base, ONE + base);
    } else if slots == 4 {
      ProductAtLeastSum(base, base);
      ProductAtLeastSum(2 * base, 2 * base);
      MulFloorMono(ONE + 2 * base, square, ONE + 2 * base, square);
    }
  }

  lemma AtLeastOne(rate: Fraction, slots: U64)
    requires ApproximateCompoundedInterest(rate, slots).Ok?
    ensures ApproximateCompoundedInterest(rate, slots).value >= ONE
  {
    hide ApproximateCompoundedInterest, SlotRate;
    AtLeastSimpleInterest(rate, slots);
    MulLeft(slots, 0, SlotRate(rate));
  }

  // ---- bounds from above --------------------------------------------------

  /** Six times a binomial cut after its cubic term: `n`, `c2` and `c3` stand for
      n, n(n-1), n(n-1)(n-2) and `a0`..`a3` for the powers of the two summands. */
  function Cut(a0: nat, a1: nat, a2: nat, a3: nat, n: nat, c2: nat, c3: nat): nat {
    6 * a0 + 6 * (n * a1) + 3 * (c2 * a2) + c3 * a3
  }

  function C2(n: nat): nat {
    n * (n - 1)
  }

  function C3(n: nat): nat
    requires n >= 2
  {
    n * (n - 1) * (n - 2)
  }

  lemma FallingFactorials(n: nat)
    requires n >= 2
    ensures C2(n + 1) == C2(n) + 2 * n
    ensures C3(n + 1) == C3(n) + 3 * C2(n)
  {
    var k := n * (n - 1);
    assert (n + 1) * n == k + 2 * n;
    assert (k + 2 * n) * (n - 1) == k * (n - 1) + 2 * k;
    assert k * (n - 1) == k * (n - 2) + k;
  }

  /** Multiplying by `o + b` covers the next cut: only the quartic term is lost. */
  lemma CutStep(o: nat, b: nat, a0: nat, a1: nat, a2: nat, a3: nat, n: nat, c2: nat, c3: nat)
    requires b * a0 == o * a1 && b * a1 == o * a2 && b * a2 == o * a3
    ensures o * Cut(a0, a1, a2, a3, n + 1, c2 + 2 * n, c3 + 3 * c2) <= (o + b) * Cut(a0, a1, a2, a3, n, c2, c3)
  {
    Raise(n, c2, c3, a1, a2, a3);
    var na1, na2, ca2, ca3 := n * a1, n * a2, c2 * a2, c2 * a3;
    assert o * na2 == b * na1 by { MulSwap(o, n, a2); MulSwap(b, n, a1); }
    assert o * ca3 == b * ca2 by { MulSwap(o, c2, a3); MulSwap(b, c2, a2); }
    CutShift(o, b, a0, a1, na1, na2, ca2, ca3, c3 * a3);
  }

  lemma CutShift(o: nat, b: nat, a0: nat, a1: nat, na1: nat, na2: nat, ca2: nat, ca3: nat, rest: nat)
    requires b * a0 == o * a1 && o * na2 == b * na1 && o * ca3 == b * ca2
    ensures var t := 6 * a0 + 6 * na1 + 3 * ca2 + rest;
      o * (t + (6 * a1 + 6 * na2 + 3 * ca3)) <= (o + b) * t
  {
    var s, u := 6 * a0 + 6 * na1 + 3 * ca2, 6 * a1 + 6 * na2 + 3 * ca3;
    assert o * u == b * s by {
      WeightedSum(o, a1, na2, ca3);
      WeightedSum(b, a0, na1, ca2);
    }
    StepCovers(o, b, s, u, rest);
  }

  lemma WeightedSum(k: nat, x: nat, y: nat, z: nat)
    ensures k * (6 * x + 6 * y + 3 * z) == 6 * (k * x) + 6 * (k * y) + 3 * (k * z)
  {
  }

  lemma StepCovers(o: nat, b: nat, s: nat, u: nat, rest: nat)
    requires o * u == b * s
    ensures o * (s + rest + u) <= (o + b) * (s + rest)
  {
    var t := s + rest;
    MulLeft(b, s, t);
    SumProducts(o, b, t, u);
  }

  lemma Raise(n: nat, c2: nat, c3: nat, a1: nat, a2: nat, a3: nat)
    ensures (n + 1) * a1 == n * a1 + a1
    ensures (c2 + 2 * n) * a2 == c2 * a2 + 2 * (n * a2)
    ensures (c3 + 3 * c2) * a3 == c3 * a3 + 3 * (c2 * a3)
  {
  }

  lemma SumProducts(o: int, b: int, t: int, u: int)
    ensures o * (t + u) == o * t + o * u && (o + b) * t == o * t + b * t
  {
  }

  lemma Distribute3(k: int, x: int, y: int, z: int)
    ensures k * (x + y + z) == k * x + k * y + k * z
  {
  }

  function TruncatedBinomial(o: nat, b: nat, n: nat): nat
    requires n >= 2
  {
    Cut(o * o * o, b * o * o, b * b * o, b * b * b, n, C2(n), C3(n))
  }

  lemma PowersAlign(o: nat, b: nat)
    ensures b * (o * o * o) == o * (b * o * o)
    ensures b * (b * o * o) == o * (b * b * o)
    ensures b * (b * b * o) == o * (b * b * b)
  {
  }

  lemma SquareOfSum(o: nat, b: nat)
    ensures (o + b) * (o + b) == o * o + 2 * (b * o) + b * b
  {
  }

  lemma SumTimesSquare(o: nat, b: nat, oo: nat, bo: nat, bb: nat)
    requires oo == o * o && bo == b * o && bb == b * b
    ensures (o + b) * (oo + 2 * bo + bb) == o * oo + 3 * (b * oo) + 3 * (b * bo) + b * bb
  {
    Distribute3(o, oo, 2 * bo, bb);
    Distribute3(b, oo, 2 * bo, bb);
    assert o * bo == b * oo && o * bb == b * bo;
  }

  lemma CubeOfSum(o: nat, b: nat)
    ensures TruncatedBinomial(o, b, 3) == 6 * Pow(o + b, 3)
  {
    var oo, bo, bb := o * o, b * o, b * b;
    var x := o + b;
    assert x * (x * x) == o * oo + 3 * (b * oo) + 3 * (b * bo) + b * bb by {
      SquareOfSum(o, b);
      SumTimesSquare(o, b, oo, bo, bb);
    }
    assert Pow(x, 3) == x * (x * x) by { SmallPowers(o, x); }
    CubicCut(o, b);
  }

  lemma CubicCut(o: nat, b: nat)
    ensures TruncatedBinomial(o, b, 3) == 6 * (o * (o * o) + 3 * (b * (o * o)) + 3 * (b * (b * o)) + b * (b * b))
  {
    assert C2(3) == 6 && C3(3) == 6;
    MulAssoc(o, o, o);
    MulAssoc(b, o, o);
    MulAssoc(b, b, o);
    MulAssoc(b, b, b);
  }

  lemma {:induction false} TruncatedBinomialBelowPower(o: nat, b: nat, n: nat)
    requires n >= 3 && o > 0
    ensures TruncatedBinomial(o, b, n) * Pow(o, n - 3) <= 6 * Pow(o + b, n)
  {
    if n == 3 {
      CubeOfSum(o, b);
      assert Pow(o, 0) == 1;
    } else {
      TruncatedBinomialBelowPower(o, b, n - 1);
      FallingFactorials(n - 1);
      PowersAlign(o, b);
      CutStep(o, b, o * o * o, b * o * o, b * b * o, b * b * b, n - 1, C2(n - 1), C3(n - 1));
      PowerStep(o, o + b, TruncatedBinomial(o, b, n - 1), TruncatedBinomial(o, b, n), Pow(o, n - 4), Pow(o + b, n - 1));
      assert Pow(o, n - 3) == o * Pow(o, n - 4);
      assert Pow(o + b, n) == (o + b) * Pow(o + b, n - 1);
    }
  }

  lemma PowerStep(o: nat, x: nat, t: nat, t': nat, p: nat, q: nat)
    requires t * p <= 6 * q && o * t' <= x * t
    ensures t' * (o * p) <= 6 * (x * q)
  {
    MulLeft(p, o * t', x * t);
    MulLeft(x, t * p, 6 * q);
    MulSwap(x, t, p);
    assert t' * (o * p) == p * (o * t');
    assert p * (x * t) == x * (t * p);
  }

  lemma FlooredSecond(o: nat, b: nat, c2: nat, square: nat, second: nat)
    requires square * o <= b * b && 2 * second <= square * c2
    ensures 6 * (o * o * second) <= 3 * (c2 * (b * b * o))
  {
    MulLeft(o * o, 2 * second, square * c2);
    MulLeft(c2 * o, square * o, b * b);
    assert o * o * (square * c2) == c2 * o * (square * o);
    assert c2 * o * (b * b) == c2 * (b * b * o);
    assert o * o * (2 * second) == 2 * (o * o * second);
  }

  lemma FlooredThird(o: nat, b: nat, c3: nat, square: nat, cube: nat, third: nat)
    requires square * o <= b * b && cube * o <= square * b && 6 * third <= cube * c3
    ensures 6 * (o * o * third) <= c3 * (b * b * b)
  {
    FlooredCube(o, b, square, cube);
    FlooredShare(o * o, c3, cube, third, b * b * b);
  }

  lemma FlooredCube(o: nat, b: nat, square: nat, cube: nat)
    requires square * o <= b * b && cube * o <= square * b
    ensures cube * (o * o) <= b * b * b
  {
    MulLeft(o, cube * o, square * b);
    MulLeft(b, square * o, b * b);
    MulSwap(o, cube, o);
    MulSwap(o, square, b);
    MulSwap(b, square, o);
    MulAssoc(b, b, b);
  }

  lemma FlooredShare(oo: nat, c3: nat, cube: nat, third: nat, bound: nat)
    requires cube * oo <= bound && 6 * third <= cube * c3
    ensures 6 * (oo * third) <= c3 * bound
  {
    MulLeft(oo, 6 * third, cube * c3);
    MulLeft(c3, cube * oo, bound);
    MulSwap(oo, cube, c3);
    MulSwap(c3, cube, oo);
    assert oo * c3 == c3 * oo;
    assert oo * (6 * third) == 6 * (oo * third);
  }

  /** The general branch, with every floor taken, is below the truncated binomial. */
  lemma FlooredTermsBelowBinomial(o: nat, b: nat, n: nat, square: nat, cube: nat, second: nat, third: nat)
    requires n >= 2
    requires square * o <= b * b && cube * o <= square * b
    requires 2 * second <= square * C2(n) && 6 * third <= cube * C3(n)
    ensures 6 * (o * o) * (o + b * n + second + third) <= TruncatedBinomial(o, b, n)
  {
    FlooredSecond(o, b, C2(n), square, second);
    FlooredThird(o, b, C3(n), square, cube, third);
    TermsScaled(o * o, o, b, n, second, third);
    MulAssoc(o, o, o);
    assert o * o * (b * n) == n * (b * o * o) by { ScaledRate(o, b, n); }
  }

  lemma ScaledRate(o: nat, b: nat, n: nat)
    ensures o * o * (b * n) == n * (b * o * o)
  {
    MulSwap(o * o, b, n);
    MulAssoc(b, o, o);
    assert b * (o * o * n) == n * (b * (o * o)) by { MulSwap(b, n, o * o); }
  }

  lemma TermsScaled(oo: nat, o: nat, b: nat, n: nat, second: nat, third: nat)
    ensures 6 * oo * (o + b * n + second + third) == 6 * (oo * o) + 6 * (oo * (b * n)) + 6 * (oo * second) + 6 * (oo * third)
  {
    var x := b * n;
    Distribute3(oo, o + x, second, third);
    SumProducts(oo, 0, o, x);
    MulAssoc(6, oo, o + x + second + third);
  }

  /** Compounding yields at most the exact power: `value / 2^60 <= (1 + base)^slots`. */
  lemma AtMostExactPower(rate: Fraction, slots: U64)
    requires slots >= 1 && ApproximateCompoundedInterest(rate, slots).Ok?
    ensures ApproximateCompoundedInterest(rate, slots).value * Pow(ONE, slots - 1) <= Pow(ONE + SlotRate(rate), slots)
  {
    var base: nat := SlotRate(rate);
    SmallPowers(ONE, ONE + base);
    match slots {
      case 1 =>
      case 2 => MulBounds(ONE + base, ONE + base);
      case 3 => CubeAtMostPower(ONE + base);
      case 4 => SquaredSquareAtMostPower(ONE + base);
      case _ => GeneralTermAtMostPower(rate, slots);
    }
  }

  lemma CubeAtMostPower(x: nat)
    ensures MulFloor(MulFloor(x, x), x) * Pow(ONE, 2) <= Pow(x, 3)
  {
    var square := MulFloor(x, x);
    MulBounds(x, x);
    MulBounds(square, x);
    SmallPowers(ONE, x);
    ThirdPowerBound(ONE, x, square, MulFloor(square, x));
  }

  lemma SquaredSquareAtMostPower(x: nat)
    ensures MulFloor(MulFloor(x, x), MulFloor(x, x)) * Pow(ONE, 3) <= Pow(x, 4)
  {
    var square := MulFloor(x, x);
    MulBounds(x, x);
    MulBounds(square, square);
    SmallPowers(ONE, x);
    FourthPowerBound(ONE, x, square, MulFloor(square, square));
  }

  lemma GeneralTermAtMostPower(rate: Fraction, slots: U64)
    requires slots >= 5 && ApproximateCompoundedInterest(rate, slots).Ok?
    ensures ApproximateCompoundedInterest(rate, slots).value * Pow(ONE, slots - 1) <= Pow(ONE + SlotRate(rate), slots)
  {
    var base: nat := SlotRate(rate);
    var square := MulFloor(base, base);
    var cube := MulFloor(square, base);
    MulBounds(base, base);
    MulBounds(square, base);
    SecondTermFloors(square, slots);
    ThirdTermFloors(cube, slots);
    var second, third := SecondTerm(square, slots).value, ThirdTerm(cube, slots).value;
    FlooredTermsBelowBinomial(ONE, base, slots, square, cube, second, third);
    TruncatedBinomialBelowPower(ONE, base, slots);
    CombineBounds(ONE, ONE + base * slots + second + third, slots, TruncatedBinomial(ONE, base, slots),
                  Pow(ONE + base, slots));
  }

  lemma SecondTermFloors(square: Fraction, n: U64)
    requires n >= 5 && SecondTerm(square, n).Ok?
    ensures 2 * SecondTerm(square, n).value <= square * C2(n)
  {
    hide MulInt;
    MulIntExact(square, n);
    MulIntExact(MulInt(square, n).value, n - 1);
    MulAssoc(square, n, n - 1);
  }

  lemma ThirdTermFloors(cube: Fraction, n: U64)
    requires n >= 5 && ThirdTerm(cube, n).Ok?
    ensures 6 * ThirdTerm(cube, n).value <= cube * C3(n)
  {
    hide MulInt;
    MulIntExact(cube, n);
    var a := MulInt(cube, n).value;
    MulIntExact(a, n - 1);
    MulIntExact(MulInt(a, n - 1).value, n - 2);
    MulAssoc(cube, n, n - 1);
    MulAssoc(cube, n * (n - 1), n - 2);
  }

  lemma SmallPowers(o: nat, x: nat)
    ensures Pow(o, 0) == 1 && Pow(o, 1) == o && Pow(o, 2) == o * o && Pow(o, 3) == o * (o * o)
    ensures Pow(x, 1) == x && Pow(x, 2) == x * x && Pow(x, 3) == x * (x * x) && Pow(x, 4) == x * (x * (x * x))
  {
    PowerUpTo4(o);
    PowerUpTo4(x);
  }

  lemma PowerUpTo4(x: nat)
    ensures Pow(x, 0) == 1 && Pow(x, 1) == x && Pow(x, 2) == x * x && Pow(x, 3) == x * (x * x)
    ensures Pow(x, 4) == x * (x * (x * x))
  {
    assert Pow(x, 1) == x * Pow(x, 0) == x;
    assert Pow(x, 2) == x * Pow(x, 1);
    assert Pow(x, 3) == x * Pow(x, 2);
    assert Pow(x, 4) == x * Pow(x, 3);
  }

  lemma ThirdPowerBound(o: nat, x: nat, square: nat, value: nat)
    ensures square * o <= x * x && value * o <= square * x ==> value * (o * o) <= x * (x * x)
  {
    if square * o <= x * x && value * o <= square * x {
      MulLeft(o, value * o, square * x);
      MulLeft(x, square * o, x * x);
      assert o * (square * x) == x * (square * o);
      assert value * (o * o) == o * (value * o);
    }
  }

  lemma FourthPowerBound(o: nat, x: nat, square: nat, value: nat)
    ensures square * o <= x * x && value * o <= square * square ==> value * (o * (o * o)) <= x * (x * (x * x))
  {
    if square * o <= x * x && value * o <= square * square {
      MulLeft(o * o, value * o, square * square);
      MulMono(square * o, x * x, square * o, x * x);
      assert o * o * (square * square) == (square * o) * (square * o);
      assert value * (o * (o * o)) == o * o * (value * o);
      assert x * x * (x * x) == x * (x * (x * x));
    }
  }

  lemma CombineBounds(o: nat, value: nat, n: nat, t: nat, p: nat)
    requires n >= 3 && o > 0
    requires 6 * (o * o) * value <= t && t * Pow(o, n - 3) <= 6 * p
    ensures value * Pow(o, n - 1) <= p
  {
    var q := Pow(o, n - 3);
    assert Pow(o, n - 1) == o * (o * q) by { assert Pow(o, n - 2) == o * q; }
    MulLeft(q, 6 * (o * o) * value, t);
    assert q * (6 * (o * o) * value) == 6 * (value * (o * (o * q)));
  }

  // ---- how close the approximation is -------------------------------------

  /** Up to four slots it is the exact power but for the floors, and a slot's share is the
      rate over the 63,072,000 slots of a year. */
  lemma FewSlotsAlmostExact(rate: Fraction, slots: U64)
    requires slots <= 4 && ApproximateCompoundedInterest(rate, slots).Ok?
    ensures var x := ONE + rate / 63_072_000; var value := ApproximateCompoundedInterest(rate, slots).value;
      && (slots == 0 ==> value == ONE)
      && (slots == 1 ==> value == x)
      && (slots == 2 ==> value * ONE <= x * x < (value + 1) * ONE)
      && (slots == 3 ==> value * (ONE * ONE) <= x * (x * x) < (value + 1) * (ONE * ONE) + ONE * x)
      && (slots == 4 ==> value * (ONE * (ONE * ONE)) <= x * (x * (x * x)) < (value + 1) * (ONE * (ONE * ONE)) + ONE * (2 * (x * x)))
  {
    var x: nat := ONE + rate / 63_072_000;
    var square := MulFloor(x, x);
    hide MulFloor;
    MulBounds(x, x);
    if slots == 3 {
      MulBounds(square, x);
      ThirdPowerBound(ONE, x, square, MulFloor(square, x));
      ThirdPowerAlmost(ONE, x, square, MulFloor(square, x));
    } else if slots == 4 {
      MulBounds(square, square);
      FourthPowerBound(ONE, x, square, MulFloor(square, square));
      FourthPowerAlmost(ONE, x, square, MulFloor(square, square));
    }
  }

  lemma ThirdPowerAlmost(o: nat, x: nat, square: nat, value: nat)
    requires o > 0 && x * x < square * o + o && square * x < value * o + o
    ensures x * (x * x) < (value + 1) * (o * o) + o * x
  {
    FloorStep(o, x, x * x, square);
    FloorStep(o, o, square * x, value);
    MulLeft(o, square * x + 1, value * o + o);
    assert o * (square * x + 1) == o * (square * x) + o;
    assert o * (value * o + o) == (value + 1) * (o * o);
  }

  /** A factor on both sides of a floored quotient. */
  lemma FloorStep(o: nat, k: nat, n: nat, q: nat)
    requires n < q * o + o
    ensures k * n <= o * (q * k) + o * k
  {
    MulLeft(k, n, (q + 1) * o);
    assert k * ((q + 1) * o) == o * ((q + 1) * k) by { MulSwap(k, q + 1, o); MulSwap(o, q + 1, k); assert k * o == o * k; }
    assert o * ((q + 1) * k) == o * (q * k) + o * k;
  }

  lemma FourthPowerAlmost(o: nat, x: nat, square: nat, value: nat)
    requires o > 0 && square * o <= x * x < square * o + o && square * square < value * o + o
    ensures x * (x * (x * x)) < (value + 1) * (o * (o * o)) + o * (2 * (x * x))
  {
    var y, s := x * x, square + 1;
    assert square * o + o == s * o;
    SquaresBelow(y, s * o);
    MulSwap4(s, o, s, o);
    MulAssoc(x, x, y);
    SquareOfNext(o * o, square, (value + 1) * o);
    MulAssoc(value + 1, o, o * o);
    FloorsOfSquare(o, y, square);
  }

  lemma SquareOfNext(oo: nat, square: nat, w: nat)
    requires square * square < w
    ensures ((square + 1) * (square + 1)) * oo <= w * oo + oo * (2 * square)
  {
    assert (square + 1) * (square + 1) == square * square + 1 + 2 * square;
    MulLeft(oo, (square + 1) * (square + 1), w + 2 * square);
    assert oo * (w + 2 * square) == w * oo + oo * (2 * square);
  }

  lemma SquaresBelow(a: nat, b: nat)
    requires a < b
    ensures a * a < b * b
  {
  }

  lemma FloorsOfSquare(o: nat, xx: nat, square: nat)
    requires square * o <= xx
    ensures (o * o) * (2 * square) <= o * (2 * xx)
  {
    MulLeft(o, 2 * (square * o), 2 * xx);
    assert (o * o) * (2 * square) == o * (2 * (square * o));
  }

  /** From five slots on the quadratic term is there, up to its two floors: simple interest
      alone would not do. */
  lemma QuadraticTermCounts(rate: Fraction, n: U64)
    requires n >= 5 && ApproximateCompoundedInterest(rate, n).Ok?
    ensures var b := rate / 63_072_000; var value := ApproximateCompoundedInterest(rate, n).value;
      b * b * C2(n) <= 2 * ONE * (value - ONE - n * b) + ONE * (C2(n) + 1)
  {
    var b: nat := rate / 63_072_000;
    var square := MulFloor(b, b);
    MulBounds(b, b);
    hide MulFloor;
    SecondTermBounds(square, n);
    var second := SecondTerm(square, n).value;
    QuadraticAlmost(ONE, b, C2(n), square, second);
    var value := ApproximateCompoundedInterest(rate, n).value;
    assert value - ONE - n * b >= second;
    MulLeft(2 * ONE, second, value - ONE - n * b);
  }

  lemma QuadraticAlmost(o: nat, b: nat, c2: nat, square: nat, second: nat)
    requires b * b < square * o + o && square * c2 <= 2 * second + 1
    ensures b * b * c2 <= 2 * o * second + o * (c2 + 1)
  {
    MulLeft(c2, b * b, square * o + o);
    MulLeft(o, square * c2, 2 * second + 1);
    assert c2 * (square * o + o) == o * (square * c2) + o * c2;
  }

  lemma CubicAlmost(o: nat, b: nat, c3: nat, square: nat, cube: nat, third: nat)
    requires b * b < square * o + o && square * b < cube * o + o && cube * c3 <= 6 * third + 5
    ensures c3 * (b * b * b) <= 6 * (o * o * third) + o * o * (c3 + 5) + o * b * c3
  {
    CubeAlmost(o, b, square, cube);
    MulLeft(c3, b * b * b, o * o * (cube + 1) + o * b);
    ShareAlmost(o * o, c3, cube, third, o * b);
  }

  lemma CubeAlmost(o: nat, b: nat, square: nat, cube: nat)
    requires b * b < square * o + o && square * b < cube * o + o
    ensures b * b * b <= o * o * (cube + 1) + o * b
  {
    FloorStep(o, b, b * b, square);
    MulLeft(o, square * b, (cube + 1) * o);
    MulSwap(o, cube + 1, o);
    assert (cube + 1) * (o * o) == o * o * (cube + 1);
    assert b * (b * b) == b * b * b;
  }

  lemma ShareAlmost(oo: nat, c3: nat, cube: nat, third: nat, rest: nat)
    requires cube * c3 <= 6 * third + 5
    ensures c3 * (oo * (cube + 1) + rest) <= 6 * (oo * third) + oo * (c3 + 5) + rest * c3
  {
    MulLeft(oo, cube * c3, 6 * third + 5);
    MulSwap(c3, oo, cube + 1);
    assert c3 * (cube + 1) == cube * c3 + c3;
    assert oo * (cube * c3 + c3) == oo * (cube * c3) + oo * c3;
    assert oo * (6 * third + 5) == 6 * (oo * third) + 5 * oo;
  }

  /** And altogether the approximation is the binomial cut after its cubic term, up to the
      floors of the five divisions. */
  lemma AlmostTruncatedBinomial(rate: Fraction, n: U64)
    requires n >= 5 && ApproximateCompoundedInterest(rate, n).Ok?
    ensures var b := rate / 63_072_000; var value := ApproximateCompoundedInterest(rate, n).value;
      && 6 * (ONE * ONE) * value <= TruncatedBinomial(ONE, b, n)
      && TruncatedBinomial(ONE, b, n) <= 6 * (ONE * ONE) * value + ONE * ONE * (3 * C2(n) + C3(n) + 8) + ONE * b * C3(n)
  {
    var b: nat := rate / 63_072_000;
    var square := MulFloor(b, b);
    var cube := MulFloor(square, b);
    MulBounds(b, b);
    MulBounds(square, b);
    hide MulFloor;
    SecondTermFloors(square, n);
    ThirdTermFloors(cube, n);
    SecondTermBounds(square, n);
    ThirdTermBounds(cube, n);
    var second, third := SecondTerm(square, n).value, ThirdTerm(cube, n).value;
    FlooredTermsBelowBinomial(ONE, b, n, square, cube, second, third);
    CutAlmost(ONE, b, n, square, cube, second, third);
  }

  lemma CutAlmost(o: nat, b: nat, n: nat, square: nat, cube: nat, second: nat, third: nat)
    requires n >= 2 && b * b < square * o + o && square * b < cube * o + o
    requires square * C2(n) <= 2 * second + 1 && cube * C3(n) <= 6 * third + 5
    ensures TruncatedBinomial(o, b, n)
      <= 6 * (o * o) * (o + b * n + second + third) + o * o * (3 * C2(n) + C3(n) + 8) + o * b * C3(n)
  {
    QuadraticAlmost(o, b, C2(n), square, second);
    CubicAlmost(o, b, C3(n), square, cube, third);
    MulLeft(3 * o, b * b * C2(n), 2 * o * second + o * (C2(n) + 1));
    SquareScaled(o, b, C2(n), second);
    TermsScaled(o * o, o, b, n, second, third);
    MulAssoc(o, o, o);
    ScaledRate(o, b, n);
    assert o * o * (3 * C2(n) + C3(n) + 8) == 3 * (o * o * (C2(n) + 1)) + o * o * (C3(n) + 5);
  }

  lemma SquareScaled(o: nat, b: nat, c2: nat, second: nat)
    ensures 3 * o * (b * b * c2) == 3 * (c2 * (b * b * o))
    ensures 3 * o * (2 * o * second + o * (c2 + 1)) == 6 * (o * o * second) + 3 * (o * o * (c2 + 1))
  {
    MulAssoc(3, o, b * b * c2);
    MulSwap(o, b * b, c2);
    MulSwap(c2, o, b * b);
    assert o * (b * b) == b * b * o;
    assert b * b * (o * c2) == c2 * (o * (b * b)) by { MulSwap(b * b, o, c2); MulSwap(c2, o, b * b); assert b * b * c2 == c2 * (b * b); }
    TwoTerms(o, second, c2 + 1);
  }

  lemma TwoTerms(o: nat, second: nat, k: nat)
    ensures 3 * o * (2 * o * second + o * k) == 6 * (o * o * second) + 3 * (o * o * k)
  {
    MulAssoc(o, o, second);
    MulAssoc(o, o, k);
    assert o * (2 * o * second + o * k) == 2 * (o * (o * second)) + o * (o * k);
  }

  lemma SecondTermBounds(square: Fraction, n: U64)
    requires n >= 5 && SecondTerm(square, n).Ok?
    ensures square * C2(n) <= 2 * SecondTerm(square, n).value + 1
  {
    hide MulInt;
    MulIntExact(square, n);
    MulIntExact(MulInt(square, n).value, n - 1);
    MulAssoc(square, n, n - 1);
  }

  lemma ThirdTermBounds(cube: Fraction, n: U64)
    requires n >= 5 && ThirdTerm(cube, n).Ok?
    ensures cube * C3(n) <= 6 * ThirdTerm(cube, n).value + 5
  {
    hide MulInt;
    MulIntExact(cube, n);
    var a := MulInt(cube, n).value;
    MulIntExact(a, n - 1);
    MulIntExact(MulInt(a, n - 1).value, n - 2);
    MulAssoc(cube, n, n - 1);
    MulAssoc(cube, n * (n - 1), n - 2);
  }

  // ---- monotonicity -------------------------------------------------------

  /** A smaller rate compounds to no more, in all six branches, and never aborts
      where the larger rate does not. */
  lemma MonotoneInRate(low: Fraction, high: Fraction, slots: U64)
    requires low <= high && ApproximateCompoundedInterest(high, slots).Ok?
    ensures ApproximateCompoundedInterest(low, slots).Ok?
    ensures ApproximateCompoundedInterest(low, slots).value <= ApproximateCompoundedInterest(high, slots).value
  {
    hide MulFloor, SecondTerm, ThirdTerm, MulInt;
    DivMono(low, high, SLOTS_PER_YEAR);
    var b: nat, c: nat := SlotRate(low), SlotRate(high);
    hide SlotRate;
    if slots <= 4 {
      MulFloorMono(ONE + b, ONE + c, ONE + b, ONE + c);
      var p, q := MulFloor(ONE + b, ONE + b), MulFloor(ONE + c, ONE + c);
      MulFloorMono(p, q, ONE + b, ONE + c);
      MulFloorMono(p, q, p, q);
    } else {
      MulFloorMono(b, c, b, c);
      var p, q := MulFloor(b, b), MulFloor(c, c);
      MulFloorMono(p, q, b, c);
      MulIntMono(b, c, slots);
      SecondTermMono(p, q, slots);
      ThirdTermMono(MulFloor(p, b), MulFloor(q, c), slots);
    }
  }

  lemma SecondTermMono(a: Fraction, b: Fraction, n: U64)
    requires n >= 5 && a <= b && SecondTerm(b, n).Ok?
    ensures SecondTerm(a, n).Ok? && SecondTerm(a, n).value <= SecondTerm(b, n).value
  {
    hide MulInt, DivInt;
    MulIntMono(a, b, n);
    var x, y := MulInt(a, n).value, MulInt(b, n).value;
    MulIntMono(x, y, n - 1);
    DivIntMono(MulInt(x, n - 1).value, MulInt(y, n - 1).value, 2);
  }

  lemma ThirdTermMono(a: Fraction, b: Fraction, n: U64)
    requires n >= 5 && a <= b && ThirdTerm(b, n).Ok?
    ensures ThirdTerm(a, n).Ok? && ThirdTerm(a, n).value <= ThirdTerm(b, n).value
  {
    hide MulInt, DivInt;
    MulIntMono(a, b, n);
    var x, y := MulInt(a, n).value, MulInt(b, n).value;
    MulIntMono(x, y, n - 1);
    var u, v := MulInt(x, n - 1).value, MulInt(y, n - 1).value;
    MulIntMono(u, v, n - 2);
    DivIntMono(MulInt(u, n - 2).value, MulInt(v, n - 2).value, 6);
  }
}
