/** Debts accrue lazily: the reserve compounds its total and a cumulative rate,
    each obligation catches up with the rate when it is refreshed
    (state/reserve.rs:597-616, state/obligation.rs:599-622). */
module LazyInterest {
  import opened Results
  import opened Arithmetic
  import opened FixedPoint
  import opened Obligations

  /** A sequence of accruals, as the factors the reserve compounds with. */
  ghost predicate Factors(fs: seq<nat>) {
    forall i :: 0 <= i < |fs| ==> fs[i] >= ONE
  }

  /** The reserve's quantity (its total debt, or its cumulative rate) after the accruals. */
  function Compound(x: nat, fs: seq<nat>): nat {
    if fs == [] then x else MulFloor(Compound(x, fs[..|fs| - 1]), fs[|fs| - 1])
  }

  function Product(fs: seq<nat>): nat {
    if fs == [] then 1 else Product(fs[..|fs| - 1]) * fs[|fs| - 1]
  }

  /** One obligation's debt, caught up once from rate `from` to rate `until`. */
  function CaughtUp(debt: nat, from: nat, until: nat): nat
    requires from > 0
  {
    debt * until / from
  }

  function TotalCaughtUp(debts: seq<nat>, from: nat, until: nat): nat
    requires from > 0
  {
    if debts == [] then 0
    else TotalCaughtUp(debts[..|debts| - 1], from, until) + CaughtUp(debts[|debts| - 1], from, until)
  }

  function Total(debts: seq<nat>): nat {
    if debts == [] then 0 else Total(debts[..|debts| - 1]) + debts[|debts| - 1]
  }

  lemma {:induction false} ProductAtLeast(fs: seq<nat>)
    requires Factors(fs)
    ensures Product(fs) >= Pow(ONE, |fs|)
  {
    if fs == [] {
    } else {
      var n := |fs| - 1;
      ProductAtLeast(fs[..n]);
      MulMono(ONE, fs[n], Pow(ONE, n), Product(fs[..n]));
      assert Pow(ONE, |fs|) == ONE * Pow(ONE, n);
    }
  }

  /** Compounding floors, so it stays below the exact product. */
  lemma {:induction false} CompoundAtMostProduct(x: nat, fs: seq<nat>)
    ensures Compound(x, fs) * Pow(ONE, |fs|) <= x * Product(fs)
  {
    if fs == [] {
    } else {
      var n := |fs| - 1;
      var c, f, p := Compound(x, fs[..n]), fs[n], Pow(ONE, n);
      CompoundAtMostProduct(x, fs[..n]);
      MulBounds(c, f);
      assert Pow(ONE, |fs|) == ONE * p;
      FloorStepBelow(MulFloor(c, f), c, f, p, ONE, x * Product(fs[..n]));
      assert x * Product(fs[..n]) * f == x * Product(fs) by { MulAssoc(x, Product(fs[..n]), f); }
    }
  }

  lemma FloorStepBelow(q: nat, c: nat, f: nat, p: nat, o: nat, bound: nat)
    requires q * o <= c * f && c * p <= bound
    ensures q * (o * p) <= bound * f
  {
    MulLeft(p, q * o, c * f);
    MulLeft(f, c * p, bound);
    assert q * (o * p) == p * (q * o);
    assert p * (c * f) == f * (c * p);
  }

  /** ... and by less than one full product per accrual. */
  lemma {:induction false} CompoundAlmostProduct(x: nat, fs: seq<nat>)
    requires Factors(fs)
    ensures x * Product(fs) <= Compound(x, fs) * Pow(ONE, |fs|) + |fs| * Product(fs)
    ensures fs != [] ==> x * Product(fs) < Compound(x, fs) * Pow(ONE, |fs|) + |fs| * Product(fs)
  {
    if fs == [] {
    } else {
      var n := |fs| - 1;
      var front := fs[..n];
      CompoundAlmostProduct(x, front);
      ProductAtLeast(front);
      MulBounds(Compound(x, front), fs[n]);
      assert Pow(ONE, |fs|) == ONE * Pow(ONE, n);
      AlmostStep(x, Product(front), Compound(x, front), Pow(ONE, n), n, fs[n], MulFloor(Compound(x, front), fs[n]), ONE);
    }
  }

  lemma AlmostStep(x: nat, product: nat, c: nat, p: nat, n: nat, f: nat, q: nat, o: nat)
    requires x * product <= c * p + n * product
    requires p > 0 && product >= p && f >= o > 0
    requires c * f < q * o + o
    ensures x * (product * f) < q * (o * p) + (n + 1) * (product * f)
  {
    assert x * (product * f) <= p * (c * f) + n * (product * f) by { ScaledBound(x, product, c, p, n, f); }
    assert p * (c * f) < q * (o * p) + p * o by { RoundedStep(c * f, q, p, o); }
    assert p * o <= product * f by { MulMono(p, product, o, f); }
    assert (n + 1) * (product * f) == n * (product * f) + product * f;
  }

  lemma ScaledBound(x: nat, product: nat, c: nat, p: nat, n: nat, f: nat)
    requires x * product <= c * p + n * product
    ensures x * (product * f) <= p * (c * f) + n * (product * f)
  {
    MulLeft(f, x * product, c * p + n * product);
    MulSwap(f, x, product);
    MulSwap(f, c, p);
    MulSwap(p, c, f);
    MulSwap(f, n, product);
    assert f * (c * p + n * product) == f * (c * p) + f * (n * product);
    assert f * product == product * f && f * p == p * f;
  }

  lemma RoundedStep(cf: nat, q: nat, p: nat, o: nat)
    requires p > 0 && cf < q * o + o
    ensures p * cf < q * (o * p) + p * o
  {
    MulStrict(p, cf, q * o + o);
    MulSwap(p, q, o);
    assert p * (q * o + o) == p * (q * o) + p * o;
  }

  lemma MulStrict(k: nat, a: int, b: int)
    requires k > 0 && a < b
    ensures k * a < k * b
  {
    MulLeft(k, a + 1, b);
    assert k * (a + 1) == k * a + k;
  }

  /** A debt caught up lazily stays below its exact growth. */
  lemma CaughtUpBelow(debt: nat, rate: nat, fs: seq<nat>)
    requires rate > 0
    ensures CaughtUp(debt, rate, Compound(rate, fs)) * Pow(ONE, |fs|) <= debt * Product(fs)
  {
    hide Compound, Product;
    CompoundAtMostProduct(rate, fs);
    CaughtUpScaled(debt, rate, Compound(rate, fs), Pow(ONE, |fs|), Product(fs));
  }

  lemma CaughtUpScaled(debt: nat, rate: nat, last: nat, p: nat, product: nat)
    requires rate > 0 && last * p <= rate * product
    ensures CaughtUp(debt, rate, last) * p <= debt * product
  {
    var q := CaughtUp(debt, rate, last);
    DivBounds(debt * last, rate);
    MulLeft(p, q * rate, debt * last);
    MulLeft(debt, last * p, rate * product);
    MulSwap(p, debt, last);
    MulSwap(p, q, rate);
    MulSwap(debt, rate, product);
    assert p * rate == rate * p && q * (p * rate) == rate * (q * p) by { MulSwap(q, rate, p); }
    assert debt * (p * last) == debt * (last * p);
    MulCancel(rate, q * p, debt * product);
  }

  lemma {:induction false} TotalCaughtUpBelow(debts: seq<nat>, rate: nat, fs: seq<nat>)
    requires rate > 0
    ensures TotalCaughtUp(debts, rate, Compound(rate, fs)) * Pow(ONE, |fs|) <= Total(debts) * Product(fs)
  {
    if debts == [] {
    } else {
      var n := |debts| - 1;
      var last := Compound(rate, fs);
      TotalCaughtUpBelow(debts[..n], rate, fs);
      CaughtUpBelow(debts[n], rate, fs);
      SumTimes(TotalCaughtUp(debts[..n], rate, last), CaughtUp(debts[n], rate, last), Pow(ONE, |fs|));
      SumTimes(Total(debts[..n]), debts[n], Product(fs));
    }
  }

  lemma SumTimes(a: nat, b: nat, k: nat)
    ensures (a + b) * k == a * k + b * k
  {
  }

  /** If the obligations' debts added up to at most the reserve's, then after any number of
      accruals (k of them) the debts caught up lazily exceed what the reserve compounded
      eagerly by less than k times the product of the growth factors, in ulps. */
  lemma LazyFollowsEager(debts: seq<nat>, reserveDebt: nat, rate: nat, fs: seq<nat>)
    requires rate > 0 && Factors(fs) && fs != [] && Total(debts) <= reserveDebt
    ensures TotalCaughtUp(debts, rate, Compound(rate, fs)) * Pow(ONE, |fs|) <
      Compound(reserveDebt, fs) * Pow(ONE, |fs|) + |fs| * Product(fs)
  {
    TotalCaughtUpBelow(debts, rate, fs);
    MulMono(Total(debts), reserveDebt, Product(fs), Product(fs));
    CompoundAlmostProduct(reserveDebt, fs);
  }

  // ---- catching up more often ---------------------------------------------

  /** The debt after catching up at every one of a sequence of rates. */
  function CaughtUpAtEach(debt: nat, from: nat, rates: seq<nat>): nat
    requires from > 0 && forall i :: 0 <= i < |rates| ==> rates[i] > 0
    decreases |rates|
  {
    if rates == [] then debt else CaughtUpAtEach(CaughtUp(debt, from, rates[0]), rates[0], rates[1..])
  }

  lemma TwoStepsAtMostOne(debt: nat, from: nat, mid: nat, until: nat)
    requires from > 0 && mid > 0
    ensures CaughtUp(CaughtUp(debt, from, mid), mid, until) <= CaughtUp(debt, from, until)
  {
    var q := CaughtUp(debt, from, mid);
    var r := CaughtUp(q, mid, until);
    DivBounds(debt * mid, from);
    DivBounds(q * until, mid);
    MulLeft(from, r * mid, q * until);
    MulLeft(until, q * from, debt * mid);
    assert from * (q * until) == until * (q * from);
    assert until * (debt * mid) == mid * (debt * until);
    assert from * (r * mid) == mid * (r * from);
    MulCancel(mid, r * from, debt * until);
    LeDiv(r, debt * until, from);
  }

  /** Refreshing an obligation more often never charges it more than refreshing it once. */
  lemma {:induction false} OftenAtMostOnce(debt: nat, from: nat, rates: seq<nat>)
    requires from > 0 && rates != [] && forall i :: 0 <= i < |rates| ==> rates[i] > 0
    ensures CaughtUpAtEach(debt, from, rates) <= CaughtUp(debt, from, rates[|rates| - 1])
    decreases |rates|
  {
    hide CaughtUp;
    var last := rates[|rates| - 1];
    if |rates| == 1 {
      assert rates[1..] == [];
    } else {
      assert rates[1..][|rates| - 2] == last;
      OftenAtMostOnce(CaughtUp(debt, from, rates[0]), rates[0], rates[1..]);
      TwoStepsAtMostOne(debt, from, rates[0], last);
    }
  }

  /** The program's accrual of one debt is `CaughtUp`; it fails only for a falling rate or width. */
  lemma AccruedDebtIsCaughtUp(b: Borrow, rate: U256)
    requires 0 < b.cumulativeRate <= rate
    ensures AccruedDebt(b, rate).Ok? <==>
      rate == b.cumulativeRate || (b.borrowed * rate < TWO_256 && CaughtUp(b.borrowed, b.cumulativeRate, rate) < TWO_128)
    ensures AccruedDebt(b, rate).Ok? ==>
      var a := AccruedDebt(b, rate).value;
      a.borrowed == CaughtUp(b.borrowed, b.cumulativeRate, rate) && a == b.(borrowed := a.borrowed, cumulativeRate := rate)
  {
    var product := b.borrowed * rate;
    assert product >= 0 by { MulLeft(rate, 0, b.borrowed); }
    DivExact(b.borrowed, b.cumulativeRate);
  }
}
