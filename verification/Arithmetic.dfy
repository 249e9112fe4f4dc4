/** Floor division and products of natural numbers: the lemmas every rounding
    argument of the project rests on. */
module Arithmetic {
  function Min(a: int, b: int): int {
    if a <= b then a else b
  }

  function Max(a: int, b: int): int {
    if a >= b then a else b
  }

  /** Rounding up, as `(n + d - 1) / d`. */
  function CeilDiv(n: nat, d: nat): nat
    requires d > 0
  {
    (n + d - 1) / d
  }

  lemma MulMono(a: nat, b: nat, c: nat, d: nat)
    requires a <= b && c <= d
    ensures a * c <= b * d
  {
    assert a * c <= b * c by { MulLeft(c, a, b); }
    assert b * c <= b * d by { MulLeft(b, c, d); }
  }

  lemma MulLeft(k: nat, a: int, b: int)
    requires a <= b
    ensures k * a <= k * b && a * k <= b * k
  {
    assert k * (b - a) >= 0;
  }

  lemma MulSwap(a: int, b: int, c: int)
    ensures a * (b * c) == b * (a * c)
  {
  }

  lemma MulAssoc(a: int, b: int, c: int)
    ensures a * (b * c) == (a * b) * c
  {
  }

  lemma MulSwap4(a: int, b: int, c: int, d: int)
    ensures (a * b) * (c * d) == (a * c) * (b * d)
  {
    MulAssoc(a, b, c * d);
    MulSwap(b, c, d);
    MulAssoc(a, c, b * d);
  }

  /** A bound on `k * y` holds for anything below `y`. */
  lemma MulThrough(k: nat, x: int, y: int, z: int)
    requires x <= y && k * y <= z
    ensures k * x <= z
  {
    MulLeft(k, x, y);
  }

  lemma MulCancel(k: nat, a: int, b: int)
    requires k > 0 && k * a <= k * b
    ensures a <= b
  {
    if a > b {
      MulLeft(k, b + 1, a);
    }
  }

  lemma MulCancelStrict(k: nat, a: int, b: int)
    requires k * a < k * b
    ensures a < b
  {
    if a >= b {
      MulLeft(k, b, a);
    }
  }

  /** The defining inequality of floor division. */
  lemma DivBounds(n: nat, d: nat)
    requires d > 0
    ensures d * (n / d) <= n < d * (n / d) + d
    ensures (n / d) * d <= n < (n / d) * d + d
  {
    assert n == d * (n / d) + n % d;
  }

  lemma LeDiv(q: int, n: nat, d: nat)
    requires d > 0 && q * d <= n
    ensures q <= n / d
  {
    DivBounds(n, d);
    if q > n / d {
      MulLeft(d, n / d + 1, q);
    }
  }

  lemma DivLe(n: nat, d: nat, q: nat)
    requires d > 0 && n < (q + 1) * d
    ensures n / d <= q
  {
    DivBounds(n, d);
    if n / d > q {
      MulLeft(d, q + 1, n / d);
    }
  }

  lemma DivMono(a: nat, b: nat, d: nat)
    requires d > 0 && a <= b
    ensures a / d <= b / d
  {
    DivBounds(a, d);
    LeDiv(a / d, b, d);
  }

  /** A larger divisor gives a smaller quotient. */
  lemma DivAntitone(n: nat, d: nat, e: nat)
    requires 0 < d <= e
    ensures n / e <= n / d
  {
    DivBounds(n, e);
    MulLeft(n / e, d, e);
    LeDiv(n / e, n, d);
  }

  /** The quotient is the only number with the defining inequality. */
  lemma DivUnique(n: nat, d: nat, q: nat)
    requires d > 0 && d * q <= n < d * q + d
    ensures n / d == q
  {
    var k := n / d;
    DivBounds(n, d);
    assert d * q < d * (k + 1) by { assert d * (k + 1) == d * k + d; }
    MulCancelStrict(d, q, k + 1);
    assert d * k < d * (q + 1) by { assert d * (q + 1) == d * q + d; }
    MulCancelStrict(d, k, q + 1);
  }

  lemma DivExact(q: nat, d: nat)
    requires d > 0
    ensures q * d / d == q && d * q / d == q
  {
    var n := d * q;
    assert q * d == n;
    DivUnique(n, d, q);
  }

  /** Nested floors collapse: `floor(floor(n/a)/b) == floor(n/(a*b))`. */
  lemma NestedDiv(n: nat, a: nat, b: nat)
    requires a > 0 && b > 0
    ensures a * b > 0
    ensures n / a / b == n / (a * b)
  {
    MulLeft(a, 1, b);
    var d := a * b;
    var k := n / a;
    var q := k / b;
    DivBounds(n, a);
    DivBounds(k, b);
    NestedBounds(n, a, b, k, q);
    DivUnique(n, d, q);
  }

  lemma NestedBounds(n: nat, a: nat, b: nat, k: nat, q: nat)
    requires a * k <= n < a * k + a && b * q <= k < b * q + b
    ensures (a * b) * q <= n < (a * b) * q + a * b
  {
    MulLeft(a, b * q, k);
    MulLeft(a, k + 1, b * q + b);
    MulAssoc(a, b, q);
    assert a * (k + 1) == a * k + a;
    assert a * (b * q + b) == a * (b * q) + a * b;
  }

  lemma CeilBounds(n: nat, d: nat)
    requires d > 0
    ensures n <= CeilDiv(n, d) * d < n + d
  {
    DivBounds(n + d - 1, d);
  }

  lemma CeilLe(n: nat, d: nat, q: nat)
    requires d > 0 && n <= q * d
    ensures CeilDiv(n, d) <= q
  {
    DivLe(n + d - 1, d, q);
  }

  lemma CeilMono(a: nat, b: nat, d: nat)
    requires d > 0 && a <= b
    ensures CeilDiv(a, d) <= CeilDiv(b, d)
  {
    DivMono(a + d - 1, b + d - 1, d);
  }

  /** Nested ceilings collapse like nested floors. */
  lemma NestedCeil(n: nat, a: nat, b: nat)
    requires a > 0 && b > 0
    ensures a * b > 0
    ensures CeilDiv(CeilDiv(n, a), b) == CeilDiv(n, a * b)
  {
    assert a * b > 0;
    var c := CeilDiv(n, a);
    var q := CeilDiv(c, b);
    CeilBounds(n, a);
    CeilBounds(c, b);
    assert n <= q * (a * b) by {
      MulLeft(a, c, q * b);
      assert a * (q * b) == q * (a * b);
    }
    CeilLe(n, a * b, q);
    var p := CeilDiv(n, a * b);
    CeilBounds(n, a * b);
    assert n <= p * b * a by { assert p * (a * b) == p * b * a; }
    CeilLe(n, a, p * b);
    CeilLe(c, b, p);
  }

  function Pow(b: nat, e: nat): (r: nat)
    ensures b > 0 ==> r > 0
  {
    if e == 0 then 1 else
      var p := Pow(b, e - 1);
      assert b > 0 && p > 0 ==> b * p > 0;
      b * p
  }
}
