/** The piecewise-linear borrow rate curve (utils/borrow_rate_curve.rs). */
module BorrowRateCurve {
  import opened Results
  import opened Arithmetic
  import opened FixedPoint

  const MAX_UTILIZATION_RATE_BPS: U32 := 10_000
  const POINTS: nat := 11

  type U32 = x: int | 0 <= x < 0x1_0000_0000

  datatype CurvePoint = CurvePoint(utilization: U32, rate: U32)

  type Curve = c: seq<CurvePoint> | |c| == POINTS witness seq(POINTS, _ => CurvePoint(0, 0))

  /** What an accepted curve is: utilization starts at 0, rises strictly until it
      reaches 100% and then stays there to the end; rates never fall. */
  ghost predicate ValidCurve(c: Curve) {
    && c[0].utilization == 0
    && c[POINTS - 1].utilization == MAX_UTILIZATION_RATE_BPS
    && forall i :: 0 <= i < POINTS - 1 ==> ValidPair(c[i], c[i + 1])
  }

  predicate ValidPair(p: CurvePoint, q: CurvePoint) {
    && (if p.utilization == MAX_UTILIZATION_RATE_BPS
        then q.utilization == MAX_UTILIZATION_RATE_BPS
        else p.utilization < q.utilization)
    && p.rate <= q.rate
  }

  method Validate(c: Curve) returns (r: Result<()>)
    ensures r.Ok? <==> ValidCurve(c)
    ensures r.Err? ==> r.error == InvalidBorrowRateCurvePoint
  {
    if c[0].utilization != 0 {
      return Err(InvalidBorrowRateCurvePoint);
    }
    if c[10].utilization != MAX_UTILIZATION_RATE_BPS {
      return Err(InvalidBorrowRateCurvePoint);
    }
    var last := c[0];
    for i := 1 to POINTS
      invariant last == c[i - 1]
      invariant forall j :: 0 <= j < i - 1 ==> ValidPair(c[j], c[j + 1])
    {
      var pt := c[i];
      assert c[i - 1 + 1] == pt;
      if last.utilization == MAX_UTILIZATION_RATE_BPS {
        if pt.utilization != MAX_UTILIZATION_RATE_BPS {
          assert !ValidPair(c[i - 1], c[i - 1 + 1]);
          return Err(InvalidBorrowRateCurvePoint);
        }
      } else if pt.utilization <= last.utilization {
        assert !ValidPair(c[i - 1], c[i - 1 + 1]);
        return Err(InvalidBorrowRateCurvePoint);
      }
      if pt.rate < last.rate {
        assert !ValidPair(c[i - 1], c[i - 1 + 1]);
        return Err(InvalidBorrowRateCurvePoint);
      }
      last := pt;
    }
    return Ok(());
  }

  /** The points a curve may be built from: sorted, from 0 to 100%. */
  ghost predicate SortedPoints(pts: seq<CurvePoint>) {
    && 2 <= |pts| <= POINTS
    && pts[0].utilization == 0
    && pts[|pts| - 1].utilization == MAX_UTILIZATION_RATE_BPS
    && forall i :: 0 <= i < |pts| - 1 ==> ValidPair(pts[i], pts[i + 1])
  }

  lemma PaddingKeepsValidity(pts: seq<CurvePoint>, c: Curve)
    requires 2 <= |pts| <= POINTS && pts[|pts| - 1].utilization == MAX_UTILIZATION_RATE_BPS
    requires forall i :: 0 <= i < |pts| ==> c[i] == pts[i]
    requires forall i :: |pts| <= i < POINTS ==> c[i] == pts[|pts| - 1]
    ensures ValidCurve(c) <==> SortedPoints(pts)
  {
    if ValidCurve(c) {
      forall i | 0 <= i < |pts| - 1 ensures ValidPair(pts[i], pts[i + 1]) {
        assert ValidPair(c[i], c[i + 1]);
      }
    }
  }

  /** Fills the eleven slots, repeating the last point. */
  method FromPoints(pts: seq<CurvePoint>) returns (r: Result<Curve>)
    ensures r.Ok? <==> SortedPoints(pts)
    ensures r.Ok? ==> ValidCurve(r.value) && r.value[..|pts|] == pts
    ensures r.Ok? ==> forall i :: |pts| <= i < POINTS ==> r.value[i] == pts[|pts| - 1]
  {
    if |pts| < 2 || |pts| > 11 {
      return Err(InvalidBorrowRateCurvePoint);
    }
    var last := pts[|pts| - 1];
    if last.utilization != MAX_UTILIZATION_RATE_BPS {
      return Err(InvalidBorrowRateCurvePoint);
    }
    var points := new CurvePoint[11](_ => last);
    for i := 0 to |pts|
      invariant points[..i] == pts[..i]
      invariant forall j :: i <= j < POINTS ==> points[j] == last
    {
      points[i] := pts[i];
    }
    var curve: Curve := points[..];
    assert curve[..|pts|] == pts;
    assert forall i :: 0 <= i < |pts| ==> curve[i] == pts[i];
    PaddingKeepsValidity(pts, curve);
    var v := Validate(curve);
    if v.Err? {
      return Err(v.error);
    }
    return Ok(curve);
  }

  /** Utilization in whole basis points, half-way cases up. */
  function ToBps(f: Fraction): nat {
    Round(f * 10_000)
  }

  predicate Covers(c: Curve, i: nat, bps: nat)
    requires i < POINTS - 1
  {
    c[i].utilization <= bps <= c[i + 1].utilization
  }

  /** The first segment that covers the given utilization. */
  function FindSegment(c: Curve, bps: nat, from: nat): (r: Option<nat>)
    requires from <= POINTS - 1
    ensures r.Some? ==> from <= r.value < POINTS - 1 && Covers(c, r.value, bps)
    ensures r.Some? ==> forall j :: from <= j < r.value ==> !Covers(c, j, bps)
    ensures r.None? ==> forall j :: from <= j < POINTS - 1 ==> !Covers(c, j, bps)
    decreases POINTS - from
  {
    if from == POINTS - 1 then None
    else if Covers(c, from, bps) then Some(from)
    else FindSegment(c, bps, from + 1)
  }

  /** `CurveSegment::from_points` followed by `CurveSegment::get_borrow_rate`. */
  function SegmentRate(start: CurvePoint, end: CurvePoint, utilization: Fraction): Result<Fraction> {
    if end.rate < start.rate || end.utilization <= start.utilization then
      Err(InvalidBorrowRateCurvePoint)
    else
      var startUtilization := FromBps(start.utilization);
      if utilization < startUtilization then
        Err(InvalidUtilizationRate)
      else
        var nom :- MulInt(utilization - startUtilization, end.rate - start.rate);
        var base :- DivInt(nom, end.utilization - start.utilization);
        Add(base, FromBps(start.rate))
  }

  /** `BorrowRateCurve::get_borrow_rate`. */
  function GetBorrowRate(c: Curve, utilization: Fraction): Result<Fraction> {
    var u: Fraction := if utilization > ONE then ONE else utilization;
    var bps := ToBps(u);
    match FindSegment(c, bps, 0)
    case None => Err(Panic)
    case Some(i) =>
      if bps == c[i].utilization then Ok(FromBps(c[i].rate))
      else if bps == c[i + 1].utilization then Ok(FromBps(c[i + 1].rate))
      else SegmentRate(c[i], c[i + 1], u)
  }

  lemma FromBpsMono(a: U32, b: U32)
    requires a <= b
    ensures FromBps(a) <= FromBps(b)
  {
    DivMono(a * ONE, b * ONE, 10_000);
  }

  lemma {:induction false} PointsOrdered(c: Curve, i: nat, j: nat)
    requires ValidCurve(c) && i <= j < POINTS
    ensures c[i].rate <= c[j].rate && c[i].utilization <= c[j].utilization
    decreases j - i
  {
    if i == j {
    } else {
      assert ValidPair(c[j - 1], c[j - 1 + 1]);
      PointsOrdered(c, i, j - 1);
    }
  }

  lemma {:induction false} SegmentExists(c: Curve, bps: nat, from: nat)
    requires ValidCurve(c) && from < POINTS - 1
    requires c[from].utilization <= bps <= MAX_UTILIZATION_RATE_BPS
    ensures FindSegment(c, bps, from).Some?
    decreases POINTS - from
  {
    if Covers(c, from, bps) {
    } else {
      SegmentExists(c, bps, from + 1);
    }
  }

  /** Interpolating less than the whole width rises by less than the whole height. */
  lemma InterpolationBound(coef: nat, num: nat, den: nat, one: nat)
    requires den > 0 && 10_000 * coef <= one * den
    ensures 10_000 * (coef * num / den) <= num * one
  {
    var base := coef * num / den;
    DivBounds(coef * num, den);
    MulLeft(num, 10_000 * coef, one * den);
    assert num * (10_000 * coef) == 10_000 * (coef * num);
    assert num * (one * den) == den * (num * one);
    assert den * (10_000 * base) == 10_000 * (den * base);
    MulCancel(den, 10_000 * base, num * one);
  }

  /** The snapped utilization brackets the offset into the segment. */
  lemma OffsetIntoSegment(start: U32, end: U32, u: Fraction)
    requires start < ToBps(u) < end <= MAX_UTILIZATION_RATE_BPS
    ensures FromBps(start) <= u
    ensures 10_000 * (u - FromBps(start)) <= ONE * (end - start)
  {
  }

  lemma BpsSum(low: U32, high: U32, base: nat)
    requires low <= high && 10_000 * base <= (high - low) * ONE
    ensures base + FromBps(low) <= FromBps(high) < TWO_128
  {
    DivBounds(low * ONE, 10_000);
    LeDiv(base + FromBps(low), high * ONE, 10_000);
  }

  /** Strictly inside a segment the interpolation is defined and stays between its
      end rates, whatever the snapping of utilization to basis points did. */
  lemma SegmentRateBetween(start: CurvePoint, end: CurvePoint, u: Fraction)
    requires u <= ONE
    requires start.rate <= end.rate
    requires start.utilization < ToBps(u) < end.utilization <= MAX_UTILIZATION_RATE_BPS
    ensures SegmentRate(start, end, u).Ok?
    ensures FromBps(start.rate) <= SegmentRate(start, end, u).value <= FromBps(end.rate)
  {
    hide FromBps, ToBps;
    OffsetIntoSegment(start.utilization, end.utilization, u);
    var coef: nat := u - FromBps(start.utilization);
    var num: nat := end.rate - start.rate;
    var den: nat := end.utilization - start.utilization;
    var nom: nat := coef * num;
    assert nom < TWO_128 by { MulMono(coef, ONE, num, 0x1_0000_0000); }
    InterpolationBound(coef, num, den, ONE);
    DivAntitone(nom, 1, den);
    BpsSum(start.rate, end.rate, nom / den);
  }

  /** Where the rate of a valid curve lies: within the rates of the segment found. */
  lemma RateInSegment(c: Curve, u: Fraction) returns (i: nat)
    requires ValidCurve(c) && u <= ONE
    ensures i < POINTS - 1 && FindSegment(c, ToBps(u), 0) == Some(i)
    ensures GetBorrowRate(c, u).Ok?
    ensures FromBps(c[i].rate) <= GetBorrowRate(c, u).value <= FromBps(c[i + 1].rate)
  {
    assert ToBps(u) <= MAX_UTILIZATION_RATE_BPS;
    SegmentExists(c, ToBps(u), 0);
    i := FindSegment(c, ToBps(u), 0).value;
    PointsOrdered(c, i, i + 1);
    PointsOrdered(c, i + 1, POINTS - 1);
    FromBpsMono(c[i].rate, c[i + 1].rate);
    if c[i].utilization < ToBps(u) < c[i + 1].utilization {
      SegmentRateBetween(c[i], c[i + 1], u);
    }
  }

  /** An accepted curve always has a rate, between its first and last rates. */
  lemma RateTotalAndBounded(c: Curve, utilization: Fraction)
    requires ValidCurve(c)
    ensures GetBorrowRate(c, utilization).Ok?
    ensures FromBps(c[0].rate) <= GetBorrowRate(c, utilization).value <= FromBps(c[POINTS - 1].rate)
  {
    var u: Fraction := if utilization > ONE then ONE else utilization;
    var i := RateInSegment(c, u);
    PointsOrdered(c, 0, i);
    PointsOrdered(c, i + 1, POINTS - 1);
    FromBpsMono(c[0].rate, c[i].rate);
    FromBpsMono(c[i + 1].rate, c[POINTS - 1].rate);
  }

  /** Within one segment the interpolation is monotone. */
  lemma SegmentRateMonotone(start: CurvePoint, end: CurvePoint, u: Fraction, v: Fraction)
    requires u <= v
    requires SegmentRate(start, end, u).Ok? && SegmentRate(start, end, v).Ok?
    ensures SegmentRate(start, end, u).value <= SegmentRate(start, end, v).value
  {
    var s := FromBps(start.utilization);
    var num := end.rate - start.rate;
    MulMono(u - s, v - s, num, num);
    DivMono((u - s) * num, (v - s) * num, end.utilization - start.utilization);
  }

  lemma SegmentOrder(c: Curve, a: nat, b: nat, i: nat, j: nat)
    requires ValidCurve(c) && a <= b
    requires i < POINTS - 1 && j < POINTS - 1
    requires FindSegment(c, a, 0) == Some(i) && FindSegment(c, b, 0) == Some(j)
    ensures i <= j
  {
    if j < i {
      PointsOrdered(c, 0, j);
      PointsOrdered(c, j + 1, i);
      assert !Covers(c, j, a);
      assert c[j].utilization > a;
      PointsOrdered(c, j, i);
    }
  }

  /** The borrow rate of an accepted curve never falls as utilization rises: not
      inside a segment, not across joins and snapping, not at the clamp at 100%. */
  lemma RateMonotone(c: Curve, u: Fraction, v: Fraction)
    requires ValidCurve(c) && u <= v
    ensures GetBorrowRate(c, u).Ok? && GetBorrowRate(c, v).Ok?
    ensures GetBorrowRate(c, u).value <= GetBorrowRate(c, v).value
  {
    hide FromBps;
    var x: Fraction := if u > ONE then ONE else u;
    var y: Fraction := if v > ONE then ONE else v;
    DivMono(x * 10_000 + ONE / 2, y * 10_000 + ONE / 2, ONE);
    var i := RateInSegment(c, x);
    var j := RateInSegment(c, y);
    SegmentOrder(c, ToBps(x), ToBps(y), i, j);
    if i < j {
      PointsOrdered(c, i + 1, j);
      FromBpsMono(c[i + 1].rate, c[j].rate);
    } else if c[i].utilization < ToBps(x) && ToBps(y) < c[i + 1].utilization {
      SegmentRateMonotone(c[i], c[i + 1], x, y);
    }
  }

  // ---- what the rate is ---------------------------------------------------

  /** Utilization, capped at 100%. */
  function Capped(u: Fraction): Fraction {
    if u > ONE then ONE else u
  }

  /** Snapping picks the nearest basis point, the upper one half-way. */
  lemma SnapsToNearest(u: Fraction, bps: nat)
    ensures ToBps(u) == bps <==> 2 * bps * ONE <= 2 * (u * 10_000) + ONE < 2 * (bps + 1) * ONE
  {
    var n := u * 10_000 + ONE / 2;
    DivBounds(n, ONE);
    if 2 * bps * ONE <= 2 * n < 2 * (bps + 1) * ONE {
      DivUnique(n, ONE, bps);
    }
  }

  lemma SegmentOfPoint(c: Curve, i: nat)
    requires ValidCurve(c) && 0 < i < POINTS && c[i - 1].utilization < c[i].utilization
    ensures FindSegment(c, c[i].utilization, 0) == Some(i - 1)
  {
    var k := c[i].utilization;
    PointsOrdered(c, i, POINTS - 1);
    SegmentExists(c, k, 0) by { PointsOrdered(c, 0, i); }
    var j := FindSegment(c, k, 0).value;
    assert Covers(c, i - 1, k);
    if j < i - 1 { PointsOrdered(c, j + 1, i - 1); }
  }

  /** At a point of the curve, and within half a basis point of it, the rate is that
      point's; where several points share a utilization it is the first one's. */
  lemma RateAtPoint(c: Curve, u: Fraction, i: nat)
    requires ValidCurve(c) && i < POINTS && (i == 0 || c[i - 1].utilization < c[i].utilization)
    requires 2 * c[i].utilization * ONE <= 2 * (Capped(u) * 10_000) + ONE < 2 * (c[i].utilization + 1) * ONE
    ensures GetBorrowRate(c, u) == Ok(FromBps(c[i].rate))
  {
    hide FromBps, ToBps, SegmentRate;
    SnapsToNearest(Capped(u), c[i].utilization);
    if i == 0 {
      assert Covers(c, 0, 0) by { assert ValidPair(c[0], c[0 + 1]); }
    } else {
      SegmentOfPoint(c, i);
    }
  }

  lemma SegmentBetween(c: Curve, i: nat, bps: nat)
    requires ValidCurve(c) && i < POINTS - 1 && c[i].utilization < bps < c[i + 1].utilization
    ensures FindSegment(c, bps, 0) == Some(i)
  {
    PointsOrdered(c, 0, i);
    PointsOrdered(c, i + 1, POINTS - 1);
    SegmentExists(c, bps, 0);
    var j := FindSegment(c, bps, 0).value;
    assert Covers(c, i, bps);
    if j < i { PointsOrdered(c, j + 1, i); }
  }

  /** Everywhere else it lies on the straight line between the two points around it,
      rounded down. */
  lemma RateBetweenPoints(c: Curve, u: Fraction, i: nat)
    requires ValidCurve(c) && i < POINTS - 1
    requires 2 * (c[i].utilization + 1) * ONE <= 2 * (Capped(u) * 10_000) + ONE < 2 * c[i + 1].utilization * ONE
    ensures GetBorrowRate(c, u).Ok? && FromBps(c[i].utilization) <= Capped(u)
    ensures var rise := GetBorrowRate(c, u).value - FromBps(c[i].rate);
      var du, dr := c[i + 1].utilization - c[i].utilization, c[i + 1].rate - c[i].rate;
      rise * du <= (Capped(u) - FromBps(c[i].utilization)) * dr < rise * du + du
  {
    hide FromBps, ToBps;
    var w := Capped(u);
    var bps := ToBps(w);
    SnapsToNearest(w, bps);
    SegmentBetween(c, i, bps);
    PointsOrdered(c, i, i + 1);
    PointsOrdered(c, i + 1, POINTS - 1);
    SegmentRateBetween(c[i], c[i + 1], w);
    OffsetIntoSegment(c[i].utilization, c[i + 1].utilization, w);
    LineFloored(c[i], c[i + 1], w);
  }

  lemma LineFloored(start: CurvePoint, end: CurvePoint, u: Fraction)
    requires SegmentRate(start, end, u).Ok?
    ensures start.utilization < end.utilization && FromBps(start.utilization) <= u
    ensures var rise := SegmentRate(start, end, u).value - FromBps(start.rate);
      var du, dr := end.utilization - start.utilization, end.rate - start.rate;
      rise * du <= (u - FromBps(start.utilization)) * dr < rise * du + du
  {
    hide FromBps;
    var num: nat, den: nat := end.rate - start.rate, end.utilization - start.utilization;
    var coef: nat := u - FromBps(start.utilization);
    assert coef * num >= 0 by { MulLeft(num, 0, coef); }
    DivBounds(coef * num, den);
  }
}
