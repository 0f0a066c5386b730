/** The chart's monotone curve (apps/web/lib/monotone-curve.ts), over exact reals. */
module MonotoneCurve {
  import opened Cubic
  import opened Reals

  datatype Interval = Interval(from: Point, to: Point, slope: real)

  function IntervalAt(points: seq<Point>, i: nat): Interval
    requires i + 1 < |points| && points[i].x < points[i + 1].x
  {
    Interval(points[i], points[i + 1], Slope(points[i], points[i + 1]))
  }

  function Intervals(points: seq<Point>): seq<Interval>
    requires LeftToRight(points)
  {
    seq(if points == [] then 0 else |points| - 1, i requires 0 <= i < |points| - 1 => IntervalAt(points, i))
  }

  method IntervalsBetween(points: seq<Point>) returns (intervals: seq<Interval>)
    requires LeftToRight(points)
    ensures intervals == Intervals(points)
  {
    intervals := [];
    var index := 1;
    while index < |points|
      invariant 1 <= index && (points != [] ==> index <= |points|) && (points == [] ==> index == 1)
      invariant |intervals| == index - 1
      invariant forall i | 0 <= i < |intervals| :: i + 1 < |points| && intervals[i] == IntervalAt(points, i)
    {
      var from, to := points[index - 1], points[index];
      intervals := intervals + [Interval(from, to, (to.y - from.y) / (to.x - from.x))];
      index := index + 1;
    }
  }

  function InitialTangentAt(intervals: seq<Interval>, i: nat): real
    requires intervals != [] && i <= |intervals|
  {
    if i == 0 then intervals[0].slope
    else if i == |intervals| then intervals[i - 1].slope
    else if intervals[i - 1].slope * intervals[i].slope > 0.0 then (intervals[i - 1].slope + intervals[i].slope) / 2.0
    else 0.0
  }

  function TangentsBefore(intervals: seq<Interval>): seq<real> {
    if intervals == [] then []
    else seq(|intervals| + 1, i requires 0 <= i <= |intervals| => InitialTangentAt(intervals, i))
  }

  method InitialTangents(intervals: seq<Interval>) returns (tangents: seq<real>)
    ensures tangents == TangentsBefore(intervals)
  {
    if intervals == [] {
      return [];
    }
    tangents := [intervals[0].slope];
    for index := 1 to |intervals|
      invariant |tangents| == index
      invariant forall i | 0 <= i < index :: tangents[i] == InitialTangentAt(intervals, i)
    {
      var before, after := intervals[index - 1], intervals[index];
      var monotone := before.slope * after.slope > 0.0;
      tangents := tangents + [if monotone then (before.slope + after.slope) / 2.0 else 0.0];
    }
    tangents := tangents + [intervals[|intervals| - 1].slope];
  }

  /** `Math.hypot`: the non-negative root of the sum of squares. */
  ghost predicate IsHypot(hypot: (real, real) -> real) {
    forall a, b :: hypot(a, b) >= 0.0 && hypot(a, b) * hypot(a, b) == a * a + b * b
  }

  function Ratio(tangent: real, slope: real): real
    requires slope != 0.0
  {
    tangent / slope
  }

  /** A tangent drawn onto the circle of radius 3 around the origin, in units of the slope. */
  function DrawnIn(tangent: real, slope: real, radius: real): real
    requires slope != 0.0 && radius != 0.0
  {
    (3.0 * Ratio(tangent, slope) * slope) / radius
  }

  /** One pass of the clamping loop: both tangents of interval `i`, the second of which the next
      pass sees again. */
  function ClampStep(intervals: seq<Interval>, tangents: seq<real>, i: nat, hypot: (real, real) -> real): seq<real>
    requires i < |intervals| && |tangents| == |intervals| + 1
  {
    var slope := intervals[i].slope;
    if slope == 0.0 then tangents[i := 0.0][i + 1 := 0.0]
    else
      var radius := hypot(Ratio(tangents[i], slope), Ratio(tangents[i + 1], slope));
      if radius <= 3.0 then tangents
      else tangents[i := DrawnIn(tangents[i], slope, radius)][i + 1 := DrawnIn(tangents[i + 1], slope, radius)]
  }

  function Clamped(intervals: seq<Interval>, tangents: seq<real>, n: nat, hypot: (real, real) -> real): (r: seq<real>)
    requires n <= |intervals| && |tangents| == |intervals| + 1
    ensures |r| == |tangents|
  {
    if n == 0 then tangents else ClampStep(intervals, Clamped(intervals, tangents, n - 1, hypot), n - 1, hypot)
  }

  lemma NothingClamped(intervals: seq<Interval>, tangents: seq<real>, hypot: (real, real) -> real)
    requires |tangents| == |intervals| + 1
    ensures Clamped(intervals, tangents, 0, hypot) == tangents
  {
  }

  lemma ClampOneMore(intervals: seq<Interval>, tangents: seq<real>, n: nat, hypot: (real, real) -> real)
    requires n < |intervals| && |tangents| == |intervals| + 1
    ensures Clamped(intervals, tangents, n + 1, hypot)
            == ClampStep(intervals, Clamped(intervals, tangents, n, hypot), n, hypot)
  {
  }

  /** The loop that rewrites a copy of the tangents in place. */
  method ClampTangentsToMonotone(intervals: seq<Interval>, tangents: seq<real>, hypot: (real, real) -> real)
    returns (clamped: array<real>)
    requires |tangents| == if intervals == [] then 0 else |intervals| + 1
    ensures fresh(clamped)
    ensures clamped[..] == if intervals == [] then [] else Clamped(intervals, tangents, |intervals|, hypot)
  {
    hide DrawnIn, Ratio, LeftToRight, Clamped;
    clamped := new real[|tangents|](i requires 0 <= i < |tangents| => tangents[i]);
    assert clamped[..] == tangents;
    if intervals != [] {
      NothingClamped(intervals, tangents, hypot);
    }
    for index := 0 to |intervals|
      invariant intervals != [] ==> clamped[..] == Clamped(intervals, tangents, index, hypot)
    {
      var slope, entering, leaving := intervals[index].slope, clamped[index], clamped[index + 1];
      ghost var before := clamped[..];
      ClampOneMore(intervals, tangents, index, hypot);
      if slope == 0.0 {
        clamped[index] := 0.0;
        clamped[index + 1] := 0.0;
        assert clamped[..] == before[index := 0.0][index + 1 := 0.0];
        continue;
      }
      var radius := hypot(Ratio(entering, slope), Ratio(leaving, slope));
      if radius <= 3.0 {
        continue;
      }
      clamped[index] := DrawnIn(entering, slope, radius);
      clamped[index + 1] := DrawnIn(leaving, slope, radius);
      assert clamped[..] == before[index := clamped[index]][index + 1 := clamped[index + 1]];
    }
  }

  /** The tangents the chart draws with. */
  function FinalTangents(points: seq<Point>, hypot: (real, real) -> real): (tangents: seq<real>)
    requires LeftToRight(points)
    ensures |points| >= 2 ==> |tangents| == |points|
  {
    var intervals := Intervals(points);
    if intervals == [] then [] else Clamped(intervals, TangentsBefore(intervals), |intervals|, hypot)
  }

  function SegmentAt(points: seq<Point>, i: nat, hypot: (real, real) -> real): Segment
    requires LeftToRight(points) && i + 1 < |points|
  {
    SegmentFrom(points[i], points[i + 1], FinalTangents(points, hypot)[i], FinalTangents(points, hypot)[i + 1])
  }

  /** The segments the chart draws: the given points joined along the clamped tangents. */
  method MonotoneCurveSegments(points: seq<Point>, hypot: (real, real) -> real) returns (segments: seq<Segment>)
    requires LeftToRight(points)
    ensures |segments| == if points == [] then 0 else |points| - 1
    ensures forall i | 0 <= i < |segments| :: segments[i] == SegmentAt(points, i, hypot)
    ensures IsHypot(hypot) ==> IsDrawn(points, segments)
  {
    hide IsDrawn, IsHypot;
    var intervals := IntervalsBetween(points);
    var initial := InitialTangents(intervals);
    var tangents := ClampTangentsToMonotone(intervals, initial, hypot);
    ghost var final := FinalTangents(points, hypot);
    segments := [];
    for index := 0 to |intervals|
      invariant tangents[..] == final
      invariant |segments| == index
      invariant forall i | 0 <= i < index ::
                  segments[i] == SegmentFrom(points[i], points[i + 1], final[i], final[i + 1])
    {
      var interval, entering, leaving := intervals[index], tangents[index], tangents[index + 1];
      assert interval == IntervalAt(points, index);
      segments := segments + [SegmentFrom(interval.from, interval.to, entering, leaving)];
    }
    ghost var measures := IsHypot(hypot);
    if measures {
      SegmentsAreDrawn(points, segments, hypot);
    }
  }

  /** The tangent points the way of the slope; level slopes have level tangents. */
  ghost predicate Agrees(slope: real, tangent: real) {
    (slope >= 0.0 ==> tangent >= 0.0) && (slope <= 0.0 ==> tangent <= 0.0)
  }

  ghost predicate AllAgree(intervals: seq<Interval>, tangents: seq<real>)
    requires |tangents| == |intervals| + 1
  {
    forall i | 0 <= i < |intervals| ::
      Agrees(intervals[i].slope, tangents[i]) && Agrees(intervals[i].slope, tangents[i + 1])
  }

  ghost predicate Fits(intervals: seq<Interval>, tangents: seq<real>, i: nat)
    requires |tangents| == |intervals| + 1 && i < |intervals|
  {
    Within(intervals[i].slope, tangents[i]) && Within(intervals[i].slope, tangents[i + 1])
  }

  lemma MeanAgrees(s: real, t: real)
    ensures s * t > 0.0 ==> Agrees(s, (s + t) / 2.0) && Agrees(t, (s + t) / 2.0)
  {
    assert s > 0.0 && t <= 0.0 ==> s * t <= 0.0;
    assert s <= 0.0 && t > 0.0 ==> s * t <= 0.0;
    assert s == 0.0 || t == 0.0 ==> s * t == 0.0;
  }

  lemma InitialTangentsAgree(intervals: seq<Interval>, tangents: seq<real>)
    requires intervals != [] && tangents == TangentsBefore(intervals)
    ensures AllAgree(intervals, tangents)
  {
    forall i | 0 <= i < |intervals|
      ensures Agrees(intervals[i].slope, tangents[i]) && Agrees(intervals[i].slope, tangents[i + 1])
    {
      if i > 0 {
        MeanAgrees(intervals[i - 1].slope, intervals[i].slope);
      }
      if i + 1 < |intervals| {
        MeanAgrees(intervals[i].slope, intervals[i + 1].slope);
      }
    }
  }

  /** `b` is `a` drawn toward zero. */
  ghost predicate Shrinks(a: real, b: real) {
    (a >= 0.0 ==> 0.0 <= b <= a) && (a <= 0.0 ==> a <= b <= 0.0)
  }

  /** A component of a vector is no longer than the vector. */
  lemma ComponentBound(a: real, b: real, r: real)
    requires r >= 0.0 && r * r == a * a + b * b
    ensures a <= r
  {
    assert b * b >= 0.0;
    RootMonotone(a, r);
  }

  lemma ScaleDown(slope: real, tangent: real, r: real)
    requires slope != 0.0 && Agrees(slope, tangent)
    requires Ratio(tangent, slope) <= r
    ensures Ratio(tangent, slope) >= 0.0
    ensures r <= 3.0 ==> Within(slope, tangent)
    ensures r > 3.0 ==> Shrinks(tangent, DrawnIn(tangent, slope, r)) && Within(slope, DrawnIn(tangent, slope, r))
  {
    var ratio := Ratio(tangent, slope);
    assert ratio * slope == tangent;
    RatioSign(slope, tangent, ratio);
    if r <= 3.0 {
      ScaleWithin(slope, ratio);
    } else {
      var lambda := 3.0 / r;
      assert (3.0 * ratio * slope) / r == (lambda * ratio) * slope by {
        assert lambda * r == 3.0;
        assert ((lambda * ratio) * slope) * r == (lambda * r) * (ratio * slope);
      }
      assert 0.0 < lambda < 1.0;
      RatioShrinks(ratio, lambda, r);
      ScaleWithin(slope, lambda * ratio);
      TangentShrinks(slope, ratio, lambda * ratio);
    }
  }

  lemma RatioSign(slope: real, tangent: real, ratio: real)
    requires slope != 0.0 && ratio * slope == tangent && Agrees(slope, tangent)
    ensures ratio >= 0.0
  {
    assert ratio < 0.0 && slope > 0.0 ==> ratio * slope < 0.0;
    assert ratio < 0.0 && slope < 0.0 ==> ratio * slope > 0.0;
  }

  lemma ScaleWithin(slope: real, ratio: real)
    requires 0.0 <= ratio <= 3.0
    ensures Within(slope, ratio * slope)
  {
    if slope >= 0.0 {
      MulMonotone(0.0, ratio, slope);
      MulMonotone(ratio, 3.0, slope);
    }
    if slope <= 0.0 {
      MulAntitone(0.0, ratio, slope);
      MulAntitone(ratio, 3.0, slope);
    }
  }

  lemma RatioShrinks(ratio: real, lambda: real, r: real)
    requires 0.0 <= ratio <= r && 0.0 < lambda < 1.0 && lambda * r == 3.0
    ensures 0.0 <= lambda * ratio <= 3.0
    ensures lambda * ratio <= ratio
  {
    assert lambda * (r - ratio) >= 0.0;
    assert (1.0 - lambda) * ratio >= 0.0;
  }

  lemma TangentShrinks(slope: real, ratio: real, less: real)
    requires 0.0 <= less <= ratio
    ensures Shrinks(ratio * slope, less * slope)
  {
    if slope >= 0.0 {
      MulMonotone(0.0, less, slope);
      MulMonotone(less, ratio, slope);
    }
    if slope <= 0.0 {
      MulAntitone(0.0, less, slope);
      MulAntitone(less, ratio, slope);
    }
  }

  /** One pass fits its own interval and only ever draws tangents toward zero. */
  lemma ClampStepFits(intervals: seq<Interval>, tangents: seq<real>, i: nat, hypot: (real, real) -> real)
    requires i < |intervals| && |tangents| == |intervals| + 1
    requires AllAgree(intervals, tangents) && IsHypot(hypot)
    ensures var after := ClampStep(intervals, tangents, i, hypot);
            Fits(intervals, after, i) && forall j | 0 <= j < |tangents| :: Shrinks(tangents[j], after[j])
  {
    var slope := intervals[i].slope;
    if slope != 0.0 {
      var alpha, beta := Ratio(tangents[i], slope), Ratio(tangents[i + 1], slope);
      var radius := hypot(alpha, beta);
      ComponentBound(alpha, beta, radius);
      ComponentBound(beta, alpha, radius);
      ScaleDown(slope, tangents[i], radius);
      ScaleDown(slope, tangents[i + 1], radius);
    }
  }

  lemma ShrinkingKeepsFit(slope: real, tangent: real, after: real)
    requires Shrinks(tangent, after)
    ensures Agrees(slope, tangent) ==> Agrees(slope, after)
    ensures Within(slope, tangent) ==> Within(slope, after)
  {
  }

  /** After n passes the first n intervals fit, although pass n rewrote a tangent of interval n - 1. */
  lemma {:induction false} ClampedFits(intervals: seq<Interval>, tangents: seq<real>, n: nat,
                                       hypot: (real, real) -> real)
    requires n <= |intervals| && |tangents| == |intervals| + 1
    requires AllAgree(intervals, tangents) && IsHypot(hypot)
    ensures var after := Clamped(intervals, tangents, n, hypot);
            AllAgree(intervals, after) && forall i | 0 <= i < n :: Fits(intervals, after, i)
  {
    if n > 0 {
      ClampedFits(intervals, tangents, n - 1, hypot);
      var before := Clamped(intervals, tangents, n - 1, hypot);
      var after := ClampStep(intervals, before, n - 1, hypot);
      ClampStepFits(intervals, before, n - 1, hypot);
      forall i | 0 <= i < |intervals|
        ensures Agrees(intervals[i].slope, after[i]) && Agrees(intervals[i].slope, after[i + 1])
        ensures i < n ==> Fits(intervals, after, i)
      {
        assert i < n - 1 ==> Fits(intervals, before, i);
        ShrinkingKeepsFit(intervals[i].slope, before[i], after[i]);
        ShrinkingKeepsFit(intervals[i].slope, before[i + 1], after[i + 1]);
      }
    }
  }

  /** After the loop every tangent is within bounds of the slopes on both its sides. */
  lemma FinalTangentsFit(points: seq<Point>, i: nat, hypot: (real, real) -> real)
    requires LeftToRight(points) && i + 1 < |points| && IsHypot(hypot)
    ensures var tangents, slope := FinalTangents(points, hypot), Slope(points[i], points[i + 1]);
            Within(slope, tangents[i]) && Within(slope, tangents[i + 1])
  {
    var intervals := Intervals(points);
    InitialTangentsAgree(intervals, TangentsBefore(intervals));
    ClampedFits(intervals, TangentsBefore(intervals), |intervals|, hypot);
    assert Fits(intervals, FinalTangents(points, hypot), i);
  }

  /** The chart never overshoots its data: each segment passes through its two points, moves evenly to
      the right and climbs or falls from the one to the other without turning back. */
  lemma NoOvershoot(points: seq<Point>, i: nat, hypot: (real, real) -> real)
    requires LeftToRight(points) && i + 1 < |points| && IsHypot(hypot)
    ensures Faithful(SegmentAt(points, i, hypot), points[i], points[i + 1])
  {
    FinalTangentsFit(points, i, hypot);
    var tangents := FinalTangents(points, hypot);
    WithinIsFaithful(points[i], points[i + 1], tangents[i], tangents[i + 1]);
  }

  lemma EvenMean(slope: real)
    ensures (if slope * slope > 0.0 then (slope + slope) / 2.0 else 0.0) == slope
  {
    if slope != 0.0 {
      MulPositive(if slope > 0.0 then slope else -slope, if slope > 0.0 then slope else -slope);
    }
  }

  ghost predicate AllEqual(tangents: seq<real>, slope: real) {
    forall i | 0 <= i < |tangents| :: tangents[i] == slope
  }

  lemma EvenClampStep(intervals: seq<Interval>, tangents: seq<real>, i: nat, slope: real, hypot: (real, real) -> real)
    requires i < |intervals| && |tangents| == |intervals| + 1 && IsHypot(hypot)
    requires intervals[i].slope == slope && AllEqual(tangents, slope)
    ensures AllEqual(ClampStep(intervals, tangents, i, hypot), slope)
  {
    if slope != 0.0 {
      assert Ratio(slope, slope) == 1.0;
      DiagonalIsShort(hypot(1.0, 1.0));
    }
  }

  lemma DiagonalIsShort(r: real)
    requires r >= 0.0 && r * r == 1.0 * 1.0 + 1.0 * 1.0
    ensures r <= 3.0
  {
    RootMonotone(r, 3.0);
  }

  /** The clamp touches only steep tangents: along a line every tangent is the slope, before it and after. */
  lemma {:induction false} EvenTangentsStay(intervals: seq<Interval>, n: nat, slope: real, hypot: (real, real) -> real)
    requires n <= |intervals| && intervals != [] && IsHypot(hypot)
    requires forall i | 0 <= i < |intervals| :: intervals[i].slope == slope
    ensures AllEqual(Clamped(intervals, TangentsBefore(intervals), n, hypot), slope)
  {
    hide ClampStep;
    if n == 0 {
      EvenMean(slope);
    } else {
      EvenTangentsStay(intervals, n - 1, slope, hypot);
      EvenClampStep(intervals, Clamped(intervals, TangentsBefore(intervals), n - 1, hypot), n - 1, slope, hypot);
    }
  }

  /** Points on a line are joined by that line. */
  lemma StraightDataStaysStraight(points: seq<Point>, i: nat, slope: real, hypot: (real, real) -> real, t: real)
    requires LeftToRight(points) && i + 1 < |points| && IsHypot(hypot)
    requires forall j | 0 <= j < |points| - 1 :: Slope(points[j], points[j + 1]) == slope
    ensures YAt(SegmentAt(points, i, hypot), t) == points[i].y + t * (points[i + 1].y - points[i].y)
  {
    hide YAt, Clamped, TangentsBefore, SegmentFrom, Slope;
    var intervals := Intervals(points);
    EvenTangentsStay(intervals, |intervals|, slope, hypot);
    assert AllEqual(FinalTangents(points, hypot), slope);
    SlopeIsStraight(points[i], points[i + 1], t);
  }

  // What a clamp does

  lemma ProductIsPositive(x: real, y: real, product: real)
    requires product == x * y && ((x > 0.0 && y > 0.0) || (x < 0.0 && y < 0.0))
    ensures product > 0.0
  {
    if x > 0.0 {
      MulPositive(x, y);
    } else {
      MulPositive(-x, -y);
      assert -x * -y == x * y;
    }
  }

  /** The length of the pair of tangents, in units of the slope. */
  ghost predicate IsRadius(slope: real, a: real, b: real, radius: real)
    requires slope != 0.0
  {
    radius >= 0.0 && radius * radius == Ratio(a, slope) * Ratio(a, slope) + Ratio(b, slope) * Ratio(b, slope)
  }

  ghost predicate IsLength(slope: real, a: real, b: real, radius: real) {
    radius * radius * (slope * slope) == a * a + b * b
  }

  /** The pair is no longer than three slopes. */
  predicate IsShort(slope: real, a: real, b: real) {
    a * a + b * b <= 9.0 * (slope * slope)
  }

  lemma RadiusMeaning(slope: real, a: real, b: real, radius: real)
    requires slope != 0.0 && IsRadius(slope, a, b, radius)
    ensures IsLength(slope, a, b, radius) && (radius <= 3.0 <==> IsShort(slope, a, b))
  {
    var square := slope * slope;
    ProductIsPositive(slope, slope, square);
    SquareInUnits(slope, a, b, Ratio(a, slope), Ratio(b, slope), radius);
    RadiusAgainstThree(radius, square, a * a + b * b);
  }

  lemma SquareInUnits(slope: real, a: real, b: real, alpha: real, beta: real, radius: real)
    requires alpha * slope == a && beta * slope == b && radius * radius == alpha * alpha + beta * beta
    ensures radius * radius * (slope * slope) == a * a + b * b
  {
    assert (alpha * alpha) * (slope * slope) == a * a;
    assert (beta * beta) * (slope * slope) == b * b;
  }

  lemma RadiusAgainstThree(radius: real, square: real, sum: real)
    requires radius >= 0.0 && square > 0.0 && radius * radius * square == sum
    ensures radius <= 3.0 <==> sum <= 9.0 * square
  {
    var r2 := radius * radius;
    if radius <= 3.0 {
      MulMonotone(radius, 3.0, radius);
      MulMonotone(r2, 9.0, square);
    } else {
      MulPositive(radius - 3.0, radius);
      assert r2 == 3.0 * radius + (radius - 3.0) * radius;
      MulPositive(r2 - 9.0, square);
      assert (r2 - 9.0) * square == r2 * square - 9.0 * square;
    }
  }

  lemma DrawnInMeaning(slope: real, a: real, radius: real)
    requires slope != 0.0 && radius > 0.0
    ensures DrawnIn(a, slope, radius) * radius == 3.0 * a
  {
    assert Ratio(a, slope) * slope == a;
    assert 3.0 * Ratio(a, slope) * slope == 3.0 * a;
  }

  lemma DrawnInSquares(a: real, b: real, a': real, b': real, radius: real, square: real)
    requires radius > 3.0 && a' * radius == 3.0 * a && b' * radius == 3.0 * b
    requires radius * radius * square == a * a + b * b
    ensures a' * a' + b' * b' == 9.0 * square && a' * b == a * b'
  {
    var r2 := radius * radius;
    MulPositive(radius, radius);
    assert (a' * a') * r2 == (a' * radius) * (a' * radius) == 9.0 * (a * a);
    assert (b' * b') * r2 == (b' * radius) * (b' * radius) == 9.0 * (b * b);
    assert (a' * a' + b' * b') * r2 == (9.0 * square) * r2;
    CancelReal(a' * a' + b' * b', 9.0 * square, r2);
    assert (a' * b) * radius == (a * b') * radius;
    CancelReal(a' * b, a * b', radius);
  }

  lemma CancelReal(a: real, b: real, k: real)
    requires k > 0.0 && a * k == b * k
    ensures a == b
  {
    assert (a - b) * k == 0.0;
  }

  /** The two tangents of a level interval are levelled, a pair whose squares are at most nine times that of the slope
      is left alone, and any other pair is drawn in, keeping its ratio, until they are just that. */
  ghost predicate IsClamped(slope: real, a: real, b: real, a': real, b': real) {
    if slope == 0.0 then a' == b' == 0.0
    else if IsShort(slope, a, b) then a' == a && b' == b
    else a' * a' + b' * b' == 9.0 * (slope * slope) && a' * b == a * b' && Shrinks(a, a') && Shrinks(b, b')
  }

  lemma LargePairIsClamped(slope: real, a: real, b: real, a': real, b': real, radius: real)
    requires slope != 0.0 && radius > 3.0 && a' * radius == 3.0 * a && b' * radius == 3.0 * b
    requires IsLength(slope, a, b, radius) && !IsShort(slope, a, b)
    ensures IsClamped(slope, a, b, a', b')
  {
    DrawnInSquares(a, b, a', b', radius, slope * slope);
    ThirdShrinks(a, a', radius);
    ThirdShrinks(b, b', radius);
  }

  lemma SmallPairIsClamped(slope: real, a: real, b: real)
    requires slope != 0.0 && IsShort(slope, a, b)
    ensures IsClamped(slope, a, b, a, b)
  {
  }

  lemma PairIsClamped(slope: real, a: real, b: real, radius: real)
    requires slope != 0.0 && IsRadius(slope, a, b, radius)
    ensures if radius <= 3.0 then IsClamped(slope, a, b, a, b)
            else IsClamped(slope, a, b, DrawnIn(a, slope, radius), DrawnIn(b, slope, radius))
  {
    hide *;
    RadiusMeaning(slope, a, b, radius);
    if radius > 3.0 {
      DrawnInMeaning(slope, a, radius);
      DrawnInMeaning(slope, b, radius);
      LargePairIsClamped(slope, a, b, DrawnIn(a, slope, radius), DrawnIn(b, slope, radius), radius);
    } else {
      SmallPairIsClamped(slope, a, b);
    }
  }

  /** A pass clamps the two tangents of its interval and touches no other. */
  lemma ClampMeaning(intervals: seq<Interval>, tangents: seq<real>, i: nat, hypot: (real, real) -> real)
    requires i < |intervals| && |tangents| == |intervals| + 1 && IsHypot(hypot)
    ensures var after := ClampStep(intervals, tangents, i, hypot);
            && IsClamped(intervals[i].slope, tangents[i], tangents[i + 1], after[i], after[i + 1])
            && (forall j | 0 <= j < |tangents| && j != i && j != i + 1 :: after[j] == tangents[j])
  {
    hide DrawnIn;
    var slope, a, b := intervals[i].slope, tangents[i], tangents[i + 1];
    if slope != 0.0 {
      hide IsClamped;
      PairIsClamped(slope, a, b, hypot(Ratio(a, slope), Ratio(b, slope)));
    }
  }

  lemma ThirdShrinks(a: real, a': real, radius: real)
    requires radius > 3.0 && a' * radius == 3.0 * a
    ensures Shrinks(a, a')
  {
    if a >= 0.0 {
      if a' < 0.0 {
        MulPositive(-a', radius);
      }
      if a' > a {
        MulMonotone(a, a', radius);
        MulMonotone(3.0, radius, a);
        MulPositive(a' - a, radius);
      }
    }
    if a <= 0.0 {
      if a' > 0.0 {
        MulPositive(a', radius);
      }
      if a' < a {
        MulAntitone(3.0, radius, a);
        MulPositive(a - a', radius);
      }
    }
  }

  // Which tangents are drawn

  /** A pair no longer than twice the slope is short enough to be left alone. */
  lemma ShortPairStays(slope: real, a: real, b: real, a': real, b': real)
    requires Abs(a) <= 2.0 * Abs(slope) && Abs(b) <= 2.0 * Abs(slope)
    requires IsClamped(slope, a, b, a', b')
    ensures a' == a && b' == b
  {
    if slope != 0.0 {
      ShortSquare(a, slope, a * a, slope * slope);
      ShortSquare(b, slope, b * b, slope * slope);
    }
  }

  lemma ShortSquare(a: real, slope: real, square: real, unit: real)
    requires Abs(a) <= 2.0 * Abs(slope) && square == a * a && unit == slope * slope
    ensures square <= 4.0 * unit && unit >= 0.0
  {
    var x, s := Abs(a), Abs(slope);
    var less, more := 2.0 * s - x, 2.0 * s + x;
    var difference, own := less * more, s * s;
    ProductIsNonNegative(less, more, difference);
    ProductIsNonNegative(s, s, own);
    assert difference == 4.0 * unit - square && own == unit;
  }

  lemma ProductIsNonNegative(x: real, y: real, product: real)
    requires product == x * y && x >= 0.0 && y >= 0.0
    ensures product >= 0.0
  {
    MulNonNegative(x, y);
  }

  /** The clamps of the intervals before it do not touch a tangent, but for the one that ends at it. */
  lemma {:induction false} NotYetClamped(intervals: seq<Interval>, tangents: seq<real>, n: nat, k: nat,
                                         hypot: (real, real) -> real)
    requires n < k <= |intervals| && |tangents| == |intervals| + 1 && IsHypot(hypot)
    ensures Clamped(intervals, tangents, n, hypot)[k] == tangents[k]
  {
    hide ClampStep;
    if n > 0 {
      NotYetClamped(intervals, tangents, n - 1, k, hypot);
      ClampMeaning(intervals, Clamped(intervals, tangents, n - 1, hypot), n - 1, hypot);
    }
  }

  /** Once the interval that starts at it is clamped a tangent is final. */
  lemma {:induction false} NoLongerClamped(intervals: seq<Interval>, tangents: seq<real>, n: nat, k: nat,
                                           hypot: (real, real) -> real)
    requires k < n <= |intervals| && |tangents| == |intervals| + 1 && IsHypot(hypot)
    ensures Clamped(intervals, tangents, n, hypot)[k] == Clamped(intervals, tangents, k + 1, hypot)[k]
  {
    hide ClampStep;
    if n > k + 1 {
      NoLongerClamped(intervals, tangents, n - 1, k, hypot);
      ClampMeaning(intervals, Clamped(intervals, tangents, n - 1, hypot), n - 1, hypot);
    }
  }

  /** A clamp never lengthens a tangent. */
  lemma {:induction false} ClampsShrink(intervals: seq<Interval>, tangents: seq<real>, n: nat, k: nat,
                                        hypot: (real, real) -> real)
    requires n <= |intervals| && k <= |intervals| && |tangents| == |intervals| + 1 && IsHypot(hypot)
    ensures Shrinks(tangents[k], Clamped(intervals, tangents, n, hypot)[k])
  {
    hide ClampStep;
    if n > 0 {
      ClampsShrink(intervals, tangents, n - 1, k, hypot);
      ClampMeaning(intervals, Clamped(intervals, tangents, n - 1, hypot), n - 1, hypot);
    }
  }

  /** A tangent short against the slopes on both its sides, beside tangents that are short against them too, is final
      from the start. */
  lemma ShortTangentStays(intervals: seq<Interval>, tangents: seq<real>, k: nat, hypot: (real, real) -> real)
    requires intervals != [] && |tangents| == |intervals| + 1 && k <= |intervals| && IsHypot(hypot)
    requires k > 0 ==> Abs(tangents[k - 1]) <= 2.0 * Abs(intervals[k - 1].slope)
    requires k > 0 ==> Abs(tangents[k]) <= 2.0 * Abs(intervals[k - 1].slope)
    requires k < |intervals| ==> Abs(tangents[k]) <= 2.0 * Abs(intervals[k].slope)
    requires k < |intervals| ==> Abs(tangents[k + 1]) <= 2.0 * Abs(intervals[k].slope)
    ensures Clamped(intervals, tangents, |intervals|, hypot)[k] == tangents[k]
  {
    hide ClampStep, IsClamped;
    if k > 0 {
      var before := Clamped(intervals, tangents, k - 1, hypot);
      NotYetClamped(intervals, tangents, k - 1, k, hypot);
      ClampsShrink(intervals, tangents, k - 1, k - 1, hypot);
      ClampMeaning(intervals, before, k - 1, hypot);
      var after := Clamped(intervals, tangents, k, hypot);
      ShortPairStays(intervals[k - 1].slope, before[k - 1], before[k], after[k - 1], after[k]);
    }
    if k < |intervals| {
      var before := Clamped(intervals, tangents, k, hypot);
      NotYetClamped(intervals, tangents, k, k + 1, hypot);
      ClampMeaning(intervals, before, k, hypot);
      var after := Clamped(intervals, tangents, k + 1, hypot);
      ShortPairStays(intervals[k].slope, before[k], before[k + 1], after[k], after[k + 1]);
      NoLongerClamped(intervals, tangents, |intervals|, k, hypot);
    }
  }

  function SlopeAt(points: seq<Point>, i: nat): real
    requires LeftToRight(points) && i + 1 < |points|
  {
    Slope(points[i], points[i + 1])
  }

  /** The slopes on both sides of a point are within a factor three of each other, and those one further out are no
      more than three times as steep as these. */
  ghost predicate IsGentle(points: seq<Point>, i: nat)
    requires LeftToRight(points) && i < |points|
  {
    && (1 <= i < |points| - 1 ==>
          && Abs(SlopeAt(points, i)) <= 3.0 * Abs(SlopeAt(points, i - 1))
          && Abs(SlopeAt(points, i - 1)) <= 3.0 * Abs(SlopeAt(points, i)))
    && (i >= 2 ==> Abs(SlopeAt(points, i - 2)) <= 3.0 * Abs(SlopeAt(points, i - 1)))
    && (i + 2 < |points| ==> Abs(SlopeAt(points, i + 1)) <= 3.0 * Abs(SlopeAt(points, i)))
  }

  ghost predicate LiesAlong(point: Point, control: Point, slope: real) {
    control.y - point.y == slope * (control.x - point.x)
  }

  /** Every segment joins its points without turning back, with its controls a third of the way in. */
  ghost predicate JoinsItsPoints(points: seq<Point>, segments: seq<Segment>)
    requires |segments| == if points == [] then 0 else |points| - 1
  {
    forall i | 0 <= i < |segments| ::
      && segments[i].from == points[i] && segments[i].to == points[i + 1]
      && segments[i].control1.x == points[i].x + (points[i + 1].x - points[i].x) / 3.0
      && segments[i].control2.x == points[i + 1].x - (points[i + 1].x - points[i].x) / 3.0
      && Faithful(segments[i], points[i], points[i + 1])
  }

  /** At an inner point the curve has one direction: level at a turn, and where the slopes are gentle their mean. */
  ghost predicate IsSmoothAt(points: seq<Point>, i: nat, before: Segment, after: Segment)
    requires LeftToRight(points) && 1 <= i < |points| - 1
  {
    var s, t, point := SlopeAt(points, i - 1), SlopeAt(points, i), points[i];
    && (exists slope :: LiesAlong(point, before.control2, slope) && LiesAlong(point, after.control1, slope))
    && (s * t <= 0.0 ==> before.control2.y == point.y == after.control1.y)
    && (s * t > 0.0 && IsGentle(points, i) ==>
          && LiesAlong(point, before.control2, (s + t) / 2.0)
          && LiesAlong(point, after.control1, (s + t) / 2.0))
  }

  /** What is drawn, in the points alone; where the slopes at an end are gentle it starts or ends along them. */
  ghost predicate IsDrawn(points: seq<Point>, segments: seq<Segment>)
    requires LeftToRight(points) && |segments| == if points == [] then 0 else |points| - 1
  {
    var last := |points| - 1;
    && JoinsItsPoints(points, segments)
    && (forall i | 1 <= i < last :: IsSmoothAt(points, i, segments[i - 1], segments[i]))
    && (last >= 1 && IsGentle(points, 0) ==> LiesAlong(points[0], segments[0].control1, SlopeAt(points, 0)))
    && (last >= 1 && IsGentle(points, last) ==>
          LiesAlong(points[last], segments[last - 1].control2, SlopeAt(points, last - 1)))
  }

  /** A starting tangent beside a slope, against a slope no more than three times as steep on its other side. */
  lemma StartsShort(s: real, t: real)
    requires Abs(t) <= 3.0 * Abs(s)
    ensures Abs(if s * t > 0.0 then (s + t) / 2.0 else 0.0) <= 2.0 * Abs(s)
  {
  }

  lemma ProductCommutes(s: real, t: real)
    ensures s * t == t * s
  {
  }

  /** At a gentle point the tangent drawn is the one it started with. */
  lemma GentleTangentStays(points: seq<Point>, i: nat, hypot: (real, real) -> real)
    requires LeftToRight(points) && |points| >= 2 && i < |points| && IsHypot(hypot) && IsGentle(points, i)
    ensures FinalTangents(points, hypot)[i] == InitialTangentAt(Intervals(points), i)
  {
    hide Slope;
    var intervals := Intervals(points);
    var tangents, last := TangentsBefore(intervals), |points| - 1;
    if i > 0 {
      var s := SlopeAt(points, i - 1);
      if i < last {
        StartsShort(s, SlopeAt(points, i));
      }
      if i > 1 {
        StartsShort(s, SlopeAt(points, i - 2));
        ProductCommutes(s, SlopeAt(points, i - 2));
      }
    }
    if i < last {
      var t := SlopeAt(points, i);
      if i > 0 {
        StartsShort(t, SlopeAt(points, i - 1));
        ProductCommutes(t, SlopeAt(points, i - 1));
      }
      if i + 1 < last {
        StartsShort(t, SlopeAt(points, i + 1));
      }
    }
    ShortTangentStays(intervals, tangents, i, hypot);
  }

  lemma ControlsLieAlong(from: Point, to: Point, entering: real, leaving: real)
    ensures var s := SegmentFrom(from, to, entering, leaving);
            LiesAlong(from, s.control1, entering) && LiesAlong(to, s.control2, leaving)
  {
    var third := (to.x - from.x) / 3.0;
    assert leaving * (to.x - third - to.x) == -(leaving * third);
  }

  lemma LevelControls(from: Point, to: Point, entering: real, leaving: real)
    ensures var s := SegmentFrom(from, to, entering, leaving);
            (entering == 0.0 ==> s.control1.y == from.y) && (leaving == 0.0 ==> s.control2.y == to.y)
  {
  }

  lemma IsSmooth(points: seq<Point>, i: nat, hypot: (real, real) -> real)
    requires LeftToRight(points) && 1 <= i < |points| - 1 && IsHypot(hypot)
    ensures IsSmoothAt(points, i, SegmentAt(points, i - 1, hypot), SegmentAt(points, i, hypot))
  {
    hide LiesAlong, SegmentFrom, Slope, FinalTangents, IsGentle;
    var tangents, intervals := FinalTangents(points, hypot), Intervals(points);
    ControlsLieAlong(points[i - 1], points[i], tangents[i - 1], tangents[i]);
    ControlsLieAlong(points[i], points[i + 1], tangents[i], tangents[i + 1]);
    LevelControls(points[i - 1], points[i], tangents[i - 1], tangents[i]);
    LevelControls(points[i], points[i + 1], tangents[i], tangents[i + 1]);
    TurnIsLevel(points, i, hypot);
    if IsGentle(points, i) {
      GentleTangentStays(points, i, hypot);
    }
  }

  lemma TurnIsLevel(points: seq<Point>, i: nat, hypot: (real, real) -> real)
    requires LeftToRight(points) && 1 <= i < |points| - 1 && IsHypot(hypot)
    ensures SlopeAt(points, i - 1) * SlopeAt(points, i) <= 0.0 ==> FinalTangents(points, hypot)[i] == 0.0
  {
    var intervals := Intervals(points);
    ClampsShrink(intervals, TangentsBefore(intervals), |intervals|, i, hypot);
  }

  lemma SegmentsAreDrawn(points: seq<Point>, segments: seq<Segment>, hypot: (real, real) -> real)
    requires LeftToRight(points) && |segments| == (if points == [] then 0 else |points| - 1) && IsHypot(hypot)
    requires forall i | 0 <= i < |segments| :: segments[i] == SegmentAt(points, i, hypot)
    ensures IsDrawn(points, segments)
  {
    hide LiesAlong, Slope, Faithful, IsSmoothAt, FinalTangents, IsGentle;
    var last, tangents := |points| - 1, FinalTangents(points, hypot);
    forall i | 0 <= i < |segments|
      ensures Faithful(segments[i], points[i], points[i + 1])
    {
      NoOvershoot(points, i, hypot);
    }
    forall i | 1 <= i < last
      ensures IsSmoothAt(points, i, segments[i - 1], segments[i])
    {
      IsSmooth(points, i, hypot);
    }
    if last >= 1 {
      ControlsLieAlong(points[0], points[1], tangents[0], tangents[1]);
      ControlsLieAlong(points[last - 1], points[last], tangents[last - 1], tangents[last]);
      if IsGentle(points, 0) {
        GentleTangentStays(points, 0, hypot);
      }
      if IsGentle(points, last) {
        GentleTangentStays(points, last, hypot);
      }
    }
  }
}
