/** The sparkline's curve before rounding (apps/web/lib/sparkline.ts), over exact reals. */
module Sparkline {
  import opened Cubic
  import opened Reals

  function Neighbors<T>(items: seq<T>): seq<(T, T)> {
    seq(if items == [] then 0 else |items| - 1, i requires 0 <= i < |items| - 1 => (items[i], items[i + 1]))
  }

  method NeighborPairs<T>(items: seq<T>) returns (pairs: seq<(T, T)>)
    ensures pairs == Neighbors(items)
  {
    pairs := [];
    for index := 0 to |items|
      invariant pairs == Neighbors(items[..index])
    {
      if index > 0 {
        pairs := pairs + [(items[index - 1], items[index])];
      }
    }
    assert items[..|items|] == items;
  }

  function Sign(a: real): real {
    if a > 0.0 then 1.0 else if a < 0.0 then -1.0 else 0.0
  }

  function Min(a: real, b: real): real {
    if a <= b then a else b
  }

  function LimitedTangent(before: real, after: real): real {
    (Sign(before) + Sign(after)) * Min(Min(Abs(before), Abs(after)), Abs((before + after) / 2.0) / 2.0)
  }

  function EndpointTangent(edge: real, adjacent: real): real {
    (3.0 * edge - adjacent) / 2.0
  }

  function Secants(points: seq<Point>): seq<real>
    requires LeftToRight(points)
  {
    seq(if points == [] then 0 else |points| - 1, i requires 0 <= i < |points| - 1 =>
      Slope(points[i], points[i + 1]))
  }

  /** Drawn from three points on; two are joined by a straight line. */
  function FritschCarlsonTangents(points: seq<Point>): (tangents: seq<real>)
    requires LeftToRight(points) && |points| >= 3
    ensures |tangents| == |points|
  {
    var secants := Secants(points);
    var pairs := Neighbors(secants);
    var interior := seq(|pairs|, i requires 0 <= i < |pairs| => LimitedTangent(pairs[i].0, pairs[i].1));
    [EndpointTangent(secants[0], interior[0])] + interior
    + [EndpointTangent(secants[|secants| - 1], interior[|interior| - 1])]
  }

  function CurveSegment(points: seq<Point>, i: nat): Segment
    requires LeftToRight(points) && |points| >= 3 && i < |points| - 1
  {
    var tangents := FritschCarlsonTangents(points);
    SegmentFrom(points[i], points[i + 1], tangents[i], tangents[i + 1])
  }

  function ScaledPoint(value: real, index: nat, count: nat, width: real, height: real, lowest: real, highest: real)
    : Point
    requires count >= 2 && lowest < highest
  {
    Point(index as real * (width / (count - 1) as real), height - ((value - lowest) / (highest - lowest)) * height)
  }

  function ScaledPoints(values: seq<real>, width: real, height: real, lowest: real, highest: real): seq<Point>
    requires |values| >= 2 && lowest < highest
  {
    seq(|values|, i requires 0 <= i < |values| => ScaledPoint(values[i], i, |values|, width, height, lowest, highest))
  }

  /** An inner tangent never exceeds twice either neighbouring slope, and vanishes at a turn. */
  lemma LimitedTangentIsWithin(before: real, after: real)
    ensures Within(before, LimitedTangent(before, after)) && Within(after, LimitedTangent(before, after))
    ensures (before >= 0.0 ==> LimitedTangent(before, after) <= 2.0 * before)
    ensures (before <= 0.0 ==> 2.0 * before <= LimitedTangent(before, after))
    ensures LimitedTangent(before, after) == LimitedTangent(after, before)
  {
  }

  /** Between slopes of one sign an inner tangent is their mean, cut to twice the flatter of them; else it is level. */
  lemma LimitedTangentMeaning(before: real, after: real)
    ensures var tangent, mean := LimitedTangent(before, after), (before + after) / 2.0;
            && (before > 0.0 && after > 0.0 ==>
                  && tangent <= mean && tangent <= 2.0 * before && tangent <= 2.0 * after
                  && (tangent == mean || tangent == 2.0 * before || tangent == 2.0 * after))
            && (before < 0.0 && after < 0.0 ==>
                  && tangent >= mean && tangent >= 2.0 * before && tangent >= 2.0 * after
                  && (tangent == mean || tangent == 2.0 * before || tangent == 2.0 * after))
            && (before <= 0.0 <= after || after <= 0.0 <= before ==> tangent == 0.0)
  {
  }

  /** The curve begins and ends without bending: its end controls and end point have no second difference. */
  lemma EndsAreUnbent(points: seq<Point>)
    requires LeftToRight(points) && |points| >= 3
    ensures var first, last := CurveSegment(points, 0), CurveSegment(points, |points| - 2);
            && first.from.y - 2.0 * first.control1.y + first.control2.y == 0.0
            && last.control1.y - 2.0 * last.control2.y + last.to.y == 0.0
  {
    var tangents, n := FritschCarlsonTangents(points), |points| - 1;
    assert tangents[0] == EndpointTangent(Slope(points[0], points[1]), tangents[1]);
    assert tangents[n] == EndpointTangent(Slope(points[n - 1], points[n]), tangents[n - 1]);
    UnbentEnd(points[0], points[1], tangents[1]);
    UnbentEnd(points[n - 1], points[n], tangents[n - 1]);
  }

  lemma UnbentEnd(from: Point, to: Point, adjacent: real)
    requires from.x < to.x
    ensures var edge := EndpointTangent(Slope(from, to), adjacent);
            && (var s := SegmentFrom(from, to, edge, adjacent); s.from.y - 2.0 * s.control1.y + s.control2.y == 0.0)
            && (var s := SegmentFrom(from, to, adjacent, edge); s.control1.y - 2.0 * s.control2.y + s.to.y == 0.0)
  {
    hide Slope, EndpointTangent, SegmentFrom;
    SlopeTimesWidth(from, to);
    var edge, third := EndpointTangent(Slope(from, to), adjacent), (to.x - from.x) / 3.0;
    var e, m := edge * third, adjacent * third;
    EndpointThird(to.x - from.x, to.y - from.y, Slope(from, to), adjacent, third);
    ControlHeights(from, to, edge, adjacent, e, m);
    ControlHeights(from, to, adjacent, edge, m, e);
  }

  lemma ControlHeights(from: Point, to: Point, entering: real, leaving: real, up: real, down: real)
    requires up == entering * ((to.x - from.x) / 3.0) && down == leaving * ((to.x - from.x) / 3.0)
    ensures var s := SegmentFrom(from, to, entering, leaving);
            s.from == from && s.to == to && s.control1.y == from.y + up && s.control2.y == to.y - down
  {
  }

  lemma SlopeTimesWidth(from: Point, to: Point)
    requires from.x < to.x
    ensures Slope(from, to) * (to.x - from.x) == to.y - from.y
  {
  }

  lemma EndpointThird(width: real, rise: real, slope: real, adjacent: real, third: real)
    requires slope * width == rise && third == width / 3.0
    ensures EndpointTangent(slope, adjacent) * third == (rise - adjacent * third) / 2.0
  {
    var a, b := slope * third, adjacent * third;
    assert 3.0 * a == rise;
    assert (3.0 * slope - adjacent) * third == 3.0 * a - b;
  }

  lemma EndpointTangentIsWithin(edge: real, adjacent: real)
    requires edge >= 0.0 ==> 0.0 <= adjacent <= 2.0 * edge
    requires edge <= 0.0 ==> 2.0 * edge <= adjacent <= 0.0
    ensures Within(edge, EndpointTangent(edge, adjacent))
  {
  }

  lemma TangentsFit(points: seq<Point>, i: nat)
    requires LeftToRight(points) && |points| >= 3 && i < |points| - 1
    ensures var tangents, slope := FritschCarlsonTangents(points), Secants(points)[i];
            && slope == Slope(points[i], points[i + 1])
            && Within(slope, tangents[i]) && Within(slope, tangents[i + 1])
  {
    var secants := Secants(points);
    var last := |secants| - 1;
    if i > 0 {
      LimitedTangentIsWithin(secants[i - 1], secants[i]);
    }
    if i < last {
      LimitedTangentIsWithin(secants[i], secants[i + 1]);
    }
    if i == 0 {
      EndpointTangentIsWithin(secants[0], LimitedTangent(secants[0], secants[1]));
    }
    if i == last {
      LimitedTangentIsWithin(secants[last], secants[last - 1]);
      EndpointTangentIsWithin(secants[last], LimitedTangent(secants[last - 1], secants[last]));
    }
  }

  /** The limiter never overshoots: every segment is faithful to its two points. */
  lemma CurveIsFaithful(points: seq<Point>, i: nat)
    requires LeftToRight(points) && |points| >= 3 && i < |points| - 1
    ensures Faithful(CurveSegment(points, i), points[i], points[i + 1])
  {
    TangentsFit(points, i);
    var tangents := FritschCarlsonTangents(points);
    WithinIsFaithful(points[i], points[i + 1], tangents[i], tangents[i + 1]);
  }

  lemma EvenLimitedTangent(slope: real)
    ensures LimitedTangent(slope, slope) == slope && EndpointTangent(slope, slope) == slope
  {
  }

  lemma EvenTangents(points: seq<Point>, slope: real, i: nat)
    requires LeftToRight(points) && |points| >= 3 && i < |points|
    requires forall j | 0 <= j < |points| - 1 :: Slope(points[j], points[j + 1]) == slope
    ensures FritschCarlsonTangents(points)[i] == slope
  {
    hide LimitedTangent, EndpointTangent, Slope;
    EvenLimitedTangent(slope);
  }

  /** Points on a line are joined by that line. */
  lemma StraightDataStaysStraight(points: seq<Point>, i: nat, slope: real, t: real)
    requires LeftToRight(points) && |points| >= 3 && i < |points| - 1
    requires forall j | 0 <= j < |points| - 1 :: Slope(points[j], points[j + 1]) == slope
    ensures YAt(CurveSegment(points, i), t) == points[i].y + t * (points[i + 1].y - points[i].y)
  {
    hide YAt, FritschCarlsonTangents, SegmentFrom, Slope;
    EvenTangents(points, slope, i);
    EvenTangents(points, slope, i + 1);
    SlopeIsStraight(points[i], points[i + 1], t);
  }

  lemma ScaledPointIsInBox(value: real, index: nat, count: nat, width: real, height: real, lowest: real, highest: real)
    requires index < count && count >= 2 && width > 0.0 && height >= 0.0
    requires lowest <= value <= highest && lowest < highest
    ensures var p := ScaledPoint(value, index, count, width, height, lowest, highest);
            0.0 <= p.x <= width && 0.0 <= p.y <= height
  {
    var share := (value - lowest) / (highest - lowest);
    assert share * (highest - lowest) == value - lowest;
    ShareOfSpan(share, highest - lowest, value - lowest);
    ShareIsWithin(share, height, share * height);
    var n, spacing := (count - 1) as real, width / (count - 1) as real;
    assert spacing * n == width;
    PositiveQuotient(width, n);
    MultipleIsWithin(index as real, n, spacing, width, index as real * spacing);
  }

  lemma ShareIsWithin(share: real, height: real, part: real)
    requires 0.0 <= share <= 1.0 && height >= 0.0 && part == share * height
    ensures 0.0 <= part <= height
  {
    MulMonotone(0.0, share, height);
    MulMonotone(share, 1.0, height);
  }

  lemma MultipleIsWithin(i: real, n: real, spacing: real, width: real, x: real)
    requires 0.0 <= i <= n && spacing > 0.0 && spacing * n == width && x == i * spacing
    ensures 0.0 <= x <= width
  {
    MulMonotone(0.0, i, spacing);
    MulMonotone(i, n, spacing);
  }

  /** `lowest` and `highest` are Math.min and Math.max of the values. */
  ghost predicate Extremes(values: seq<real>, lowest: real, highest: real) {
    lowest in values && highest in values && forall v | v in values :: lowest <= v <= highest
  }

  lemma ScaledPointsLeftToRight(values: seq<real>, width: real, height: real, lowest: real, highest: real)
    requires |values| >= 2 && lowest < highest && width > 0.0
    ensures LeftToRight(ScaledPoints(values, width, height, lowest, highest))
  {
    var spacing := width / (|values| - 1) as real;
    var points := ScaledPoints(values, width, height, lowest, highest);
    PositiveQuotient(width, (|values| - 1) as real);
    forall i | 0 < i < |points|
      ensures points[i - 1].x < points[i].x
    {
      NextMultiple(i - 1, spacing);
    }
  }

  lemma PositiveQuotient(a: real, b: real)
    requires a > 0.0 && b > 0.0
    ensures a / b > 0.0
  {
  }

  lemma NextMultiple(i: nat, spacing: real)
    requires spacing > 0.0
    ensures i as real * spacing < (i + 1) as real * spacing
  {
    assert (i + 1) as real * spacing == i as real * spacing + spacing;
  }

  /** The curve of a series that is drawn as one stays inside its box, for every parameter. */
  lemma CurveStaysInBox(values: seq<real>, width: real, height: real, lowest: real, highest: real, i: nat, t: real)
    requires |values| >= 3 && i < |values| - 1 && width > 0.0 && height >= 0.0
    requires Extremes(values, lowest, highest) && lowest < highest
    requires 0.0 <= t <= 1.0
    ensures var points := ScaledPoints(values, width, height, lowest, highest);
            && LeftToRight(points)
            && 0.0 <= YAt(CurveSegment(points, i), t) <= height
            && 0.0 <= XAt(CurveSegment(points, i), t) <= width
  {
    ScaledPointsLeftToRight(values, width, height, lowest, highest);
    var points := ScaledPoints(values, width, height, lowest, highest);
    CurveIsFaithful(points, i);
    PointIsInBox(values, width, height, lowest, highest, i);
    PointIsInBox(values, width, height, lowest, highest, i + 1);
    FaithfulHeight(CurveSegment(points, i), points[i], points[i + 1], height, t);
    FaithfulProgress(CurveSegment(points, i), points[i], points[i + 1], width, t);
  }

  lemma PointIsInBox(values: seq<real>, width: real, height: real, lowest: real, highest: real, i: nat)
    requires |values| >= 2 && i < |values| && width > 0.0 && height >= 0.0
    requires Extremes(values, lowest, highest) && lowest < highest
    ensures var p := ScaledPoints(values, width, height, lowest, highest)[i];
            0.0 <= p.x <= width && 0.0 <= p.y <= height
  {
    assert values[i] in values;
    ScaledPointIsInBox(values[i], i, |values|, width, height, lowest, highest);
  }

  lemma FaithfulHeight(s: Segment, from: Point, to: Point, height: real, t: real)
    requires Faithful(s, from, to) && 0.0 <= t <= 1.0
    requires 0.0 <= from.y <= height && 0.0 <= to.y <= height
    ensures 0.0 <= YAt(s, t) <= height
  {
    assert 0.0 <= t <= t <= 1.0;
  }

  lemma FaithfulProgress(s: Segment, from: Point, to: Point, width: real, t: real)
    requires Faithful(s, from, to) && 0.0 <= t <= 1.0
    requires 0.0 <= from.x < to.x <= width
    ensures 0.0 <= XAt(s, t) <= width
  {
    PartWay(XAt(s, t), from.x, to.x, width, t);
  }

  lemma PartWay(x: real, from: real, to: real, width: real, t: real)
    requires x == from + t * (to - from) && 0.0 <= t <= 1.0
    requires 0.0 <= from < to <= width
    ensures 0.0 <= x <= width
  {
    MulMonotone(0.0, t, to - from);
    MulMonotone(t, 1.0, to - from);
  }

  /** `Math.min(...values)` */
  function Lowest(values: seq<real>): real
    requires values != []
  {
    if |values| == 1 then values[0] else Min(values[0], Lowest(values[1..]))
  }

  /** `Math.max(...values)` */
  function Highest(values: seq<real>): real
    requires values != []
  {
    if |values| == 1 then values[0] else -Min(-values[0], -Highest(values[1..]))
  }

  lemma {:induction false} LowestAndHighest(values: seq<real>)
    requires values != []
    ensures Extremes(values, Lowest(values), Highest(values))
  {
    if |values| > 1 {
      LowestAndHighest(values[1..]);
      assert values == [values[0]] + values[1..];
    }
  }

  predicate IsFlat(values: seq<real>) {
    |values| <= 1 || Lowest(values) == Highest(values)
  }

  /** How many strokes the path has. */
  function Pieces(values: seq<real>): nat {
    if IsFlat(values) then 1 else |values| - 1
  }

  /** The point a share `t` of the way along one stroke, before coordinates are rounded: a level line for an empty
      or level series, a straight line between two values, a curve from three on. */
  function PathPoint(values: seq<real>, width: real, height: real, piece: nat, t: real): Point
    requires piece < Pieces(values) && width > 0.0
  {
    if values == [] then Point(t * width, height)
    else if IsFlat(values) then Point(t * width, height / 2.0)
    else
      LowestAndHighest(values);
      var points := ScaledPoints(values, width, height, Lowest(values), Highest(values));
      if |values| == 2 then
        Point(points[0].x + t * (points[1].x - points[0].x), points[0].y + t * (points[1].y - points[0].y))
      else
        ScaledPointsLeftToRight(values, width, height, Lowest(values), Highest(values));
        Point(XAt(CurveSegment(points, piece), t), YAt(CurveSegment(points, piece), t))
  }

  lemma Between(a: real, b: real, bound: real, t: real)
    requires 0.0 <= a <= bound && 0.0 <= b <= bound && 0.0 <= t <= 1.0
    ensures 0.0 <= a + t * (b - a) <= bound
  {
    MulNonNegative(t, b);
    MulNonNegative(1.0 - t, a);
    MulNonNegative(t, bound - b);
    MulNonNegative(1.0 - t, bound - a);
    assert a + t * (b - a) == t * b + (1.0 - t) * a;
    assert bound - (a + t * (b - a)) == t * (bound - b) + (1.0 - t) * (bound - a);
  }

  /** The whole unrounded path, of any series, stays inside its box. */
  lemma PathStaysInBox(values: seq<real>, width: real, height: real, piece: nat, t: real)
    requires piece < Pieces(values) && width > 0.0 && height >= 0.0 && 0.0 <= t <= 1.0
    ensures var p := PathPoint(values, width, height, piece, t);
            0.0 <= p.x <= width && 0.0 <= p.y <= height
  {
    hide YAt, XAt, CurveSegment;
    if IsFlat(values) {
      Between(0.0, width, width, t);
    } else {
      LowestAndHighest(values);
      var lowest, highest := Lowest(values), Highest(values);
      assert lowest <= values[0] <= highest;
      if |values| == 2 {
        PointIsInBox(values, width, height, lowest, highest, 0);
        PointIsInBox(values, width, height, lowest, highest, 1);
        var points := ScaledPoints(values, width, height, lowest, highest);
        Between(points[0].x, points[1].x, width, t);
        Between(points[0].y, points[1].y, height, t);
      } else {
        CurveStaysInBox(values, width, height, lowest, highest, piece, t);
      }
    }
  }

  /** Evenly spaced from left to right, the lowest value at the bottom, the highest at the top of the page, where y is
      zero, and every other in proportion. */
  ghost predicate IsPlaced(p: Point, values: seq<real>, lowest: real, highest: real, width: real, height: real, i: nat)
    requires i < |values|
  {
    && p.x * (|values| - 1) as real == i as real * width
    && p.y * (highest - lowest) == (highest - values[i]) * height
  }

  lemma ScaledPointIsPlaced(values: seq<real>, width: real, height: real, lowest: real, highest: real, i: nat)
    requires |values| >= 2 && lowest < highest && i < |values|
    ensures IsPlaced(ScaledPoint(values[i], i, |values|, width, height, lowest, highest), values, lowest, highest,
                     width, height, i)
  {
    var span, share, n := highest - lowest, (values[i] - lowest) / (highest - lowest), (|values| - 1) as real;
    assert share * span == values[i] - lowest;
    assert (height - share * height) * span == height * span - (share * span) * height;
    assert (width / n) * n == width;
    assert (i as real * (width / n)) * n == i as real * width;
  }

  lemma NotLevel(values: seq<real>)
    requires !IsFlat(values)
    ensures Extremes(values, Lowest(values), Highest(values)) && Lowest(values) < Highest(values) && |values| >= 2
  {
    LowestAndHighest(values);
    assert values[0] in values;
  }

  lemma SegmentEnds(from: Point, to: Point, entering: real, leaving: real)
    ensures var s := SegmentFrom(from, to, entering, leaving);
            Point(XAt(s, 0.0), YAt(s, 0.0)) == from && Point(XAt(s, 1.0), YAt(s, 1.0)) == to
  {
    SegmentShape(from, to, entering, leaving, 0.0);
    SegmentShape(from, to, entering, leaving, 1.0);
  }

  lemma StrokeEnds(values: seq<real>, width: real, height: real, piece: nat)
    requires !IsFlat(values) && width > 0.0 && piece < |values| - 1
    ensures Lowest(values) < Highest(values) && |values| >= 2
    ensures var points := ScaledPoints(values, width, height, Lowest(values), Highest(values));
            && PathPoint(values, width, height, piece, 0.0) == points[piece]
            && PathPoint(values, width, height, piece, 1.0) == points[piece + 1]
  {
    hide XAt, YAt, Lowest, Highest, Extremes, SegmentFrom, FritschCarlsonTangents, ScaledPoint, LeftToRight;
    NotLevel(values);
    if |values| > 2 {
      var points := ScaledPoints(values, width, height, Lowest(values), Highest(values));
      ScaledPointsLeftToRight(values, width, height, Lowest(values), Highest(values));
      var tangents := FritschCarlsonTangents(points);
      SegmentEnds(points[piece], points[piece + 1], tangents[piece], tangents[piece + 1]);
    }
  }

  /** The path of a series that is not level passes through the place of every value, where one stroke ends and the
      next begins. */
  lemma PathPassesTheValues(values: seq<real>, width: real, height: real, i: nat)
    requires !IsFlat(values) && width > 0.0 && i < |values|
    ensures var lowest, highest := Lowest(values), Highest(values);
            && Extremes(values, lowest, highest) && lowest < highest
            && (i < |values| - 1 ==>
                  IsPlaced(PathPoint(values, width, height, i, 0.0), values, lowest, highest, width, height, i))
            && (i > 0 ==>
                  IsPlaced(PathPoint(values, width, height, i - 1, 1.0), values, lowest, highest, width, height, i))
  {
    hide IsPlaced, PathPoint, Lowest, Highest, Extremes, ScaledPoint;
    NotLevel(values);
    ScaledPointIsPlaced(values, width, height, Lowest(values), Highest(values), i);
    if i < |values| - 1 {
      StrokeEnds(values, width, height, i);
    }
    if i > 0 {
      StrokeEnds(values, width, height, i - 1);
    }
  }

  /** A series of one value, or of equal values, is a level line half way up from edge to edge, and an empty one is a
      line along the bottom. */
  lemma LevelSeriesIsLevel(values: seq<real>, width: real, height: real, t: real)
    requires width > 0.0 && forall i, j | 0 <= i < j < |values| :: values[i] == values[j]
    ensures IsFlat(values) && Pieces(values) == 1
    ensures PathPoint(values, width, height, 0, t)
            == Point(t * width, if values == [] then height else height / 2.0)
  {
    if values != [] {
      LowestAndHighest(values);
    }
  }

  /** A larger value is placed no lower on the page. */
  lemma LargerIsNoLower(values: seq<real>, lowest: real, highest: real, width: real, height: real, i: nat, j: nat,
                        p: Point, q: Point)
    requires i < |values| && j < |values| && values[i] <= values[j] && lowest < highest && height >= 0.0
    requires IsPlaced(p, values, lowest, highest, width, height, i)
    requires IsPlaced(q, values, lowest, highest, width, height, j)
    ensures q.y <= p.y
  {
    MulMonotone(highest - values[j], highest - values[i], height);
    if q.y > p.y {
      MulPositive(q.y - p.y, highest - lowest);
    }
  }
}
