/** Cubic curve segments given by two endpoints and two controls, over exact reals: when the rise of
    the cubic is monotone for every parameter between 0 and 1. */
module Cubic {

  datatype Point = Point(x: real, y: real)

  datatype Segment = Segment(from: Point, control1: Point, control2: Point, to: Point)

  function Bezier(p0: real, p1: real, p2: real, p3: real, t: real): real {
    (1.0 - t) * (1.0 - t) * (1.0 - t) * p0
    + 3.0 * (1.0 - t) * (1.0 - t) * t * p1
    + 3.0 * (1.0 - t) * t * t * p2
    + t * t * t * p3
  }

  function XAt(s: Segment, t: real): real {
    Bezier(s.from.x, s.control1.x, s.control2.x, s.to.x, t)
  }

  function YAt(s: Segment, t: real): real {
    Bezier(s.from.y, s.control1.y, s.control2.y, s.to.y, t)
  }

  function Slope(from: Point, to: Point): real
    requires from.x < to.x
  {
    (to.y - from.y) / (to.x - from.x)
  }

  /** The points come from left to right; the slopes divide by the widths. */
  ghost predicate LeftToRight(points: seq<Point>) {
    forall i | 0 < i < |points| :: points[i - 1].x < points[i].x
  }

  /** Both renderers place the controls a third of the width in, along the two tangents. */
  function SegmentFrom(from: Point, to: Point, entering: real, leaving: real): Segment {
    var third := (to.x - from.x) / 3.0;
    Segment(from, Point(from.x + third, from.y + entering * third), Point(to.x - third, to.y - leaving * third), to)
  }

  /** A tangent that points the way of the slope and is at most three times as steep. */
  ghost predicate Within(slope: real, tangent: real) {
    && (slope >= 0.0 ==> 0.0 <= tangent <= 3.0 * slope)
    && (slope <= 0.0 ==> 3.0 * slope <= tangent <= 0.0)
  }

  /** A quadratic form that cannot go negative on non-negative arguments. */
  function Form(a: real, b: real, c: real, u: real, v: real): real {
    a * u * u + 2.0 * b * u * v + c * v * v
  }

  lemma FormNonNegative(a: real, b: real, c: real, u: real, v: real)
    requires a >= 0.0 && c >= 0.0 && u >= 0.0 && v >= 0.0
    requires b >= 0.0 || (a > 0.0 && a * c >= b * b)
    ensures Form(a, b, c, u, v) >= 0.0
  {
    if b >= 0.0 {
      assert a * u * u >= 0.0 && c * v * v >= 0.0 && b * u * v >= 0.0;
    } else {
      var d := a * u + b * v;
      assert d * d >= 0.0;
      assert (a * c - b * b) * (v * v) >= 0.0;
      assert a * Form(a, b, c, u, v) == d * d + (a * c - b * b) * (v * v);
    }
  }

  /** Tangents within three times the rise satisfy that condition. */
  lemma BoxIsSafe(rise: real, a: real, c: real)
    requires 0.0 <= a <= 3.0 * rise && 0.0 <= c <= 3.0 * rise
    ensures var b := 3.0 * rise - a - c; b >= 0.0 || (a > 0.0 && a * c >= b * b)
  {
    var p, q := 3.0 * rise - a, 3.0 * rise - c;
    var b := 3.0 * rise - a - c;
    assert a * c - b * b == 3.0 * rise * (p + q) - (p + q) * (p + q) + p * q;
    if b < 0.0 {
      assert p + q < 3.0 * rise;
      assert (3.0 * rise - (p + q)) * (p + q) >= 0.0;
      assert p * q >= 0.0;
    }
  }

  /** The derivative of the rising cubic with end speeds a and c. */
  function Speed(rise: real, a: real, c: real, t: real): real {
    Form(a, 3.0 * rise - a - c, c, 1.0 - t, t)
  }

  lemma SpeedNonNegative(rise: real, a: real, c: real, t: real)
    requires 0.0 <= a <= 3.0 * rise && 0.0 <= c <= 3.0 * rise
    requires 0.0 <= t <= 1.0
    ensures Speed(rise, a, c, t) >= 0.0
  {
    BoxIsSafe(rise, a, c);
    FormNonNegative(a, 3.0 * rise - a - c, c, 1.0 - t, t);
  }

  /** The height of the cubic that starts at y0 and rises by `rise`, in powers of t. */
  function Height(y0: real, rise: real, a: real, c: real, t: real): real {
    y0 + a * t + (3.0 * rise - 2.0 * a - c) * (t * t) + (a + c - 2.0 * rise) * (t * t * t)
  }

  lemma BezierIsHeight(y0: real, rise: real, a: real, c: real, t: real)
    ensures Bezier(y0, y0 + a / 3.0, y0 + rise - c / 3.0, y0 + rise, t) == Height(y0, rise, a, c, t)
  {
    var a3, c3 := a / 3.0, c / 3.0;
    assert a == 3.0 * a3 && c == 3.0 * c3;
  }

  lemma SpeedInPowers(rise: real, a: real, c: real, t: real)
    ensures Speed(rise, a, c, t) == a + 2.0 * (3.0 * rise - 2.0 * a - c) * t + 3.0 * (a + c - 2.0 * rise) * (t * t)
  {
  }

  /** The mean speed between two parameters, by three samples. */
  lemma SampledMean(rise: real, a: real, c: real, t1: real, t2: real, k2: real, k3: real)
    requires k2 == 3.0 * rise - 2.0 * a - c && k3 == a + c - 2.0 * rise
    ensures Speed(rise, a, c, t1) + 4.0 * Speed(rise, a, c, (t1 + t2) / 2.0) + Speed(rise, a, c, t2)
            == 6.0 * (a + k2 * (t1 + t2) + k3 * (t1 * t1 + t1 * t2 + t2 * t2))
  {
    hide *;
    var mid := (t1 + t2) / 2.0;
    SpeedInPowers(rise, a, c, t1);
    SpeedInPowers(rise, a, c, mid);
    SpeedInPowers(rise, a, c, t2);
    assert mid * mid == (t1 * t1 + 2.0 * (t1 * t2) + t2 * t2) / 4.0;
  }

  lemma HeightInPowers(y0: real, rise: real, a: real, c: real, t: real, k2: real, k3: real)
    requires k2 == 3.0 * rise - 2.0 * a - c && k3 == a + c - 2.0 * rise
    ensures Height(y0, rise, a, c, t) == y0 + (a * t + k2 * (t * t) + k3 * (t * t * t))
  {
  }

  /** The climb between two parameters is their distance times that mean. */
  lemma ClimbIsMeanSpeed(y0: real, rise: real, a: real, c: real, t1: real, t2: real)
    ensures Height(y0, rise, a, c, t2) - Height(y0, rise, a, c, t1)
            == (t2 - t1)
               * ((Speed(rise, a, c, t1) + 4.0 * Speed(rise, a, c, (t1 + t2) / 2.0) + Speed(rise, a, c, t2)) / 6.0)
  {
    hide *;
    var k2, k3 := 3.0 * rise - 2.0 * a - c, a + c - 2.0 * rise;
    var mean := a + k2 * (t1 + t2) + k3 * (t1 * t1 + t1 * t2 + t2 * t2);
    SampledMean(rise, a, c, t1, t2, k2, k3);
    assert (Speed(rise, a, c, t1) + 4.0 * Speed(rise, a, c, (t1 + t2) / 2.0) + Speed(rise, a, c, t2)) / 6.0 == mean;
    HeightInPowers(y0, rise, a, c, t1, k2, k3);
    HeightInPowers(y0, rise, a, c, t2, k2, k3);
    DifferenceOfHeights(a, k2, k3, t1, t2);
  }

  lemma DifferenceOfHeights(a: real, k2: real, k3: real, t1: real, t2: real)
    ensures (a * t2 + k2 * (t2 * t2) + k3 * (t2 * t2 * t2)) - (a * t1 + k2 * (t1 * t1) + k3 * (t1 * t1 * t1))
            == (t2 - t1) * (a + k2 * (t1 + t2) + k3 * (t1 * t1 + t1 * t2 + t2 * t2))
  {
  }

  lemma RisingHeight(y0: real, rise: real, a: real, c: real, t1: real, t2: real)
    requires 0.0 <= a <= 3.0 * rise && 0.0 <= c <= 3.0 * rise
    requires 0.0 <= t1 <= t2 <= 1.0
    ensures Height(y0, rise, a, c, t1) <= Height(y0, rise, a, c, t2)
  {
    hide *;
    var mid := (t1 + t2) / 2.0;
    SpeedNonNegative(rise, a, c, t1);
    SpeedNonNegative(rise, a, c, mid);
    SpeedNonNegative(rise, a, c, t2);
    ClimbIsMeanSpeed(y0, rise, a, c, t1, t2);
    WeightedMean(Height(y0, rise, a, c, t1), Height(y0, rise, a, c, t2), t2 - t1,
                 Speed(rise, a, c, t1), Speed(rise, a, c, mid), Speed(rise, a, c, t2));
  }

  lemma WeightedMean(h1: real, h2: real, d: real, s1: real, s: real, s2: real)
    requires d >= 0.0 && s1 >= 0.0 && s >= 0.0 && s2 >= 0.0
    requires h2 - h1 == d * ((s1 + 4.0 * s + s2) / 6.0)
    ensures h1 <= h2
  {
    assert d * ((s1 + 4.0 * s + s2) / 6.0) >= 0.0;
  }

  lemma FallingHeight(y0: real, rise: real, a: real, c: real, t: real)
    ensures Height(-y0, -rise, -a, -c, t) == -Height(y0, rise, a, c, t)
  {
  }

  /** The height along a segment, in powers of t. */
  lemma SegmentHeight(from: Point, to: Point, entering: real, leaving: real, t: real)
    ensures YAt(SegmentFrom(from, to, entering, leaving), t)
            == Height(from.y, to.y - from.y, entering * (to.x - from.x), leaving * (to.x - from.x), t)
  {
    var width := to.x - from.x;
    assert entering * (width / 3.0) == entering * width / 3.0;
    assert leaving * (width / 3.0) == leaving * width / 3.0;
    BezierIsHeight(from.y, to.y - from.y, entering * width, leaving * width, t);
  }

  lemma HeightIsMonotone(y0: real, rise: real, a: real, c: real, t1: real, t2: real)
    requires Within(rise, a) && Within(rise, c)
    requires 0.0 <= t1 <= t2 <= 1.0
    ensures rise >= 0.0 ==> Height(y0, rise, a, c, t1) <= Height(y0, rise, a, c, t2)
    ensures rise <= 0.0 ==> Height(y0, rise, a, c, t1) >= Height(y0, rise, a, c, t2)
  {
    if rise >= 0.0 {
      RisingHeight(y0, rise, a, c, t1, t2);
    }
    if rise <= 0.0 {
      RisingHeight(-y0, -rise, -a, -c, t1, t2);
      FallingHeight(y0, rise, a, c, t1);
      FallingHeight(y0, rise, a, c, t2);
    }
  }

  /** With both tangents within bounds the whole segment climbs, or falls, from one end to the other. */
  lemma SegmentIsMonotone(from: Point, to: Point, entering: real, leaving: real, t1: real, t2: real)
    requires from.x < to.x
    requires Within(Slope(from, to), entering) && Within(Slope(from, to), leaving)
    requires 0.0 <= t1 <= t2 <= 1.0
    ensures var s := SegmentFrom(from, to, entering, leaving);
            && (from.y <= to.y ==> YAt(s, t1) <= YAt(s, t2))
            && (from.y >= to.y ==> YAt(s, t1) >= YAt(s, t2))
  {
    hide Height, YAt, SegmentFrom;
    WidenTangent(Slope(from, to), to.x - from.x, to.y - from.y, entering);
    WidenTangent(Slope(from, to), to.x - from.x, to.y - from.y, leaving);
    SegmentHeight(from, to, entering, leaving, t1);
    SegmentHeight(from, to, entering, leaving, t2);
    HeightIsMonotone(from.y, to.y - from.y, entering * (to.x - from.x), leaving * (to.x - from.x), t1, t2);
  }

  lemma WidenTangent(slope: real, width: real, rise: real, tangent: real)
    requires width > 0.0 && slope == rise / width
    requires Within(slope, tangent)
    ensures Within(rise, tangent * width)
  {
    assert slope * width == rise;
    if rise >= 0.0 {
      assert slope >= 0.0;
      assert (3.0 * slope - tangent) * width >= 0.0 && tangent * width >= 0.0;
    }
    if rise <= 0.0 {
      assert slope <= 0.0;
      assert (tangent - 3.0 * slope) * width >= 0.0 && tangent * width <= 0.0;
    }
  }

  /** A segment starts and ends at its points, moves evenly to the right, and is flat when its
      endpoints are level and its tangents are. */
  lemma SegmentShape(from: Point, to: Point, entering: real, leaving: real, t: real)
    ensures var s := SegmentFrom(from, to, entering, leaving);
            && YAt(s, 0.0) == from.y && YAt(s, 1.0) == to.y
            && XAt(s, t) == from.x + t * (to.x - from.x)
            && (from.y == to.y && entering == 0.0 && leaving == 0.0 ==> YAt(s, t) == from.y)
  {
    var width := to.x - from.x;
    BezierIsHeight(from.x, width, width, width, t);
    SegmentHeight(from, to, entering, leaving, 0.0);
    SegmentHeight(from, to, entering, leaving, 1.0);
    SegmentHeight(from, to, entering, leaving, t);
  }

  /** With the slope for both tangents the segment is the straight line. */
  lemma SlopeIsStraight(from: Point, to: Point, t: real)
    requires from.x < to.x
    ensures YAt(SegmentFrom(from, to, Slope(from, to), Slope(from, to)), t) == from.y + t * (to.y - from.y)
  {
    hide YAt, SegmentFrom;
    var rise := to.y - from.y;
    assert Slope(from, to) * (to.x - from.x) == rise;
    SegmentHeight(from, to, Slope(from, to), Slope(from, to), t);
    EvenHeight(from.y, rise, t);
  }

  lemma EvenHeight(y0: real, rise: real, t: real)
    ensures Height(y0, rise, rise, rise, t) == y0 + t * rise
  {
  }

  /** Everything the curves are meant to keep on one segment: it passes through its points, moves
      evenly to the right, never turns back, and stays between the heights of its ends. */
  ghost predicate Faithful(s: Segment, from: Point, to: Point) {
    && (forall t :: XAt(s, t) == from.x + t * (to.x - from.x))
    && YAt(s, 0.0) == from.y && YAt(s, 1.0) == to.y
    && (forall t1, t2 | 0.0 <= t1 <= t2 <= 1.0 ::
          && (from.y <= to.y ==> from.y <= YAt(s, t1) <= YAt(s, t2) <= to.y)
          && (from.y >= to.y ==> from.y >= YAt(s, t1) >= YAt(s, t2) >= to.y))
  }

  lemma WithinIsFaithful(from: Point, to: Point, entering: real, leaving: real)
    requires from.x < to.x
    requires Within(Slope(from, to), entering) && Within(Slope(from, to), leaving)
    ensures Faithful(SegmentFrom(from, to, entering, leaving), from, to)
  {
    var s := SegmentFrom(from, to, entering, leaving);
    forall t
      ensures XAt(s, t) == from.x + t * (to.x - from.x)
    {
      SegmentShape(from, to, entering, leaving, t);
    }
    SegmentShape(from, to, entering, leaving, 0.0);
    forall t1, t2 | 0.0 <= t1 <= t2 <= 1.0
      ensures from.y <= to.y ==> from.y <= YAt(s, t1) <= YAt(s, t2) <= to.y
      ensures from.y >= to.y ==> from.y >= YAt(s, t1) >= YAt(s, t2) >= to.y
    {
      SegmentIsMonotone(from, to, entering, leaving, 0.0, t1);
      SegmentIsMonotone(from, to, entering, leaving, t1, t2);
      SegmentIsMonotone(from, to, entering, leaving, t2, 1.0);
    }
  }
}
