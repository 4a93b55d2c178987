/**
 * The plotting capability shared by every component: two coordinate
 * primitives (`moveto`, `lineto`) in inches, plus the colour-change request.
 * A drawing routine is modelled by the sequence of calls it issues.
 */
module Plotting {

  datatype Point = Point(x: real, y: real)

  /** One call against the capability; also one entry of the simulated command log. */
  datatype Call =
    | MoveTo(x: real, y: real)
    | LineTo(x: real, y: real)
    | ColorChange(name: string)

  /**
   * Euclidean distance (`math.hypot`) is not computable on exact reals here, so it is
   * a parameter; the core relies only on the two facts below.
   */
  type DistFn = (Point, Point) -> real

  ghost predicate ZeroOnSame(dist: DistFn)
  {
    forall p: Point :: dist(p, p) == 0.0
  }

  ghost predicate NonNegative(dist: DistFn)
  {
    forall p: Point, q: Point :: dist(p, q) >= 0.0
  }

  /** Only pen moves and pen lines, no colour change. */
  predicate OnlyMotion(calls: seq<Call>)
  {
    forall i :: 0 <= i < |calls| ==> !calls[i].ColorChange?
  }

  lemma OnlyMotionAppend(a: seq<Call>, b: seq<Call>)
    requires OnlyMotion(a) && OnlyMotion(b)
    ensures OnlyMotion(a + b)
  {
    forall i | 0 <= i < |a + b| ensures !(a + b)[i].ColorChange? {
      if i < |a| { assert (a + b)[i] == a[i]; } else { assert (a + b)[i] == b[i - |a|]; }
    }
  }

  /** Where a call leaves the pen: a colour change parks it at the origin first. */
  function Target(c: Call): Point
  {
    match c
    case MoveTo(x, y) => Point(x, y)
    case LineTo(x, y) => Point(x, y)
    case ColorChange(_) => Point(0.0, 0.0)
  }

  /** Sum of the segment lengths between consecutive points. */
  function PathLength(pts: seq<Point>, dist: DistFn): real
  {
    if |pts| <= 1 then 0.0
    else PathLength(pts[..|pts| - 1], dist) + dist(pts[|pts| - 2], pts[|pts| - 1])
  }

  /** Where the pen stops after each call. */
  function Waypoints(calls: seq<Call>): (pts: seq<Point>)
    ensures |pts| == |calls|
    ensures forall i :: 0 <= i < |calls| ==> pts[i] == Target(calls[i])
  {
    seq(|calls|, i requires 0 <= i < |calls| => Target(calls[i]))
  }

  /** Sum of the lengths of the segments that `lineto` calls draw (the first call draws nothing). */
  function DrawnLength(calls: seq<Call>, dist: DistFn): real
  {
    if |calls| <= 1 then 0.0
    else
      var n := |calls|;
      DrawnLength(calls[..n - 1], dist)
        + (if calls[n - 1].LineTo? then dist(Target(calls[n - 2]), Target(calls[n - 1])) else 0.0)
  }

  lemma PathLengthSnoc(pts: seq<Point>, p: Point, dist: DistFn)
    requires |pts| >= 1
    ensures PathLength(pts + [p], dist) == PathLength(pts, dist) + dist(pts[|pts| - 1], p)
  {
    var q := pts + [p];
    assert q[..|q| - 1] == pts;
  }

  lemma DrawnLengthSnoc(calls: seq<Call>, c: Call, dist: DistFn)
    requires |calls| >= 1
    ensures DrawnLength(calls + [c], dist) == DrawnLength(calls, dist)
              + (if c.LineTo? then dist(Target(calls[|calls| - 1]), Target(c)) else 0.0)
  {
    var q := calls + [c];
    assert q[..|q| - 1] == calls;
  }

  /** A trace of one move followed only by lines inks exactly the path through its waypoints. */
  lemma {:induction false} DrawnLengthOfTrace(calls: seq<Call>, dist: DistFn)
    requires forall i :: 1 <= i < |calls| ==> calls[i].LineTo?
    ensures DrawnLength(calls, dist) == PathLength(Waypoints(calls), dist)
    decreases |calls|
  {
    if |calls| > 1 {
      var init := calls[..|calls| - 1];
      DrawnLengthOfTrace(init, dist);
      var w := Waypoints(calls);
      assert w[..|w| - 1] == Waypoints(init);
    }
  }
}
