/**
 * The rotating proxy: every `moveto` and `lineto` is rotated about a pivot
 * before it reaches the underlying plotter, and everything else is passed
 * through unchanged. The cosine and sine of the angle are taken as given.
 */
module RotatingPlotter {
  import opened Wrappers
  import opened Plotting
  import opened TextLayout

  /** The proxy's state: cosine and sine of the angle, and the pivot. */
  datatype Rotation = Rotation(cos: real, sin: real, cx: real, cy: real)

  /** The cosine and sine of one angle. */
  predicate IsRotation(r: Rotation)
  {
    r.cos * r.cos + r.sin * r.sin == 1.0
  }

  /** `_apply`: translate to the pivot, rotate, translate back. */
  function Rotate(r: Rotation, p: Point): Point
  {
    var dx := p.x - r.cx;
    var dy := p.y - r.cy;
    Point(r.cos * dx - r.sin * dy + r.cx, r.sin * dx + r.cos * dy + r.cy)
  }

  /** The same pivot, turned by the opposite angle. */
  function Inverse(r: Rotation): Rotation
  {
    Rotation(r.cos, -r.sin, r.cx, r.cy)
  }

  function SqDist(p: Point, q: Point): real
  {
    (p.x - q.x) * (p.x - q.x) + (p.y - q.y) * (p.y - q.y)
  }

  /** The pivot stays where it is. */
  lemma PivotFixed(r: Rotation)
    ensures Rotate(r, Point(r.cx, r.cy)) == Point(r.cx, r.cy)
  {
  }

  /** The arithmetic behind `RotateBack`: the transpose of a rotation matrix undoes it. */
  lemma TransposeUndoes(c: real, s: real, dx: real, dy: real)
    requires c * c + s * s == 1.0
    ensures c * (c * dx - s * dy) + s * (s * dx + c * dy) == dx
    ensures -s * (c * dx - s * dy) + c * (s * dx + c * dy) == dy
  {
    assert c * (c * dx - s * dy) + s * (s * dx + c * dy) == (c * c + s * s) * dx;
    assert -s * (c * dx - s * dy) + c * (s * dx + c * dy) == (c * c + s * s) * dy;
  }

  /** Turning back by the opposite angle restores every point. */
  lemma RotateBack(r: Rotation, p: Point)
    requires IsRotation(r)
    ensures Rotate(Inverse(r), Rotate(r, p)) == p
  {
    TransposeUndoes(r.cos, r.sin, p.x - r.cx, p.y - r.cy);
  }

  /** Rotation keeps distances: squared distances between points are unchanged. */
  lemma RotationKeepsDistance(r: Rotation, p: Point, q: Point)
    requires IsRotation(r)
    ensures SqDist(Rotate(r, p), Rotate(r, q)) == SqDist(p, q)
  {
    var c, s := r.cos, r.sin;
    var ux, uy := p.x - q.x, p.y - q.y;
    var a, b := Rotate(r, p), Rotate(r, q);
    assert a.x - b.x == c * ux - s * uy;
    assert a.y - b.y == s * ux + c * uy;
    assert (c * ux - s * uy) * (c * ux - s * uy) + (s * ux + c * uy) * (s * ux + c * uy)
        == (c * c + s * s) * (ux * ux + uy * uy);
  }

  /** The proxy's `moveto` and `lineto` rotate their point; anything else is delegated as it is. */
  function RotateCall(r: Rotation, c: Call): Call
  {
    match c
    case MoveTo(x, y) => var q := Rotate(r, Point(x, y)); MoveTo(q.x, q.y)
    case LineTo(x, y) => var q := Rotate(r, Point(x, y)); LineTo(q.x, q.y)
    case ColorChange(_) => c
  }

  /** What reaches the underlying plotter for a sequence of calls made on the proxy. */
  function RotateCalls(r: Rotation, calls: seq<Call>): seq<Call>
    decreases |calls|
  {
    if |calls| == 0 then [] else RotateCalls(r, calls[..|calls| - 1]) + [RotateCall(r, calls[|calls| - 1])]
  }

  /** One call forwarded per call made, of the same kind, in the same order, to the rotated point. */
  lemma {:induction false} RotateCallsShape(r: Rotation, calls: seq<Call>)
    ensures |RotateCalls(r, calls)| == |calls|
    ensures forall i :: 0 <= i < |calls| ==> RotateCalls(r, calls)[i] == RotateCall(r, calls[i])
    ensures forall i :: 0 <= i < |calls| ==>
              && (RotateCalls(r, calls)[i].MoveTo? <==> calls[i].MoveTo?)
              && (RotateCalls(r, calls)[i].LineTo? <==> calls[i].LineTo?)
    ensures forall i :: 0 <= i < |calls| && !calls[i].ColorChange? ==>
              Target(RotateCalls(r, calls)[i]) == Rotate(r, Target(calls[i]))
    decreases |calls|
  {
    if |calls| > 0 {
      RotateCallsShape(r, calls[..|calls| - 1]);
    }
  }

  /** Forwarding one call through the opposite rotation gives it back. */
  lemma RotateCallBack(r: Rotation, c: Call)
    requires IsRotation(r)
    ensures RotateCall(Inverse(r), RotateCall(r, c)) == c
  {
    match c
    case MoveTo(x, y) => RotateBack(r, Point(x, y));
    case LineTo(x, y) => RotateBack(r, Point(x, y));
    case ColorChange(_) =>
  }

  /** Forwarding one more call forwards its rotation after the others. */
  lemma RotateCallsSnoc(r: Rotation, calls: seq<Call>, c: Call)
    ensures RotateCalls(r, calls + [c]) == RotateCalls(r, calls) + [RotateCall(r, c)]
  {
    assert (calls + [c])[..|calls|] == calls;
  }

  /** Forwarding through the opposite rotation gives back the calls made. */
  lemma {:induction false} RotateCallsBack(r: Rotation, calls: seq<Call>)
    requires IsRotation(r)
    ensures RotateCalls(Inverse(r), RotateCalls(r, calls)) == calls
    decreases |calls|
  {
    if |calls| > 0 {
      var init, last := calls[..|calls| - 1], calls[|calls| - 1];
      assert calls == init + [last];
      RotateCallsSnoc(r, init, last);
      RotateCallsSnoc(Inverse(r), RotateCalls(r, init), RotateCall(r, last));
      RotateCallsBack(r, init);
      RotateCallBack(r, last);
    }
  }

  /** Distances that rotation does not change, such as the Euclidean one. */
  ghost predicate Unturned(dist: DistFn, r: Rotation)
  {
    forall p: Point, q: Point :: dist(Rotate(r, p), Rotate(r, q)) == dist(p, q)
  }

  /** Rotated pen motion inks exactly as much as the unrotated motion. */
  lemma {:induction false} RotationKeepsInk(r: Rotation, calls: seq<Call>, dist: DistFn)
    requires OnlyMotion(calls)
    requires Unturned(dist, r)
    ensures DrawnLength(RotateCalls(r, calls), dist) == DrawnLength(calls, dist)
    decreases |calls|
  {
    if |calls| > 1 {
      var n := |calls|;
      var init := calls[..n - 1];
      assert OnlyMotion(init);
      RotationKeepsInk(r, init, dist);
      RotateCallsShape(r, calls);
      RotateCallsShape(r, init);
      var out := RotateCalls(r, calls);
      assert out[..n - 1] == RotateCalls(r, init);
      assert Target(out[n - 2]) == Rotate(r, Target(calls[n - 2]));
      assert Target(out[n - 1]) == Rotate(r, Target(calls[n - 1]));
    }
  }

  /**
   * `draw_wrapped_text_rotated`: wrapped text drawn through the proxy. The
   * value returned is the unrotated routine's, and the calls are its calls rotated.
   */
  function DrawWrappedTextRotated(r: Rotation, pen: GlyphPen, text: string, ox: real, baseY: real, m: Layout,
                                  lineSpacing: Option<real>, scale: real): (out: (seq<Call>, Option<nat>))
    ensures out.1 == DrawWrappedText(pen, text, ox, baseY, m, lineSpacing, scale).1
  {
    var d := DrawWrappedText(pen, text, ox, baseY, m, lineSpacing, scale);
    (RotateCalls(r, d.0), d.1)
  }

  /** Turning the rotated text back by the opposite angle gives exactly the unrotated drawing. */
  lemma RotatedTextTurnsBack(r: Rotation, pen: GlyphPen, text: string, ox: real, baseY: real, m: Layout,
                             lineSpacing: Option<real>, scale: real)
    requires IsRotation(r)
    ensures RotateCalls(Inverse(r), DrawWrappedTextRotated(r, pen, text, ox, baseY, m, lineSpacing, scale).0)
              == DrawWrappedText(pen, text, ox, baseY, m, lineSpacing, scale).0
  {
    RotateCallsBack(r, DrawWrappedText(pen, text, ox, baseY, m, lineSpacing, scale).0);
  }

  /** Rotated text inks as much as unrotated text, under any distance rotation preserves. */
  lemma RotatedTextKeepsInk(r: Rotation, pen: GlyphPen, text: string, ox: real, baseY: real, m: Layout,
                            lineSpacing: Option<real>, scale: real, dist: DistFn)
    requires PenMovesOnly(pen)
    requires Unturned(dist, r)
    ensures DrawnLength(DrawWrappedTextRotated(r, pen, text, ox, baseY, m, lineSpacing, scale).0, dist)
              == DrawnLength(DrawWrappedText(pen, text, ox, baseY, m, lineSpacing, scale).0, dist)
  {
    WrappedTextOnlyMotion(pen, text, ox, baseY, m, lineSpacing, scale);
    RotationKeepsInk(r, DrawWrappedText(pen, text, ox, baseY, m, lineSpacing, scale).0, dist);
  }
}
