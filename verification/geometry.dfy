/** The geometry kernel of utils.py: the orientation-triple segment
    intersection test and the direction class of a movement against a
    tripwire. Coordinates are exact reals. */
module Geometry {
  import opened Results

  /** A point in frame coordinates, after the tripwire offset is applied. */
  datatype Point = Point(x: real, y: real)

  /** An integer pixel: box corners, anchors and configured tripwire vertices. */
  datatype Pixel = Pixel(x: int, y: int)

  datatype Segment = Segment(p: Point, q: Point)

  datatype Vector = Vector(dx: real, dy: real)

  /** Direction class of a crossing: the source's `angle < 180` test. */
  datatype Direction = Forward | Reverse

  /** Offset added to both coordinates of every tripwire endpoint before the
      crossing test (utils.py callers, flow_count.py:190, crowd_count.py:104). */
  const Epsilon: real := 0.0001

  function ToPoint(p: Pixel): Point {
    Point(p.x as real, p.y as real)
  }

  function Nudge(p: Pixel): Point {
    Point(p.x as real + Epsilon, p.y as real + Epsilon)
  }

  function Max(a: real, b: real): real { if a >= b then a else b }

  function Min(a: real, b: real): real { if a <= b then a else b }

  function Sub(a: Point, b: Point): Vector {
    Vector(a.x - b.x, a.y - b.y)
  }

  function Neg(v: Vector): Vector { Vector(-v.dx, -v.dy) }

  function Scale(k: real, v: Vector): Vector { Vector(k * v.dx, k * v.dy) }

  /** `np.cross` of two 2-D vectors. */
  function Cross(u: Vector, v: Vector): real {
    u.dx * v.dy - u.dy * v.dx
  }

  function Dot(u: Vector, v: Vector): real {
    u.dx * v.dx + u.dy * v.dy
  }

  predicate IsZero(v: Vector) { v.dx == 0.0 && v.dy == 0.0 }

  /** Twice the signed area of the triangle pqr (positive when counter-clockwise
      in a y-up frame); an independent description of the orientation triple. */
  function SignedArea2(p: Point, q: Point, r: Point): real {
    p.x * (q.y - r.y) + q.x * (r.y - p.y) + r.x * (p.y - q.y)
  }

  predicate Collinear(p: Point, q: Point, r: Point) {
    SignedArea2(p, q, r) == 0.0
  }

  /** `on_segment(p, q, r)`: r lies in the closed bounding box of p and q. */
  predicate OnSegment(p: Point, q: Point, r: Point) {
    r.x <= Max(p.x, q.x) && r.x >= Min(p.x, q.x) && r.y <= Max(p.y, q.y) && r.y >= Min(p.y, q.y)
  }

  /** `orientation(p, q, r)`: the sign of the source's determinant expression. */
  function Orientation(p: Point, q: Point, r: Point): (o: int)
    ensures -1 <= o <= 1
  {
    var v := (q.y - p.y) * (r.x - q.x) - (q.x - p.x) * (r.y - q.y);
    if v == 0.0 then 0 else if v > 0.0 then 1 else -1
  }

  /** The orientation triple is the sign of the negated signed area: 0 exactly
      for collinear points, 1 for clockwise and -1 for counter-clockwise turns
      (in a y-up frame). */
  lemma OrientationMatchesArea(p: Point, q: Point, r: Point)
    ensures Orientation(p, q, r) == 0 <==> Collinear(p, q, r)
    ensures Orientation(p, q, r) == 1 <==> SignedArea2(p, q, r) < 0.0
    ensures Orientation(p, q, r) == -1 <==> SignedArea2(p, q, r) > 0.0
  {
    assert (q.y - p.y) * (r.x - q.x) - (q.x - p.x) * (r.y - q.y) == -SignedArea2(p, q, r);
  }

  /** `intersects(seg1, seg2)`: proper crossing by orientation triples, or a
      collinear endpoint inside the other segment's bounding box. */
  predicate Intersects(s1: Segment, s2: Segment) {
    var o1 := Orientation(s1.p, s1.q, s2.p);
    var o2 := Orientation(s1.p, s1.q, s2.q);
    var o3 := Orientation(s2.p, s2.q, s1.p);
    var o4 := Orientation(s2.p, s2.q, s1.q);
    || (o1 != o2 && o3 != o4)
    || (o1 == 0 && OnSegment(s1.p, s1.q, s2.p))
    || (o2 == 0 && OnSegment(s1.p, s1.q, s2.q))
    || (o3 == 0 && OnSegment(s2.p, s2.q, s1.p))
    || (o4 == 0 && OnSegment(s2.p, s2.q, s1.q))
  }

  /** `lines_angle(seg1, seg2) < 180` as a direction class: `None` when either
      vector is zero (the source returns None), otherwise Forward exactly when
      atan2(cross, dot) of the unit vectors lies in [0, 180). */
  function AngleClass(move: Vector, line: Vector): (r: Option<Direction>)
    ensures r.None? <==> IsZero(move) || IsZero(line)
    ensures r == Some(Forward) ==> Cross(move, line) >= 0.0
    ensures r == Some(Reverse) ==> Cross(move, line) <= 0.0
    ensures r.Some? && Cross(move, line) > 0.0 ==> r == Some(Forward)
    ensures r.Some? && Cross(move, line) == 0.0 ==> (r == Some(Forward) <==> Dot(move, line) > 0.0)
  {
    if IsZero(move) || IsZero(line) then None
    else if Cross(move, line) > 0.0 || (Cross(move, line) == 0.0 && Dot(move, line) > 0.0) then Some(Forward)
    else Some(Reverse)
  }

  /** `intersection_angle(prev, cur, start, end)`: the direction class of the
      movement prev -> cur against the tripwire start -> end (both tripwire
      endpoints offset by Epsilon), and whether the two segments intersect. */
  function IntersectionAngle(prev: Pixel, cur: Pixel, start: Pixel, end: Pixel): (Option<Direction>, bool) {
    var move := Segment(ToPoint(prev), ToPoint(cur));
    var line := Segment(Nudge(start), Nudge(end));
    (AngleClass(Sub(move.q, move.p), Sub(line.q, line.p)), Intersects(move, line))
  }
}
