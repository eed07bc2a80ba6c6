/** Properties of the geometry kernel of utils.py. */
module GeometryLemmas {
  import opened Results
  import opened Geometry

  /** Swapping the first two points of an orientation triple negates it. */
  lemma OrientationSwap(p: Point, q: Point, r: Point)
    ensures Orientation(q, p, r) == -Orientation(p, q, r)
  {
    assert SignedArea2(q, p, r) == -SignedArea2(p, q, r);
  }

  /** Rotating the triple leaves the orientation unchanged. */
  lemma OrientationCyclic(p: Point, q: Point, r: Point)
    ensures Orientation(q, r, p) == Orientation(p, q, r)
  {
    assert SignedArea2(q, r, p) == SignedArea2(p, q, r);
  }

  /** A triple with a repeated point is collinear. */
  lemma OrientationDegenerate(p: Point, q: Point)
    ensures Orientation(p, q, p) == 0 && Orientation(p, q, q) == 0 && Orientation(p, p, q) == 0
  {
  }

  /** The bounding-box test accepts both endpoints and ignores their order. */
  lemma OnSegmentEndpoints(p: Point, q: Point, r: Point)
    ensures OnSegment(p, q, p) && OnSegment(p, q, q)
    ensures OnSegment(p, q, r) == OnSegment(q, p, r)
  {
  }

  /** The test is symmetric in its two segments. */
  lemma IntersectsSymmetric(s1: Segment, s2: Segment)
    ensures Intersects(s1, s2) == Intersects(s2, s1)
  {
  }

  /** Reversing either segment's endpoints does not change the outcome. */
  lemma IntersectsReversal(s1: Segment, s2: Segment)
    ensures Intersects(Segment(s1.q, s1.p), s2) == Intersects(s1, s2)
    ensures Intersects(s1, Segment(s2.q, s2.p)) == Intersects(s1, s2)
  {
    OrientationSwap(s1.p, s1.q, s2.p);
    OrientationSwap(s1.p, s1.q, s2.q);
    OrientationSwap(s2.p, s2.q, s1.p);
    OrientationSwap(s2.p, s2.q, s1.q);
    OnSegmentEndpoints(s1.p, s1.q, s2.p);
    OnSegmentEndpoints(s1.p, s1.q, s2.q);
    OnSegmentEndpoints(s2.p, s2.q, s1.p);
    OnSegmentEndpoints(s2.p, s2.q, s1.q);
  }

  /** Each segment's endpoints lie strictly on opposite sides of the other's
      supporting line: a proper crossing is reported. */
  lemma ProperCrossingIntersects(s1: Segment, s2: Segment)
    requires SignedArea2(s1.p, s1.q, s2.p) * SignedArea2(s1.p, s1.q, s2.q) < 0.0
    requires SignedArea2(s2.p, s2.q, s1.p) * SignedArea2(s2.p, s2.q, s1.q) < 0.0
    ensures Intersects(s1, s2)
  {
    SignsOfNegativeProduct(SignedArea2(s1.p, s1.q, s2.p), SignedArea2(s1.p, s1.q, s2.q));
    SignsOfNegativeProduct(SignedArea2(s2.p, s2.q, s1.p), SignedArea2(s2.p, s2.q, s1.q));
  }

  /** The orientation test also reports a touching crossing: one endpoint of
      the second segment lies on the first segment's line, the other does
      not, and the first segment's endpoints straddle the second's line. */
  lemma TouchingCrossingIntersects(s1: Segment, s2: Segment)
    requires SignedArea2(s1.p, s1.q, s2.p) == 0.0 && SignedArea2(s1.p, s1.q, s2.q) != 0.0
    requires SignedArea2(s2.p, s2.q, s1.p) * SignedArea2(s2.p, s2.q, s1.q) < 0.0
    ensures Intersects(s1, s2)
  {
    OrientationMatchesArea(s1.p, s1.q, s2.p);
    OrientationMatchesArea(s1.p, s1.q, s2.q);
    OrientationMatchesArea(s2.p, s2.q, s1.p);
    OrientationMatchesArea(s2.p, s2.q, s1.q);
    SignsOfNegativeProduct(SignedArea2(s2.p, s2.q, s1.p), SignedArea2(s2.p, s2.q, s1.q));
  }

  lemma SignsOfNegativeProduct(a: real, b: real)
    requires a * b < 0.0
    ensures (a < 0.0 && b > 0.0) || (a > 0.0 && b < 0.0)
  {
  }

  /** Two segments sharing an endpoint always intersect. */
  lemma SharedEndpointIntersects(s1: Segment, s2: Segment)
    requires s1.p == s2.p || s1.p == s2.q || s1.q == s2.p || s1.q == s2.q
    ensures Intersects(s1, s2)
  {
    OrientationDegenerate(s1.p, s1.q);
    OnSegmentEndpoints(s1.p, s1.q, s1.p);
  }

  /** The bounding boxes of two segments are separated along x or along y. */
  predicate BoxesDisjoint(s1: Segment, s2: Segment) {
    || Max(s1.p.x, s1.q.x) < Min(s2.p.x, s2.q.x)
    || Max(s2.p.x, s2.q.x) < Min(s1.p.x, s1.q.x)
    || Max(s1.p.y, s1.q.y) < Min(s2.p.y, s2.q.y)
    || Max(s2.p.y, s2.q.y) < Min(s1.p.y, s1.q.y)
  }

  /** Two collinear segments whose bounding boxes are disjoint do not intersect. */
  lemma CollinearDisjointDoNotIntersect(s1: Segment, s2: Segment)
    requires Collinear(s1.p, s1.q, s2.p) && Collinear(s1.p, s1.q, s2.q)
    requires BoxesDisjoint(s1, s2)
    ensures !Intersects(s1, s2)
  {
  }

  /** The movement [654,97] -> [650,97] crosses the tripwire (650,0)-(650,100)
      once the offset is applied; the next one-pixel step [650,97] -> [649,97]
      in the same direction does not, so the crossing is counted once. Both
      steps are in the same direction class. */
  lemma OffsetRegressionCase()
    ensures IntersectionAngle(Pixel(654, 97), Pixel(650, 97), Pixel(650, 0), Pixel(650, 100)) == (Some(Reverse), true)
    ensures IntersectionAngle(Pixel(650, 97), Pixel(649, 97), Pixel(650, 0), Pixel(650, 100)) == (Some(Reverse), false)
  {
    var line := Segment(Nudge(Pixel(650, 0)), Nudge(Pixel(650, 100)));
    var first := Segment(ToPoint(Pixel(654, 97)), ToPoint(Pixel(650, 97)));
    assert Orientation(first.p, first.q, line.p) == -1;
    assert Orientation(first.p, first.q, line.q) == 1;
    assert Orientation(line.p, line.q, first.p) == 1;
    assert Orientation(line.p, line.q, first.q) == -1;
    var second := Segment(ToPoint(Pixel(650, 97)), ToPoint(Pixel(649, 97)));
    assert Orientation(second.p, second.q, line.p) == -1;
    assert Orientation(second.p, second.q, line.q) == 1;
    assert Orientation(line.p, line.q, second.p) == -1;
    assert Orientation(line.p, line.q, second.q) == -1;
  }

  /** The offset moves both tripwire endpoints equally, so it never changes
      the tripwire's direction vector, which is zero exactly for a segment
      with equal endpoints. */
  lemma NudgeKeepsDirection(a: Pixel, b: Pixel)
    ensures Sub(Nudge(b), Nudge(a)) == Sub(ToPoint(b), ToPoint(a))
    ensures IsZero(Sub(Nudge(b), Nudge(a))) <==> a == b
  {
  }

  /** Lagrange's identity in two dimensions: cross and dot products of two
      non-zero vectors cannot both vanish. */
  lemma CrossDotNotBothZero(u: Vector, v: Vector)
    requires !IsZero(u) && !IsZero(v)
    ensures Cross(u, v) != 0.0 || Dot(u, v) != 0.0
  {
    NotBothZero(u.dx, u.dy, v.dx, v.dy);
  }

  /** The same on coordinates: (ad - bc)^2 + (ac + bd)^2 = (a^2 + b^2)(c^2 + d^2). */
  lemma NotBothZero(a: real, b: real, c: real, d: real)
    requires a != 0.0 || b != 0.0
    requires c != 0.0 || d != 0.0
    ensures a * d - b * c != 0.0 || a * c + b * d != 0.0
  {
  }

  function Opposite(d: Direction): Direction {
    match d
    case Forward => Reverse
    case Reverse => Forward
  }

  /** Reversing the movement reverses its direction class: walking back across
      a tripwire is always classified the other way. */
  lemma ReverseMoveFlipsClass(move: Vector, line: Vector)
    requires !IsZero(move) && !IsZero(line)
    ensures AngleClass(Neg(move), line) == Some(Opposite(AngleClass(move, line).value))
  {
    CrossDotNotBothZero(move, line);
    assert Cross(Neg(move), line) == -Cross(move, line);
    assert Dot(Neg(move), line) == -Dot(move, line);
  }

  /** Lengthening or shortening either vector without turning it keeps the
      class: it depends only on the directions of the movement and of the
      tripwire, so normalising both to unit length changes nothing. */
  lemma ScaleKeepsClass(k: real, move: Vector, line: Vector)
    requires k > 0.0
    ensures AngleClass(Scale(k, move), line) == AngleClass(move, line)
    ensures AngleClass(move, Scale(k, line)) == AngleClass(move, line)
  {
    ScaleMoveKeepsClass(k, move, line);
    ScaleLineKeepsClass(k, move, line);
  }

  lemma ScaleMoveKeepsClass(k: real, move: Vector, line: Vector)
    requires k > 0.0
    ensures AngleClass(Scale(k, move), line) == AngleClass(move, line)
  {
    assert Cross(Scale(k, move), line) == k * Cross(move, line);
    assert Dot(Scale(k, move), line) == k * Dot(move, line);
    ProductSign(k, Cross(move, line));
    ProductSign(k, Dot(move, line));
    if IsZero(Scale(k, move)) {
      assert k * move.dx == 0.0 && k * move.dy == 0.0;
      ProductSign(k, move.dx);
      ProductSign(k, move.dy);
    }
  }

  lemma ScaleLineKeepsClass(k: real, move: Vector, line: Vector)
    requires k > 0.0
    ensures AngleClass(move, Scale(k, line)) == AngleClass(move, line)
  {
    assert Cross(move, Scale(k, line)) == k * Cross(move, line);
    assert Dot(move, Scale(k, line)) == k * Dot(move, line);
    ProductSign(k, Cross(move, line));
    ProductSign(k, Dot(move, line));
    if IsZero(Scale(k, line)) {
      assert k * line.dx == 0.0 && k * line.dy == 0.0;
      ProductSign(k, line.dx);
      ProductSign(k, line.dy);
    }
  }

  lemma ProductSign(k: real, a: real)
    requires k > 0.0
    ensures (k * a > 0.0 <==> a > 0.0) && (k * a == 0.0 <==> a == 0.0)
  {
    if a > 0.0 {
      assert k * a > 0.0;
    } else if a < 0.0 {
      assert k * (-a) > 0.0;
    }
  }
}
