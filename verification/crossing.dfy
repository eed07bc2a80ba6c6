/** The crossing test of one step of a tracked object against the configured
    tripwires: the flat coordinate list walked with step 2 and window 4
    (flow_count.py:183-209), and the walk over every gate that also records
    the last gate touched (crowd_count.py:96-124). */
module Crossing {
  import opened Results
  import opened Geometry
  import GeometryLemmas
  import opened Hysteresis
  import opened TrackerInfo

  /** Tests the step last -> center against the tripwire segment a -> b:
      no crossing, a crossing with its class, or the raise that follows an
      intersection whose angle is undefined. */
  function TestSegment(last: Pixel, center: Pixel, a: Pixel, b: Pixel): (r: Result<Option<Direction>>)
    ensures r.Failure? ==> a == b || last == center
    ensures r.Success? && r.value.Some? ==> IntersectionAngle(last, center, a, b).1
  {
    var (angle, hit) := IntersectionAngle(last, center, a, b);
    GeometryLemmas.NudgeKeepsDirection(a, b);
    if !hit then Success(None)
    else
      match angle
      case None => Failure(AngleUndefined)
      case Some(d) => Success(Some(d))
  }

  /** The running result of a walk: the flags so far and whether any segment
      was intersected. */
  datatype Sweep = Sweep(flags: Flags, hit: bool)

  /** `for i in range(0, len(lines) - 2, 2)` over a flat coordinate list: the
      window lines[i..i+4] is the segment (lines[i], lines[i+1]) ->
      (lines[i+2], lines[i+3]); a window of three coordinates cannot be
      unpacked. Every window is checked, with no early exit. */
  function SweepLine(s: Sweep, last: Pixel, center: Pixel, lines: seq<int>, i: nat): (r: Result<Sweep>)
    ensures r.Success? ==> (s.hit ==> r.value.hit) && (r.value.hit || r.value.flags == s.flags)
    ensures r.Success? && Exclusive(s.flags) ==> Exclusive(r.value.flags)
    decreases |lines| - i
  {
    if i + 2 >= |lines| then Success(s)
    else if i + 4 > |lines| then Failure(UnpackMismatch)
    else
      match TestSegment(last, center, Pixel(lines[i], lines[i + 1]), Pixel(lines[i + 2], lines[i + 3]))
      case Failure(e) => Failure(e)
      case Success(None) => SweepLine(s, last, center, lines, i + 2)
      case Success(Some(d)) => SweepLine(Sweep(Toggle(s.flags, d), true), last, center, lines, i + 2)
  }

  /** The vertices of a flat coordinate list read as (x, y) pairs. */
  function Polyline(lines: seq<int>): (pts: seq<Pixel>)
    ensures |pts| == |lines| / 2
    ensures forall k :: 0 <= k < |pts| ==> pts[k] == Pixel(lines[2 * k], lines[2 * k + 1])
  {
    seq(|lines| / 2, k requires 0 <= k < |lines| / 2 => Pixel(lines[2 * k], lines[2 * k + 1]))
  }

  /** No segment of the polyline has zero length. */
  predicate NoZeroSegment(pts: seq<Pixel>) {
    forall k :: 0 <= k < |pts| - 1 ==> pts[k] != pts[k + 1]
  }

  /** A tripwire list the walk can never raise on: an even number of
      coordinates and no zero-length segment. */
  predicate WellFormedLine(lines: seq<int>) {
    |lines| % 2 == 0 && NoZeroSegment(Polyline(lines))
  }

  /** Whether every window `lines[k:k + 4]` of the walk
      `range(0, len(lines) - 2, 2)` holds four numbers. An odd list of three
      or more ends in a window of three, which fails to unpack. */
  predicate Unpackable(lines: seq<int>) {
    |lines| < 3 || |lines| % 2 == 0
  }

  /** The class of the segment a -> b when the step intersects it, as a
      sequence of at most one element. */
  function Contribution(last: Pixel, center: Pixel, a: Pixel, b: Pixel): seq<Direction> {
    var (angle, hit) := IntersectionAngle(last, center, a, b);
    if hit && angle.Some? then [angle.value] else []
  }

  /** Reference definition: the classes of the polyline's segments (p_k, p_k+1)
      that the step intersects, in order. */
  function Hits(last: Pixel, center: Pixel, pts: seq<Pixel>): seq<Direction>
    decreases |pts|
  {
    if |pts| < 2 then [] else Contribution(last, center, pts[0], pts[1]) + Hits(last, center, pts[1..])
  }

  /** A moving step checked against a segment of non-zero length never raises,
      and reports exactly the segment's contribution. */
  lemma TestSegmentAgrees(last: Pixel, center: Pixel, a: Pixel, b: Pixel)
    requires a != b && last != center
    ensures TestSegment(last, center, a, b).Success?
    ensures TestSegment(last, center, a, b).value.None? <==> Contribution(last, center, a, b) == []
    ensures TestSegment(last, center, a, b).value.Some? ==>
              Contribution(last, center, a, b) == [TestSegment(last, center, a, b).value.value]
  {
    GeometryLemmas.NudgeKeepsDirection(a, b);
    assert !IsZero(Sub(ToPoint(center), ToPoint(last)));
  }

  /** On a well-formed list, the index walk applies the hysteresis to exactly
      the polyline segments the step intersects, in order, and reports a hit
      exactly when there was one. */
  lemma SweepLineIsPolylineFold(f: Flags, hit: bool, last: Pixel, center: Pixel, lines: seq<int>)
    requires WellFormedLine(lines) && last != center
    ensures var hs := Hits(last, center, Polyline(lines));
            SweepLine(Sweep(f, hit), last, center, lines, 0) == Success(Sweep(ToggleAll(f, hs), hit || |hs| > 0))
  {
    SweepFrom(Sweep(f, hit), last, center, lines, 0);
    assert Polyline(lines)[0..] == Polyline(lines);
  }

  lemma {:induction false} SweepFrom(s: Sweep, last: Pixel, center: Pixel, lines: seq<int>, j: nat)
    requires WellFormedLine(lines) && last != center
    requires 2 * j <= |lines|
    ensures var hs := Hits(last, center, Polyline(lines)[j..]);
            SweepLine(s, last, center, lines, 2 * j) == Success(Sweep(ToggleAll(s.flags, hs), s.hit || |hs| > 0))
    decreases |lines| - 2 * j
  {
    var pts := Polyline(lines);
    var i := 2 * j;
    if i + 2 >= |lines| {
      assert |pts[j..]| < 2;
    } else {
      assert i + 4 <= |lines|;
      var a, b := pts[j], pts[j + 1];
      assert a == Pixel(lines[i], lines[i + 1]);
      assert b == Pixel(lines[i + 2], lines[i + 3]) by {
        assert 2 * (j + 1) == i + 2;
      }
      assert a != b;
      TestSegmentAgrees(last, center, a, b);
      assert pts[j..][1..] == pts[j + 1..];
      assert pts[j..][0] == a && pts[j..][1] == b;
      var rest := Hits(last, center, pts[j + 1..]);
      assert Hits(last, center, pts[j..]) == Contribution(last, center, a, b) + rest;
      match TestSegment(last, center, a, b)
      case Success(None) =>
        assert SweepLine(s, last, center, lines, i) == SweepLine(s, last, center, lines, i + 2);
        SweepFrom(s, last, center, lines, j + 1);
        assert Hits(last, center, pts[j..]) == rest;
      case Success(Some(d)) =>
        var s1 := Sweep(Toggle(s.flags, d), true);
        assert SweepLine(s, last, center, lines, i) == SweepLine(s1, last, center, lines, i + 2);
        SweepFrom(s1, last, center, lines, j + 1);
        assert Hits(last, center, pts[j..]) == [d] + rest;
        assert ([d] + rest)[1..] == rest;
        assert ToggleAll(s.flags, [d] + rest) == ToggleAll(s1.flags, rest);
    }
  }

  /** An odd-length list of at least three coordinates always raises once a
      tracked object moves: either at a zero-length segment or at the final
      three-coordinate window. */
  lemma {:induction false} OddLineRaises(s: Sweep, last: Pixel, center: Pixel, lines: seq<int>, j: nat)
    requires |lines| % 2 == 1 && |lines| >= 3 && 2 * j + 3 <= |lines|
    ensures SweepLine(s, last, center, lines, 2 * j).Failure?
    decreases |lines| - 2 * j
  {
    var i := 2 * j;
    if i + 4 <= |lines| {
      match TestSegment(last, center, Pixel(lines[i], lines[i + 1]), Pixel(lines[i + 2], lines[i + 3]))
      case Failure(_) =>
      case Success(None) =>
        OddLineRaises(s, last, center, lines, j + 1);
      case Success(Some(d)) =>
        OddLineRaises(Sweep(Toggle(s.flags, d), true), last, center, lines, j + 1);
    }
  }

  /** `for gate in self.gates`: every gate's list is walked with the same step;
      each gate with an intersected segment becomes the tracker's gate, so the
      last such gate wins. */
  function SweepGates(t: Tracker, last: Pixel, center: Pixel, gates: seq<seq<int>>, g: nat): (r: Result<Tracker>)
    ensures r.Success? ==> r.value.history == t.history && r.value.frameCount == t.frameCount
    ensures r.Success? ==> r.value.gate == t.gate || (r.value.gate.Some? && g <= r.value.gate.value < |gates|)
    ensures r.Success? && Exclusive(t.flags) ==> Exclusive(r.value.flags)
    ensures r.Success? && r.value.gate == t.gate && t.gate.None? ==> r.value.flags == t.flags
    decreases |gates| - g
  {
    if g >= |gates| then Success(t)
    else
      match SweepLine(Sweep(t.flags, false), last, center, gates[g], 0)
      case Failure(e) => Failure(e)
      case Success(s) => SweepGates(t.(flags := s.flags, gate := if s.hit then Some(g) else t.gate), last, center, gates, g + 1)
  }

  predicate WellFormedGates(gates: seq<seq<int>>) {
    forall g :: 0 <= g < |gates| ==> WellFormedLine(gates[g])
  }

  /** Reference definition: the classes of every intersected segment of the
      gates from g on, gate by gate. */
  function AllHits(last: Pixel, center: Pixel, gates: seq<seq<int>>, g: nat): seq<Direction>
    decreases |gates| - g
  {
    if g >= |gates| then [] else Hits(last, center, Polyline(gates[g])) + AllHits(last, center, gates, g + 1)
  }

  predicate GateHit(last: Pixel, center: Pixel, gates: seq<seq<int>>, g: nat)
    requires g < |gates|
  {
    |Hits(last, center, Polyline(gates[g]))| > 0
  }

  /** One gate of the walk: its segments are applied to the flags, and the
      gate becomes the tracker's gate when one of them was intersected. */
  function AfterGate(t: Tracker, last: Pixel, center: Pixel, gates: seq<seq<int>>, g: nat): Tracker
    requires g < |gates|
  {
    var hs := Hits(last, center, Polyline(gates[g]));
    t.(flags := ToggleAll(t.flags, hs), gate := if |hs| > 0 then Some(g) else t.gate)
  }

  lemma SweepGatesStep(t: Tracker, last: Pixel, center: Pixel, gates: seq<seq<int>>, g: nat)
    requires WellFormedGates(gates) && last != center && g < |gates|
    ensures SweepGates(t, last, center, gates, g) == SweepGates(AfterGate(t, last, center, gates, g), last, center, gates, g + 1)
  {
    SweepLineIsPolylineFold(t.flags, false, last, center, gates[g]);
  }

  /** The gate walk applies every intersected segment of every gate, in order. */
  lemma {:induction false} SweepGatesAppliesAllHits(t: Tracker, last: Pixel, center: Pixel, gates: seq<seq<int>>, g: nat)
    requires WellFormedGates(gates) && last != center && g <= |gates|
    ensures SweepGates(t, last, center, gates, g).Success?
    ensures SweepGates(t, last, center, gates, g).value.flags == ToggleAll(t.flags, AllHits(last, center, gates, g))
    decreases |gates| - g
  {
    if g < |gates| {
      var hs := Hits(last, center, Polyline(gates[g]));
      var rest := AllHits(last, center, gates, g + 1);
      SweepGatesStep(t, last, center, gates, g);
      var t1 := AfterGate(t, last, center, gates, g);
      assert t1.flags == ToggleAll(t.flags, hs);
      SweepGatesAppliesAllHits(t1, last, center, gates, g + 1);
      ToggleAllAppend(t.flags, hs, rest);
      assert AllHits(last, center, gates, g) == hs + rest;
    }
  }

  /** Without an intersected segment in any gate from g on, the tracker's gate
      stays as it was. */
  lemma {:induction false} SweepGatesKeepsGateWithoutHit(t: Tracker, last: Pixel, center: Pixel, gates: seq<seq<int>>, g: nat)
    requires WellFormedGates(gates) && last != center && g <= |gates|
    requires forall k :: g <= k < |gates| ==> !GateHit(last, center, gates, k)
    ensures SweepGates(t, last, center, gates, g).Success?
    ensures SweepGates(t, last, center, gates, g).value.gate == t.gate
    decreases |gates| - g
  {
    if g < |gates| {
      SweepGatesStep(t, last, center, gates, g);
      var t1 := AfterGate(t, last, center, gates, g);
      assert !GateHit(last, center, gates, g);
      assert t1.gate == t.gate;
      SweepGatesKeepsGateWithoutHit(t1, last, center, gates, g + 1);
    }
  }

  /** The tracker's gate ends as the last gate with an intersected segment:
      `tracker.gate = gate` runs on every hit, so the last one wins. */
  lemma {:induction false} SweepGatesAttributesLastHit(t: Tracker, last: Pixel, center: Pixel, gates: seq<seq<int>>, g: nat, k: nat)
    requires WellFormedGates(gates) && last != center && g <= k < |gates|
    requires GateHit(last, center, gates, k)
    ensures SweepGates(t, last, center, gates, g).Success?
    ensures var r := SweepGates(t, last, center, gates, g).value;
            && r.gate.Some? && k <= r.gate.value < |gates| && GateHit(last, center, gates, r.gate.value)
            && forall k' :: r.gate.value < k' < |gates| ==> !GateHit(last, center, gates, k')
    decreases |gates| - g
  {
    SweepGatesStep(t, last, center, gates, g);
    var t1 := AfterGate(t, last, center, gates, g);
    if g < k {
      SweepGatesAttributesLastHit(t1, last, center, gates, g + 1, k);
    } else if exists k' :: g < k' < |gates| && GateHit(last, center, gates, k') {
      var k' :| g < k' < |gates| && GateHit(last, center, gates, k');
      SweepGatesAttributesLastHit(t1, last, center, gates, g + 1, k');
    } else {
      SweepGatesKeepsGateWithoutHit(t1, last, center, gates, g + 1);
    }
  }

  /** The configured tripwires of either variant: one flat coordinate list
      (flow_count.py) or one flat list per gate (crowd_count.py). */
  datatype Tripwires = FlowLines(lines: seq<int>) | CrowdGates(gates: seq<seq<int>>)

  predicate WellFormed(w: Tripwires) {
    match w
    case FlowLines(lines) => WellFormedLine(lines)
    case CrowdGates(gates) => WellFormedGates(gates)
  }

  function GateCount(w: Tripwires): nat {
    match w
    case FlowLines(_) => 0
    case CrowdGates(gates) => |gates|
  }

  /** The crossing test of one moved step, for either variant. */
  function CrossStep(t: Tracker, last: Pixel, center: Pixel, w: Tripwires): (r: Result<Tracker>)
    ensures r.Success? ==> r.value.history == t.history && r.value.frameCount == t.frameCount
    ensures r.Success? && Exclusive(t.flags) ==> Exclusive(r.value.flags)
    ensures r.Success? && w.FlowLines? ==> r.value.gate == t.gate
    ensures r.Success? && w.CrowdGates? ==> r.value.gate == t.gate || (r.value.gate.Some? && r.value.gate.value < GateCount(w))
    ensures r.Success? && w.CrowdGates? && r.value.gate == t.gate && t.gate.None? ==> r.value.flags == t.flags
  {
    match w
    case FlowLines(lines) =>
      (match SweepLine(Sweep(t.flags, false), last, center, lines, 0)
       case Failure(e) => Failure(e)
       case Success(s) => Success(t.(flags := s.flags)))
    case CrowdGates(gates) => SweepGates(t, last, center, gates, 0)
  }

  /** Well-formed tripwires never make the crossing test of a moved step raise. */
  lemma CrossStepTotal(t: Tracker, last: Pixel, center: Pixel, w: Tripwires)
    requires WellFormed(w) && last != center
    ensures CrossStep(t, last, center, w).Success?
  {
    match w
    case FlowLines(lines) =>
      SweepLineIsPolylineFold(t.flags, false, last, center, lines);
    case CrowdGates(gates) =>
      SweepGatesAppliesAllHits(t, last, center, gates, 0);
  }
}
