/** The per-identity tracker record (tracker_info.py, crowd_count.py:263-269),
    its anchor point and its bounded history. */
module TrackerInfo {
  import opened Results
  import opened Geometry
  import opened Hysteresis

  /** A tracker: recent anchors (oldest first), frames since last seen, the
      hysteresis flags and, in the multi-gate variant, the index of the gate
      whose segment was intersected last. The single-line variant never sets
      `gate`. */
  datatype Tracker = Tracker(history: seq<Pixel>, frameCount: nat, flags: Flags, gate: Option<nat>)

  /** A detector box, corners already converted to int. */
  datatype Box = Box(x1: int, y1: int, x2: int, y2: int)

  /** One box of a frame: whether the upstream tracker assigned it an
      identity, that identity, and the box. */
  datatype Detection = Detection(isTrack: bool, id: int, box: Box)

  /** A new tracker: empty history, zero age, nothing pending, no gate. */
  function NewTracker(): (t: Tracker)
    ensures t.history == [] && t.frameCount == 0
    ensures !t.flags.inReady && !t.flags.outReady && Exclusive(t.flags)
    ensures t.gate == None
  {
    Tracker([], 0, Idle, None)
  }

  /** The top-centre anchor of a box after the target-area origin is added to
      both corners: Python's floor division of the x sum by 2, and the top edge. */
  function Anchor(b: Box, origin: Pixel): (c: Pixel)
    ensures 2 * c.x <= (b.x1 + origin.x) + (b.x2 + origin.x) < 2 * c.x + 2
    ensures c.y == b.y1 + origin.y
  {
    Pixel(((b.x1 + origin.x) + (b.x2 + origin.x)) / 2, b.y1 + origin.y)
  }

  /** Moving the target area moves every anchor by the same amount. */
  lemma AnchorTranslates(b: Box, origin: Pixel)
    ensures Anchor(b, origin) == Pixel(Anchor(b, Pixel(0, 0)).x + origin.x, Anchor(b, Pixel(0, 0)).y + origin.y)
  {
    var c, c0 := Anchor(b, origin), Anchor(b, Pixel(0, 0));
    assert 2 * c.x <= b.x1 + b.x2 + 2 * origin.x < 2 * c.x + 2;
    assert 2 * c0.x <= b.x1 + b.x2 < 2 * c0.x + 2;
  }

  /** The least integer not below r. */
  function Ceil(r: real): (c: int)
    ensures c as real - 1.0 < r <= c as real
  {
    if r.Floor as real == r then r.Floor else r.Floor + 1
  }

  function MinInt(a: int, b: int): int { if a <= b then a else b }

  /** The history append of a tracked sighting: when the history already
      holds at least `fps` points its oldest point is dropped first. With a
      positive rate and a history within its capacity of Ceil(fps) points,
      the result is the most recent min(|h| + 1, Ceil(fps)) points of h + [p].
      A non-positive rate drops from an empty history, which raises. */
  function PushHistory(h: seq<Pixel>, p: Pixel, fps: real): (r: Result<seq<Pixel>>)
    ensures r.Failure? <==> |h| == 0 && fps <= 0.0
    ensures r.Success? ==> |r.value| <= |h| + 1 && r.value == (h + [p])[|h| + 1 - |r.value|..]
    ensures r.Success? ==> |r.value| > 0 && r.value[|r.value| - 1] == p
    ensures fps > 0.0 && |h| <= Ceil(fps) ==> r.Success? && |r.value| == MinInt(|h| + 1, Ceil(fps))
  {
    if |h| as real >= fps then
      if |h| == 0 then Failure(PopFromEmpty)
      else
        assert (h + [p])[1..] == h[1..] + [p];
        Success(h[1..] + [p])
    else
      assert (h + [p])[0..] == h + [p];
      Success(h + [p])
  }

  /** The length after a push at any rate: one point more while the history
      is below the rate, unchanged once it is at or above it. */
  lemma PushHistoryLength(h: seq<Pixel>, p: Pixel, fps: real)
    ensures (|h| as real) < fps ==> PushHistory(h, p, fps) == Success(h + [p])
    ensures PushHistory(h, p, fps).Success? && |h| as real >= fps ==> |PushHistory(h, p, fps).value| == |h|
  {
  }

  /** Successive sightings of one tracker. */
  function PushAll(h: seq<Pixel>, ps: seq<Pixel>, fps: real): Result<seq<Pixel>>
    decreases |ps|
  {
    if |ps| == 0 then Success(h)
    else
      match PushHistory(h, ps[0], fps)
      case Failure(e) => Failure(e)
      case Success(h1) => PushAll(h1, ps[1..], fps)
  }

  /** The history is a sliding window: after any run of sightings it holds the
      most recent Ceil(fps) anchors, in order. */
  lemma {:induction false} HistoryIsRecentWindow(h: seq<Pixel>, ps: seq<Pixel>, fps: real)
    requires fps > 0.0 && |h| <= Ceil(fps)
    ensures PushAll(h, ps, fps).Success?
    ensures var all := h + ps; PushAll(h, ps, fps).value == all[|all| - MinInt(|all|, Ceil(fps))..]
    decreases |ps|
  {
    if |ps| == 0 {
      assert h + ps == h;
    } else {
      var c := Ceil(fps);
      var h1 := PushHistory(h, ps[0], fps).value;
      assert PushAll(h, ps, fps) == PushAll(h1, ps[1..], fps);
      HistoryIsRecentWindow(h1, ps[1..], fps);
      var all, all1 := h + ps, h1 + ps[1..];
      var k := |h| + 1 - |h1|;
      assert h1 == (h + [ps[0]])[k..];
      SuffixThenRest(h, ps, k);
      var m := MinInt(|all|, c);
      assert MinInt(|all1|, c) == m;
      SuffixOfSuffix(all, k, |all1| - m);
      assert k + (|all1| - m) == |all| - m;
      assert PushAll(h1, ps[1..], fps).value == all1[|all1| - m..];
    }
  }

  /** A history at or above the rate, as left behind when the rate drops,
      never shrinks back: each sighting drops one point and adds one, so the
      history keeps its length and holds the most recent |h| anchors. */
  lemma {:induction false} OverfullHistoryStays(h: seq<Pixel>, ps: seq<Pixel>, fps: real)
    requires |h| > 0 && |h| as real >= fps
    ensures PushAll(h, ps, fps).Success?
    ensures PushAll(h, ps, fps).value == (h + ps)[|ps|..]
    decreases |ps|
  {
    if |ps| == 0 {
      assert h + ps == h;
    } else {
      PushHistoryLength(h, ps[0], fps);
      var h1 := PushHistory(h, ps[0], fps).value;
      assert h1 == (h + [ps[0]])[1..];
      assert PushAll(h, ps, fps) == PushAll(h1, ps[1..], fps);
      OverfullHistoryStays(h1, ps[1..], fps);
      SuffixThenRest(h, ps, 1);
      SuffixOfSuffix(h + ps, 1, |ps| - 1);
    }
  }

  lemma SuffixThenRest<T>(h: seq<T>, ps: seq<T>, k: nat)
    requires |ps| > 0 && k <= |h| + 1
    ensures (h + [ps[0]])[k..] + ps[1..] == (h + ps)[k..]
  {
    assert h + ps == (h + [ps[0]]) + ps[1..];
  }

  lemma SuffixOfSuffix<T>(a: seq<T>, k: nat, j: nat)
    requires k + j <= |a|
    ensures a[k..][j..] == a[k + j..]
  {
  }

  /** Every tracker gets one frame older (flow_count.py:121-123). */
  function Age(m: map<int, Tracker>): (r: map<int, Tracker>)
    ensures r.Keys == m.Keys
  {
    map id | id in m :: m[id].(frameCount := m[id].frameCount + 1)
  }

  /** A tracker not seen for more than four seconds of sampled frames. */
  predicate Stale(t: Tracker, fps: real) {
    t.frameCount as real > fps * 4.0
  }

  /** Identities with a pending flag: the `pending_in` / `pending_out` tallies. */
  function PendingInIds(m: map<int, Tracker>): set<int> {
    set id | id in m && m[id].flags.inReady
  }

  function PendingOutIds(m: map<int, Tracker>): set<int> {
    set id | id in m && m[id].flags.outReady
  }
}
