/** The per-detection pass of one processed frame, shared by both variants
    (flow_count.py:143-219, crowd_count.py:53-133): get or create the
    tracker, reset its age, test the step since its last anchor when it
    moved, and append the anchor to its history. */
module Sighting {
  import opened Results
  import opened Geometry
  import opened Hysteresis
  import opened TrackerInfo
  import opened Crossing

  function Last(h: seq<Pixel>): Pixel
    requires |h| > 0
  {
    h[|h| - 1]
  }

  /** The invariant every live tracker keeps: a history within capacity, at
      most one pending flag, and, in the multi-gate variant, a valid gate that
      is set whenever a flag is; the single-line variant never sets a gate. */
  predicate TrackerOk(t: Tracker, fps: real, w: Tripwires) {
    |t.history| <= Ceil(fps) && FlagsOk(t.flags, t.gate, w)
  }

  /** The part of the invariant about the flags and the gate. */
  predicate FlagsOk(f: Flags, gate: Option<nat>, w: Tripwires) {
    && Exclusive(f)
    && (match w
        case FlowLines(_) => gate.None?
        case CrowdGates(gates) =>
          && (gate.Some? ==> gate.value < |gates|)
          && (f.inReady || f.outReady ==> gate.Some?))
  }

  predicate StoreOk(m: map<int, Tracker>, fps: real, w: Tripwires) {
    forall id :: id in m ==> TrackerOk(m[id], fps, w)
  }

  /** The crossing test runs only when the tracker has a previous anchor and
      the new anchor differs from it; otherwise nothing but the age changes. */
  function CrossIfMoved(t: Tracker, center: Pixel, w: Tripwires): (r: Result<Tracker>)
    ensures (|t.history| == 0 || Last(t.history) == center) ==> r == Success(t)
    ensures r.Success? ==> r.value.history == t.history && r.value.frameCount == t.frameCount
    ensures r.Success? && Exclusive(t.flags) ==> Exclusive(r.value.flags)
    ensures r.Success? && w.FlowLines? ==> r.value.gate == t.gate
    ensures r.Success? && w.CrowdGates? ==> r.value.gate == t.gate || (r.value.gate.Some? && r.value.gate.value < GateCount(w))
    ensures r.Success? && w.CrowdGates? && r.value.gate == t.gate && t.gate.None? ==> r.value.flags == t.flags
  {
    if |t.history| > 0 && Last(t.history) != center then CrossStep(t, Last(t.history), center, w) else Success(t)
  }

  /** One tracked sighting of t at anchor `center`. */
  function Sight(t: Tracker, center: Pixel, w: Tripwires, fps: real): (r: Result<Tracker>)
    ensures r.Success? ==> r.value.frameCount == 0
    ensures r.Success? ==> PushHistory(t.history, center, fps) == Success(r.value.history)
    ensures r.Success? && (|t.history| == 0 || Last(t.history) == center) ==>
              r.value.flags == t.flags && r.value.gate == t.gate
  {
    match CrossIfMoved(t.(frameCount := 0), center, w)
    case Failure(e) => Failure(e)
    case Success(t1) =>
      match PushHistory(t1.history, center, fps)
      case Failure(e) => Failure(e)
      case Success(h) => Success(t1.(history := h))
  }

  /** A sighting keeps the tracker invariant. */
  lemma SightKeepsInvariant(t: Tracker, center: Pixel, w: Tripwires, fps: real)
    requires fps > 0.0 && TrackerOk(t, fps, w) && Sight(t, center, w, fps).Success?
    ensures TrackerOk(Sight(t, center, w, fps).value, fps, w)
  {
    var t0 := t.(frameCount := 0);
    var t1 := CrossIfMoved(t0, center, w).value;
    CrossIfMovedKeepsFlagsOk(t0, center, w);
    PushKeepsBound(t1.history, center, fps);
    var h := PushHistory(t1.history, center, fps).value;
    assert Sight(t, center, w, fps) == Success(t1.(history := h));
    OkFromParts(t1, h, fps, w);
  }

  lemma PushKeepsBound(h: seq<Pixel>, p: Pixel, fps: real)
    requires fps > 0.0 && |h| <= Ceil(fps)
    ensures PushHistory(h, p, fps).Success? && |PushHistory(h, p, fps).value| <= Ceil(fps)
  {
  }

  lemma OkFromParts(t: Tracker, h: seq<Pixel>, fps: real, w: Tripwires)
    requires FlagsOk(t.flags, t.gate, w) && |h| <= Ceil(fps)
    ensures TrackerOk(t.(history := h), fps, w)
  {
  }

  lemma CrossIfMovedKeepsFlagsOk(t: Tracker, center: Pixel, w: Tripwires)
    requires FlagsOk(t.flags, t.gate, w) && CrossIfMoved(t, center, w).Success?
    ensures FlagsOk(CrossIfMoved(t, center, w).value.flags, CrossIfMoved(t, center, w).value.gate, w)
  {
  }

  /** Sighting never raises on well-formed tripwires and a positive rate. */
  lemma SightTotal(t: Tracker, center: Pixel, w: Tripwires, fps: real)
    requires WellFormed(w) && fps > 0.0
    ensures Sight(t, center, w, fps).Success?
  {
    var t0 := t.(frameCount := 0);
    if |t0.history| > 0 && Last(t0.history) != center {
      CrossStepTotal(t0, Last(t0.history), center, w);
    }
  }

  /** A tracker's first sighting only records the anchor: its history is
      empty, so no step exists and neither flag can change. */
  lemma FirstSighting(center: Pixel, w: Tripwires, fps: real)
    requires fps > 0.0
    ensures Sight(NewTracker(), center, w, fps) == Success(Tracker([center], 0, Idle, None))
  {
  }

  /** The detection pass over one box: an untracked box changes nothing. */
  function ObserveOne(m: map<int, Tracker>, d: Detection, origin: Pixel, w: Tripwires, fps: real): (r: Result<map<int, Tracker>>)
    ensures !d.isTrack ==> r == Success(m)
    ensures r.Success? ==> r.value.Keys == m.Keys + (if d.isTrack then {d.id} else {})
    ensures r.Success? ==> forall id :: id in m && id != d.id ==> r.value[id] == m[id]
    ensures r.Success? && d.isTrack ==> r.value[d.id].frameCount == 0
  {
    if !d.isTrack then Success(m)
    else
      var t := if d.id in m then m[d.id] else NewTracker();
      match Sight(t, Anchor(d.box, origin), w, fps)
      case Failure(e) => Failure(e)
      case Success(t1) =>
        assert t1.frameCount == 0;
        assert m[d.id := t1].Keys == m.Keys + {d.id};
        Success(m[d.id := t1])
  }

  lemma ObserveOneKeepsInvariant(m: map<int, Tracker>, d: Detection, origin: Pixel, w: Tripwires, fps: real)
    requires fps > 0.0 && StoreOk(m, fps, w) && ObserveOne(m, d, origin, w, fps).Success?
    ensures StoreOk(ObserveOne(m, d, origin, w, fps).value, fps, w)
  {
    if d.isTrack {
      var t := if d.id in m then m[d.id] else NewTracker();
      assert TrackerOk(t, fps, w) by {
        if d.id !in m {
          assert Ceil(fps) >= 1;
        }
      }
      var c := Anchor(d.box, origin);
      var s := Sight(t, c, w, fps);
      assert ObserveOne(m, d, origin, w, fps) == Success(m[d.id := s.value]);
      SightKeepsInvariant(t, c, w, fps);
      StoreUpdate(m, d.id, s.value, fps, w);
    }
  }

  /** Replacing one tracker by a valid one keeps the store valid. */
  lemma StoreUpdate(m: map<int, Tracker>, id: int, t: Tracker, fps: real, w: Tripwires)
    requires StoreOk(m, fps, w) && TrackerOk(t, fps, w)
    ensures StoreOk(m[id := t], fps, w)
  {
  }

  /** Identities of the tracked boxes of a frame. */
  function TrackedIds(dets: seq<Detection>): set<int> {
    set i | 0 <= i < |dets| && dets[i].isTrack :: dets[i].id
  }

  /** The detection pass over all boxes of a frame, in order: it creates a
      tracker for every new tracked identity, leaves every other identity
      untouched, and ends with every tracked identity's age at zero. */
  function Observe(m: map<int, Tracker>, dets: seq<Detection>, origin: Pixel, w: Tripwires, fps: real): (r: Result<map<int, Tracker>>)
    ensures r.Success? ==> r.value.Keys == m.Keys + TrackedIds(dets)
    ensures r.Success? ==> forall id :: id in m && id !in TrackedIds(dets) ==> r.value[id] == m[id]
    ensures r.Success? ==> forall id :: id in TrackedIds(dets) ==> r.value[id].frameCount == 0
    decreases |dets|
  {
    if |dets| == 0 then Success(m)
    else
      match ObserveOne(m, dets[0], origin, w, fps)
      case Failure(e) => Failure(e)
      case Success(m1) =>
        var r := Observe(m1, dets[1..], origin, w, fps);
        if r.Success? then
          ObserveCons(m, m1, dets, r.value);
          r
        else r
  }

  /** One box followed by the rest of the frame: the per-box and rest-of-frame
      facts compose into the facts about the whole frame. */
  lemma ObserveCons(m: map<int, Tracker>, m1: map<int, Tracker>, dets: seq<Detection>, r: map<int, Tracker>)
    requires |dets| > 0
    requires !dets[0].isTrack ==> m1 == m
    requires m1.Keys == m.Keys + (if dets[0].isTrack then {dets[0].id} else {})
    requires forall id :: id in m && id != dets[0].id ==> m1[id] == m[id]
    requires dets[0].isTrack ==> m1[dets[0].id].frameCount == 0
    requires r.Keys == m1.Keys + TrackedIds(dets[1..])
    requires forall id :: id in m1 && id !in TrackedIds(dets[1..]) ==> r[id] == m1[id]
    requires forall id :: id in TrackedIds(dets[1..]) ==> r[id].frameCount == 0
    ensures r.Keys == m.Keys + TrackedIds(dets)
    ensures forall id :: id in m && id !in TrackedIds(dets) ==> r[id] == m[id]
    ensures forall id :: id in TrackedIds(dets) ==> r[id].frameCount == 0
  {
    TrackedIdsCons(dets);
  }

  /** The detection pass keeps the tracker invariant. */
  lemma {:induction false} ObserveKeepsInvariant(m: map<int, Tracker>, dets: seq<Detection>, origin: Pixel, w: Tripwires, fps: real)
    requires fps > 0.0 && StoreOk(m, fps, w) && Observe(m, dets, origin, w, fps).Success?
    ensures StoreOk(Observe(m, dets, origin, w, fps).value, fps, w)
    decreases |dets|
  {
    if |dets| > 0 {
      ObserveOneKeepsInvariant(m, dets[0], origin, w, fps);
      var m1 := ObserveOne(m, dets[0], origin, w, fps).value;
      ObserveKeepsInvariant(m1, dets[1..], origin, w, fps);
    }
  }

  lemma TrackedIdsCons(dets: seq<Detection>)
    requires |dets| > 0
    ensures TrackedIds(dets) == (if dets[0].isTrack then {dets[0].id} else {}) + TrackedIds(dets[1..])
  {
    var rest := dets[1..];
    forall id | id in TrackedIds(dets)
      ensures id in (if dets[0].isTrack then {dets[0].id} else {}) + TrackedIds(rest)
    {
      var i :| 0 <= i < |dets| && dets[i].isTrack && dets[i].id == id;
      if i > 0 {
        assert rest[i - 1] == dets[i];
      }
    }
    forall id | id in TrackedIds(rest)
      ensures id in TrackedIds(dets)
    {
      var i :| 0 <= i < |rest| && rest[i].isTrack && rest[i].id == id;
      assert dets[i + 1] == rest[i];
    }
  }

  /** The pass never raises on well-formed tripwires and a positive rate. */
  lemma {:induction false} ObserveTotal(m: map<int, Tracker>, dets: seq<Detection>, origin: Pixel, w: Tripwires, fps: real)
    requires WellFormed(w) && fps > 0.0
    ensures Observe(m, dets, origin, w, fps).Success?
    decreases |dets|
  {
    if |dets| > 0 {
      var d := dets[0];
      if d.isTrack {
        SightTotal(if d.id in m then m[d.id] else NewTracker(), Anchor(d.box, origin), w, fps);
      }
      var m1 := ObserveOne(m, d, origin, w, fps).value;
      ObserveTotal(m1, dets[1..], origin, w, fps);
    }
  }

  /** The boxes the upstream tracker assigned an identity to, in frame order. */
  function Tracked(dets: seq<Detection>): (r: seq<Detection>)
    ensures forall i :: 0 <= i < |r| ==> r[i].isTrack
    ensures forall d :: d in r <==> d in dets && d.isTrack
    ensures |r| <= |dets|
    decreases |dets|
  {
    if |dets| == 0 then []
    else if dets[0].isTrack then [dets[0]] + Tracked(dets[1..])
    else Tracked(dets[1..])
  }

  /** Boxes the upstream tracker did not assign an identity to do not create,
      modify or reset any tracker: dropping them gives the same pass. */
  lemma {:induction false} UntrackedBoxesIgnored(m: map<int, Tracker>, dets: seq<Detection>, origin: Pixel, w: Tripwires, fps: real)
    ensures Observe(m, dets, origin, w, fps) == Observe(m, Tracked(dets), origin, w, fps)
    decreases |dets|
  {
    if |dets| > 0 {
      var d := dets[0];
      if d.isTrack {
        assert ([d] + Tracked(dets[1..]))[1..] == Tracked(dets[1..]);
        match ObserveOne(m, d, origin, w, fps)
        case Failure(_) =>
        case Success(m1) =>
          UntrackedBoxesIgnored(m1, dets[1..], origin, w, fps);
      } else {
        UntrackedBoxesIgnored(m, dets[1..], origin, w, fps);
      }
    }
  }
}
