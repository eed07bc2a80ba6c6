/** The single-line counting engine of flow_count.py: one polyline of
    tripwires, one pair of global counters, and trackers without a gate. */
module FlowCount {
  import opened Results
  import opened Geometry
  import opened Hysteresis
  import opened TrackerInfo
  import opened Crossing
  import opened Sighting
  import opened Eviction

  /** `self.trackers`, `self.in_count`, `self.out_count`. */
  datatype FlowState = FlowState(trackers: map<int, Tracker>, inCount: nat, outCount: nat)

  /** The state before the first frame. */
  const Initial: FlowState := FlowState(map[], 0, 0)

  /** Eviction as one batch: every stale tracker is removed and each pending
      flag among them becomes one count. */
  function Evict(s: FlowState, fps: real): (r: FlowState)
    ensures forall id :: id in r.trackers <==> id in s.trackers && !Stale(s.trackers[id], fps)
    ensures forall id :: id in r.trackers ==> r.trackers[id] == s.trackers[id]
    ensures r.inCount >= s.inCount && r.outCount >= s.outCount
  {
    var gone := StaleIds(s.trackers, fps);
    FlowState(s.trackers - gone,
              s.inCount + |gone * PendingInIds(s.trackers)|,
              s.outCount + |gone * PendingOutIds(s.trackers)|)
  }

  /** One pass of the source's loop over `to_delete`: a pending `in` flag
      adds one to the in counter and pushes one `in` record to the metrics
      sink tagged with the channel name, likewise for `out`, then the tracker
      is deleted. */
  function FinalizeOne(s: FlowState, name: string, id: int): (r: (FlowState, seq<CountEvent>))
    requires id in s.trackers
    ensures r.0.trackers == s.trackers - {id}
    ensures r.0.inCount == s.inCount + (if s.trackers[id].flags.inReady then 1 else 0)
    ensures r.0.outCount == s.outCount + (if s.trackers[id].flags.outReady then 1 else 0)
    ensures CountOf(r.1, In) == r.0.inCount - s.inCount && CountOf(r.1, Out) == r.0.outCount - s.outCount
    ensures |r.1| == (r.0.inCount - s.inCount) + (r.0.outCount - s.outCount)
    ensures forall i :: 0 <= i < |r.1| ==> r.1[i].channel == name
  {
    var f := s.trackers[id].flags;
    (FlowState(s.trackers - {id}, s.inCount + Indicator(f.inReady), s.outCount + Indicator(f.outReady)),
     Records(name, f))
  }

  /** The whole loop over `to_delete`, in the order given. */
  function FinalizeInOrder(s: FlowState, name: string, ids: seq<int>): (FlowState, seq<CountEvent>)
    requires Distinct(ids) && SetOf(ids) <= s.trackers.Keys
    decreases |ids|
  {
    if |ids| == 0 then (s, [])
    else
      SetOfCons(ids);
      var first := FinalizeOne(s, name, ids[0]);
      var rest := FinalizeInOrder(first.0, name, ids[1..]);
      (rest.0, first.1 + rest.1)
  }

  /** Deleting identities one at a time, in any order, removes exactly those
      identities and credits each pending flag among them once. */
  lemma {:induction false} FinalizeInOrderCredits(s: FlowState, name: string, ids: seq<int>)
    requires Distinct(ids) && SetOf(ids) <= s.trackers.Keys
    ensures FinalizeInOrder(s, name, ids).0.trackers == s.trackers - SetOf(ids)
    ensures FinalizeInOrder(s, name, ids).0.inCount == s.inCount + |SetOf(ids) * PendingInIds(s.trackers)|
    ensures FinalizeInOrder(s, name, ids).0.outCount == s.outCount + |SetOf(ids) * PendingOutIds(s.trackers)|
    decreases |ids|
  {
    if |ids| == 0 {
      assert SetOf(ids) == {};
    } else {
      var x, rest := ids[0], ids[1..];
      SetOfCons(ids);
      var first := FinalizeOne(s, name, x).0;
      FinalizeInOrderCredits(first, name, rest);
      assert FinalizeInOrder(s, name, ids).0 == FinalizeInOrder(first, name, rest).0;
      RemoveThenRest(s.trackers, x, SetOf(rest));
      PendingAfterRemoval(s.trackers, x, SetOf(rest));
    }
  }

  /** The loop pushes exactly one metrics record per count it adds, tagged
      with the direction of that count. */
  lemma {:induction false} FinalizeInOrderRecords(s: FlowState, name: string, ids: seq<int>)
    requires Distinct(ids) && SetOf(ids) <= s.trackers.Keys
    ensures CountOf(FinalizeInOrder(s, name, ids).1, In) == FinalizeInOrder(s, name, ids).0.inCount - s.inCount
    ensures CountOf(FinalizeInOrder(s, name, ids).1, Out) == FinalizeInOrder(s, name, ids).0.outCount - s.outCount
    ensures |FinalizeInOrder(s, name, ids).1| == CountOf(FinalizeInOrder(s, name, ids).1, In) + CountOf(FinalizeInOrder(s, name, ids).1, Out)
    ensures forall i :: 0 <= i < |FinalizeInOrder(s, name, ids).1| ==> FinalizeInOrder(s, name, ids).1[i].channel == name
    decreases |ids|
  {
    if |ids| > 0 {
      var x, rest := ids[0], ids[1..];
      SetOfCons(ids);
      var first := FinalizeOne(s, name, x);
      FinalizeInOrderRecords(first.0, name, rest);
      var tail := FinalizeInOrder(first.0, name, rest);
      assert FinalizeInOrder(s, name, ids) == (tail.0, first.1 + tail.1);
      CountOfAppend(first.1, tail.1, In);
      CountOfAppend(first.1, tail.1, Out);
    }
  }

  /** Removing x first does not change the pending tallies of the other
      identities; x adds its own flags. */
  lemma PendingAfterRemoval(m: map<int, Tracker>, x: int, rest: set<int>)
    requires x in m && x !in rest
    ensures |rest * PendingInIds(m - {x})| + (if m[x].flags.inReady then 1 else 0) == |({x} + rest) * PendingInIds(m)|
    ensures |rest * PendingOutIds(m - {x})| + (if m[x].flags.outReady then 1 else 0) == |({x} + rest) * PendingOutIds(m)|
  {
    PendingRemove(m, x);
    assert rest * PendingInIds(m - {x}) == rest * PendingInIds(m);
    assert rest * PendingOutIds(m - {x}) == rest * PendingOutIds(m);
    assert x in PendingInIds(m) <==> m[x].flags.inReady;
    assert x in PendingOutIds(m) <==> m[x].flags.outReady;
    CardWithOne(x, rest, PendingInIds(m));
    CardWithOne(x, rest, PendingOutIds(m));
  }

  /** Whatever order the source visits `to_delete` in, the loop ends in the
      batch eviction's state. */
  lemma FinalizeInOrderIsEvict(s: FlowState, name: string, ids: seq<int>, fps: real)
    requires Distinct(ids) && SetOf(ids) == StaleIds(s.trackers, fps)
    ensures FinalizeInOrder(s, name, ids).0 == Evict(s, fps)
  {
    FinalizeInOrderCredits(s, name, ids);
  }

  /** Exactly-once finalisation: a pending flag is counted either among the
      live trackers or in the counter, never both and never twice, so the sum
      of the counter and the pending tally is unchanged by eviction. */
  lemma EvictConservesPending(s: FlowState, fps: real)
    ensures Evict(s, fps).inCount + |PendingInIds(Evict(s, fps).trackers)| == s.inCount + |PendingInIds(s.trackers)|
    ensures Evict(s, fps).outCount + |PendingOutIds(Evict(s, fps).trackers)| == s.outCount + |PendingOutIds(s.trackers)|
  {
    var gone := StaleIds(s.trackers, fps);
    var r := Evict(s, fps);
    assert PendingInIds(r.trackers) == PendingInIds(s.trackers) - gone;
    assert PendingOutIds(r.trackers) == PendingOutIds(s.trackers) - gone;
    SplitCard(PendingInIds(s.trackers), gone);
    SplitCard(PendingOutIds(s.trackers), gone);
  }

  /** With at most one flag per tracker, each removed tracker adds at most one
      count in total. */
  lemma EvictAddsAtMostOnePerTracker(s: FlowState, fps: real)
    requires forall id :: id in s.trackers ==> Exclusive(s.trackers[id].flags)
    ensures (Evict(s, fps).inCount - s.inCount) + (Evict(s, fps).outCount - s.outCount)
            <= |s.trackers.Keys| - |Evict(s, fps).trackers.Keys|
  {
    var gone := StaleIds(s.trackers, fps);
    var pi, po := gone * PendingInIds(s.trackers), gone * PendingOutIds(s.trackers);
    forall id | id in pi
      ensures id !in po
    {
      assert Exclusive(s.trackers[id].flags);
    }
    assert |pi + po| == |pi| + |po|;
    SubsetCard(pi + po, gone);
    assert Evict(s, fps).trackers.Keys == s.trackers.Keys - gone;
    SplitCard(s.trackers.Keys, gone);
    assert gone * s.trackers.Keys == gone;
  }

  /** `__detect` on one frame: age every tracker, run the detection pass over
      the frame's boxes, then evict. */
  function FlowFrame(s: FlowState, dets: seq<Detection>, lines: seq<int>, origin: Pixel, fps: real): Result<FlowState> {
    match Observe(Age(s.trackers), dets, origin, FlowLines(lines), fps)
    case Failure(e) => Failure(e)
    case Success(m) => Success(Evict(FlowState(m, s.inCount, s.outCount), fps))
  }

  /** One frame, tracker by tracker: every identity boxed in the frame is live
      with age 0; every other identity is one frame older with nothing else
      changed, or removed exactly when that age exceeds 4 x fps; no other
      identity appears; the counters never decrease. */
  lemma FlowFrameTrackers(s: FlowState, dets: seq<Detection>, lines: seq<int>, origin: Pixel, fps: real)
    requires fps > 0.0 && FlowFrame(s, dets, lines, origin, fps).Success?
    ensures var r := FlowFrame(s, dets, lines, origin, fps).value;
            && (forall id :: id in TrackedIds(dets) ==> id in r.trackers && r.trackers[id].frameCount == 0)
            && (forall id :: id in r.trackers ==> id in s.trackers || id in TrackedIds(dets))
            && r.inCount >= s.inCount && r.outCount >= s.outCount
    ensures var r := FlowFrame(s, dets, lines, origin, fps).value;
            forall id :: id in s.trackers && id !in TrackedIds(dets) ==>
              && (id in r.trackers <==> (s.trackers[id].frameCount + 1) as real <= fps * 4.0)
              && (id in r.trackers ==> r.trackers[id] == s.trackers[id].(frameCount := s.trackers[id].frameCount + 1))
  {
    var aged := Age(s.trackers);
    var m := Observe(aged, dets, origin, FlowLines(lines), fps).value;
    forall id | id in s.trackers && id !in TrackedIds(dets)
      ensures m[id] == s.trackers[id].(frameCount := s.trackers[id].frameCount + 1)
    {
      assert aged[id] == s.trackers[id].(frameCount := s.trackers[id].frameCount + 1);
    }
  }

  /** Well-formed tripwires and a positive rate: a frame never raises, and it
      keeps the tracker invariant (bounded history, exclusive flags, no gate). */
  lemma FlowFrameKeepsInvariant(s: FlowState, dets: seq<Detection>, lines: seq<int>, origin: Pixel, fps: real)
    requires fps > 0.0 && StoreOk(s.trackers, fps, FlowLines(lines))
    ensures WellFormedLine(lines) ==> FlowFrame(s, dets, lines, origin, fps).Success?
    ensures FlowFrame(s, dets, lines, origin, fps).Success? ==>
              StoreOk(FlowFrame(s, dets, lines, origin, fps).value.trackers, fps, FlowLines(lines))
  {
    var aged := Age(s.trackers);
    assert StoreOk(aged, fps, FlowLines(lines)) by {
      forall id | id in aged
        ensures TrackerOk(aged[id], fps, FlowLines(lines))
      {
        assert TrackerOk(s.trackers[id], fps, FlowLines(lines));
      }
    }
    if WellFormedLine(lines) {
      ObserveTotal(aged, dets, origin, FlowLines(lines), fps);
    }
    if Observe(aged, dets, origin, FlowLines(lines), fps).Success? {
      ObserveKeepsInvariant(aged, dets, origin, FlowLines(lines), fps);
    }
  }

  /** A lone tracker with a pending forward crossing that goes stale is
      counted exactly once, as one `in`, and removed. */
  lemma PendingInCountedOnce(id: int, t: Tracker, inCount: nat, outCount: nat, lines: seq<int>, origin: Pixel, fps: real)
    requires fps > 0.0 && t.flags == Flags(true, false)
    requires (t.frameCount + 1) as real > fps * 4.0
    ensures FlowFrame(FlowState(map[id := t], inCount, outCount), [], lines, origin, fps)
              == Success(FlowState(map[], inCount + 1, outCount))
  {
    var aged := Age(map[id := t]);
    assert aged == map[id := t.(frameCount := t.frameCount + 1)];
    assert StaleIds(aged, fps) == {id};
    assert PendingInIds(aged) == {id};
    assert PendingOutIds(aged) == {};
    assert aged - {id} == map[];
  }

  /** A tracker with nothing pending, for instance after a forward crossing
      cancelled by a reverse one, is removed without any count. */
  lemma CancelledCrossingNotCounted(s: FlowState, id: int, fps: real)
    requires id in s.trackers && s.trackers[id].flags == Idle
    requires Stale(s.trackers[id], fps)
    ensures id !in Evict(s, fps).trackers
    ensures Evict(s, fps) == Evict(FlowState(s.trackers - {id}, s.inCount, s.outCount), fps)
  {
    var m, m' := s.trackers, s.trackers - {id};
    var gone, gone' := StaleIds(m, fps), StaleIds(m', fps);
    StaleAfterRemoval(m, id, fps);
    PendingRemove(m, id);
    assert m - gone == m' - gone';
    assert gone * PendingInIds(m) == gone' * PendingInIds(m');
    assert gone * PendingOutIds(m) == gone' * PendingOutIds(m');
  }

  /** `__loop` after sampling: the frames the detector ran on, in order. */
  function FlowRun(s: FlowState, frames: seq<seq<Detection>>, lines: seq<int>, origin: Pixel, fps: real): Result<FlowState>
    decreases |frames|
  {
    if |frames| == 0 then Success(s)
    else
      match FlowFrame(s, frames[0], lines, origin, fps)
      case Failure(e) => Failure(e)
      case Success(s1) => FlowRun(s1, frames[1..], lines, origin, fps)
  }

  /** Over any run from a valid state, the counters never decrease and the
      tracker invariant holds at the end; well-formed tripwires never raise. */
  lemma {:induction false} FlowRunMonotone(s: FlowState, frames: seq<seq<Detection>>, lines: seq<int>, origin: Pixel, fps: real)
    requires fps > 0.0 && StoreOk(s.trackers, fps, FlowLines(lines))
    ensures WellFormedLine(lines) ==> FlowRun(s, frames, lines, origin, fps).Success?
    ensures var r := FlowRun(s, frames, lines, origin, fps);
            r.Success? ==> r.value.inCount >= s.inCount && r.value.outCount >= s.outCount
                           && StoreOk(r.value.trackers, fps, FlowLines(lines))
    decreases |frames|
  {
    if |frames| > 0 {
      FlowFrameKeepsInvariant(s, frames[0], lines, origin, fps);
      match FlowFrame(s, frames[0], lines, origin, fps)
      case Failure(_) =>
      case Success(s1) =>
        FlowFrameTrackers(s, frames[0], lines, origin, fps);
        FlowRunMonotone(s1, frames[1..], lines, origin, fps);
    }
  }
}
