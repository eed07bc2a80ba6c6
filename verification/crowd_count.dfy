/** The multi-gate counting engine of crowd_count.py: several named gates,
    each with its own polyline and its own pair of counters; a tracker is
    credited to the gate whose segment it intersected last. */
module CrowdCount {
  import opened Results
  import opened Geometry
  import opened Hysteresis
  import opened TrackerInfo
  import opened Crossing
  import opened Sighting
  import opened Eviction

  /** `GateInfo`: a name, a flat coordinate list and two counters. The tags
      and the render countdown are left out. */
  datatype Gate = Gate(name: string, lines: seq<int>, inCount: nat, outCount: nat)

  /** `self.trackers` and `self.gates`. */
  datatype CrowdState = CrowdState(trackers: map<int, Tracker>, gates: seq<Gate>)

  /** A gate as configured: both counters start at zero. */
  function NewGate(name: string, lines: seq<int>): (g: Gate)
    ensures g.name == name && g.lines == lines
    ensures g.inCount == 0 && g.outCount == 0
  {
    Gate(name, lines, 0, 0)
  }

  /** The coordinate lists the crossing test walks, one per gate, in order. */
  function GateLines(gates: seq<Gate>): (r: seq<seq<int>>)
    ensures |r| == |gates|
    ensures forall i :: 0 <= i < |gates| ==> r[i] == gates[i].lines
  {
    seq(|gates|, i requires 0 <= i < |gates| => gates[i].lines)
  }

  /** The tracker refers to one of the n gates. A gate object of the source
      always is one; an index out of range is treated like no gate. */
  predicate HasGate(t: Tracker, n: nat) {
    t.gate.Some? && t.gate.value < n
  }

  /** Only the counters may change: same number of gates, same names, same lines. */
  predicate SameGates(a: seq<Gate>, b: seq<Gate>) {
    |a| == |b| && forall i :: 0 <= i < |a| ==> a[i].name == b[i].name && a[i].lines == b[i].lines
  }

  /** A gate credited with the pending flags f. */
  function Credit(gate: Gate, f: Flags): Gate {
    gate.(inCount := gate.inCount + Indicator(f.inReady), outCount := gate.outCount + Indicator(f.outReady))
  }

  /** One pass of the loop over `to_delete`: a tracker with a gate credits
      each of its pending flags to that gate and pushes one record tagged with
      the gate's name; a tracker without a gate is deleted without a count. */
  function FinalizeOne(s: CrowdState, id: int): (r: (CrowdState, seq<CountEvent>))
    requires id in s.trackers
    ensures r.0.trackers == s.trackers - {id}
    ensures SameGates(s.gates, r.0.gates)
    ensures forall i :: 0 <= i < |s.gates| ==>
              && r.0.gates[i].inCount == s.gates[i].inCount
                   + Indicator(s.trackers[id].gate == Some(i) && s.trackers[id].flags.inReady)
              && r.0.gates[i].outCount == s.gates[i].outCount
                   + Indicator(s.trackers[id].gate == Some(i) && s.trackers[id].flags.outReady)
    ensures CountOf(r.1, In) == Indicator(HasGate(s.trackers[id], |s.gates|) && s.trackers[id].flags.inReady)
    ensures CountOf(r.1, Out) == Indicator(HasGate(s.trackers[id], |s.gates|) && s.trackers[id].flags.outReady)
    ensures |r.1| == CountOf(r.1, In) + CountOf(r.1, Out)
  {
    var t := s.trackers[id];
    match t.gate
    case None => (CrowdState(s.trackers - {id}, s.gates), [])
    case Some(g) =>
      if g < |s.gates| then (CrowdState(s.trackers - {id}, s.gates[g := Credit(s.gates[g], t.flags)]), Records(s.gates[g].name, t.flags))
      else (CrowdState(s.trackers - {id}, s.gates), [])
  }

  /** Every record a deletion pushes is tagged with the name of the tracker's gate. */
  lemma FinalizeOneChannel(s: CrowdState, id: int)
    requires id in s.trackers && HasGate(s.trackers[id], |s.gates|)
    ensures forall e :: e in FinalizeOne(s, id).1 ==> e.channel == s.gates[s.trackers[id].gate.value].name
  {
  }

  /** The whole loop over `to_delete`, in the order given. */
  function FinalizeInOrder(s: CrowdState, ids: seq<int>): (CrowdState, seq<CountEvent>)
    requires Distinct(ids) && SetOf(ids) <= s.trackers.Keys
    decreases |ids|
  {
    if |ids| == 0 then (s, [])
    else
      SetOfCons(ids);
      var first := FinalizeOne(s, ids[0]);
      var rest := FinalizeInOrder(first.0, ids[1..]);
      (rest.0, first.1 + rest.1)
  }

  /** Identities whose pending `in` (`out`) flag belongs to gate i. */
  function PendingInAt(m: map<int, Tracker>, i: nat): set<int> {
    set id | id in m && m[id].gate == Some(i) && m[id].flags.inReady
  }

  function PendingOutAt(m: map<int, Tracker>, i: nat): set<int> {
    set id | id in m && m[id].gate == Some(i) && m[id].flags.outReady
  }

  lemma PendingAtRemove(m: map<int, Tracker>, x: int, i: nat)
    ensures PendingInAt(m - {x}, i) == PendingInAt(m, i) - {x}
    ensures PendingOutAt(m - {x}, i) == PendingOutAt(m, i) - {x}
  {
  }

  /** Eviction as one batch: every stale tracker is removed and each gate is
      credited with the pending flags of the removed trackers it holds. */
  function CrowdEvict(s: CrowdState, fps: real): (r: CrowdState)
    ensures forall id :: id in r.trackers <==> id in s.trackers && !Stale(s.trackers[id], fps)
    ensures forall id :: id in r.trackers ==> r.trackers[id] == s.trackers[id]
    ensures SameGates(s.gates, r.gates)
    ensures forall i :: 0 <= i < |s.gates| ==>
              r.gates[i].inCount >= s.gates[i].inCount && r.gates[i].outCount >= s.gates[i].outCount
  {
    var gone := StaleIds(s.trackers, fps);
    CrowdState(s.trackers - gone,
      seq(|s.gates|, i requires 0 <= i < |s.gates| =>
        s.gates[i].(inCount := s.gates[i].inCount + |gone * PendingInAt(s.trackers, i)|,
                    outCount := s.gates[i].outCount + |gone * PendingOutAt(s.trackers, i)|)))
  }

  /** Deleting identities one at a time, in any order, removes exactly those
      identities and keeps the number of gates. */
  lemma {:induction false} FinalizeInOrderRemoves(s: CrowdState, ids: seq<int>)
    requires Distinct(ids) && SetOf(ids) <= s.trackers.Keys
    ensures FinalizeInOrder(s, ids).0.trackers == s.trackers - SetOf(ids)
    ensures |FinalizeInOrder(s, ids).0.gates| == |s.gates|
    decreases |ids|
  {
    if |ids| == 0 {
      assert SetOf(ids) == {};
    } else {
      var x, rest := ids[0], ids[1..];
      SetOfCons(ids);
      var first := FinalizeOne(s, x).0;
      FinalizeInOrderRemoves(first, rest);
      assert FinalizeInOrder(s, ids).0 == FinalizeInOrder(first, rest).0;
      RemoveThenRest(s.trackers, x, SetOf(rest));
    }
  }

  /** In any order, every gate is credited with one `in` count per deleted
      tracker that holds it and a pending `in` flag. */
  lemma {:induction false} FinalizeInOrderCreditsIn(s: CrowdState, ids: seq<int>)
    requires Distinct(ids) && SetOf(ids) <= s.trackers.Keys
    ensures |FinalizeInOrder(s, ids).0.gates| == |s.gates|
    ensures forall i :: 0 <= i < |s.gates| ==>
              FinalizeInOrder(s, ids).0.gates[i].inCount == s.gates[i].inCount + |SetOf(ids) * PendingInAt(s.trackers, i)|
    decreases |ids|
  {
    FinalizeInOrderRemoves(s, ids);
    if |ids| == 0 {
      assert SetOf(ids) == {};
    } else {
      var x, rest := ids[0], ids[1..];
      SetOfCons(ids);
      var first := FinalizeOne(s, x).0;
      FinalizeInOrderCreditsIn(first, rest);
      var r := FinalizeInOrder(s, ids).0;
      assert r == FinalizeInOrder(first, rest).0;
      CombineIn(s.trackers, x, SetOf(rest), s.gates, first.gates, r.gates);
    }
  }

  /** The same for `out`. */
  lemma {:induction false} FinalizeInOrderCreditsOut(s: CrowdState, ids: seq<int>)
    requires Distinct(ids) && SetOf(ids) <= s.trackers.Keys
    ensures |FinalizeInOrder(s, ids).0.gates| == |s.gates|
    ensures forall i :: 0 <= i < |s.gates| ==>
              FinalizeInOrder(s, ids).0.gates[i].outCount == s.gates[i].outCount + |SetOf(ids) * PendingOutAt(s.trackers, i)|
    decreases |ids|
  {
    FinalizeInOrderRemoves(s, ids);
    if |ids| == 0 {
      assert SetOf(ids) == {};
    } else {
      var x, rest := ids[0], ids[1..];
      SetOfCons(ids);
      var first := FinalizeOne(s, x).0;
      FinalizeInOrderCreditsOut(first, rest);
      var r := FinalizeInOrder(s, ids).0;
      assert r == FinalizeInOrder(first, rest).0;
      CombineOut(s.trackers, x, SetOf(rest), s.gates, first.gates, r.gates);
    }
  }

  /** The induction step of the per-gate credit: gate i first gains x's
      flag, then the flags of the rest that it holds. */
  lemma CombineIn(m: map<int, Tracker>, x: int, rest: set<int>, before: seq<Gate>, mid: seq<Gate>, after: seq<Gate>)
    requires x in m && x !in rest && |before| == |mid| == |after|
    requires forall i :: 0 <= i < |before| ==>
               mid[i].inCount == before[i].inCount + Indicator(m[x].gate == Some(i) && m[x].flags.inReady)
    requires forall i :: 0 <= i < |mid| ==> after[i].inCount == mid[i].inCount + |rest * PendingInAt(m - {x}, i)|
    ensures forall i :: 0 <= i < |before| ==> after[i].inCount == before[i].inCount + |({x} + rest) * PendingInAt(m, i)|
  {
    forall i | 0 <= i < |before|
      ensures after[i].inCount == before[i].inCount + |({x} + rest) * PendingInAt(m, i)|
    {
      PendingAtAfterRemoval(m, x, rest, i);
    }
  }

  lemma CombineOut(m: map<int, Tracker>, x: int, rest: set<int>, before: seq<Gate>, mid: seq<Gate>, after: seq<Gate>)
    requires x in m && x !in rest && |before| == |mid| == |after|
    requires forall i :: 0 <= i < |before| ==>
               mid[i].outCount == before[i].outCount + Indicator(m[x].gate == Some(i) && m[x].flags.outReady)
    requires forall i :: 0 <= i < |mid| ==> after[i].outCount == mid[i].outCount + |rest * PendingOutAt(m - {x}, i)|
    ensures forall i :: 0 <= i < |before| ==> after[i].outCount == before[i].outCount + |({x} + rest) * PendingOutAt(m, i)|
  {
    forall i | 0 <= i < |before|
      ensures after[i].outCount == before[i].outCount + |({x} + rest) * PendingOutAt(m, i)|
    {
      PendingAtAfterRemoval(m, x, rest, i);
    }
  }

  /** The loop only touches counters: the gates keep their names and lines. */
  lemma {:induction false} FinalizeInOrderKeepsGates(s: CrowdState, ids: seq<int>)
    requires Distinct(ids) && SetOf(ids) <= s.trackers.Keys
    ensures SameGates(s.gates, FinalizeInOrder(s, ids).0.gates)
    decreases |ids|
  {
    if |ids| > 0 {
      SetOfCons(ids);
      var first := FinalizeOne(s, ids[0]).0;
      FinalizeInOrderKeepsGates(first, ids[1..]);
      SameGatesTrans(s.gates, first.gates, FinalizeInOrder(s, ids).0.gates);
    }
  }

  lemma SameGatesTrans(a: seq<Gate>, b: seq<Gate>, c: seq<Gate>)
    requires SameGates(a, b) && SameGates(b, c)
    ensures SameGates(a, c)
  {
  }

  /** Removing x first does not change gate i's pending tallies of the other
      identities; x adds its own flags when gate i is its gate. */
  lemma PendingAtAfterRemoval(m: map<int, Tracker>, x: int, rest: set<int>, i: nat)
    requires x in m && x !in rest
    ensures |rest * PendingInAt(m - {x}, i)| + Indicator(m[x].gate == Some(i) && m[x].flags.inReady) == |({x} + rest) * PendingInAt(m, i)|
    ensures |rest * PendingOutAt(m - {x}, i)| + Indicator(m[x].gate == Some(i) && m[x].flags.outReady) == |({x} + rest) * PendingOutAt(m, i)|
  {
    PendingAtRemove(m, x, i);
    assert rest * PendingInAt(m - {x}, i) == rest * PendingInAt(m, i);
    assert rest * PendingOutAt(m - {x}, i) == rest * PendingOutAt(m, i);
    CardWithOne(x, rest, PendingInAt(m, i));
    CardWithOne(x, rest, PendingOutAt(m, i));
  }

  /** Whatever order the source visits `to_delete` in, the loop ends in the
      batch eviction's state. */
  lemma FinalizeInOrderIsEvict(s: CrowdState, ids: seq<int>, fps: real)
    requires Distinct(ids) && SetOf(ids) == StaleIds(s.trackers, fps)
    ensures FinalizeInOrder(s, ids).0 == CrowdEvict(s, fps)
  {
    FinalizeInOrderRemoves(s, ids);
    FinalizeInOrderCreditsIn(s, ids);
    FinalizeInOrderCreditsOut(s, ids);
    FinalizeInOrderKeepsGates(s, ids);
    var r, e := FinalizeInOrder(s, ids).0, CrowdEvict(s, fps);
    assert |r.gates| == |e.gates|;
    forall i | 0 <= i < |r.gates|
      ensures r.gates[i] == e.gates[i]
    {
    }
  }

  /** The sums the overlay shows: `total_in` and `total_out`. */
  function TotalIn(gates: seq<Gate>): nat
    decreases |gates|
  {
    if |gates| == 0 then 0 else gates[0].inCount + TotalIn(gates[1..])
  }

  function TotalOut(gates: seq<Gate>): nat
    decreases |gates|
  {
    if |gates| == 0 then 0 else gates[0].outCount + TotalOut(gates[1..])
  }

  /** Replacing one gate changes the totals by exactly the change of that gate. */
  lemma {:induction false} TotalsOfUpdate(gates: seq<Gate>, g: nat, x: Gate)
    requires g < |gates|
    ensures TotalIn(gates[g := x]) + gates[g].inCount == TotalIn(gates) + x.inCount
    ensures TotalOut(gates[g := x]) + gates[g].outCount == TotalOut(gates) + x.outCount
    decreases |gates|
  {
    if g == 0 {
      assert gates[g := x][1..] == gates[1..];
    } else {
      assert gates[g := x][1..] == gates[1..][g - 1 := x];
      TotalsOfUpdate(gates[1..], g - 1, x);
    }
  }

  /** The trackers that hold a flag also hold a valid gate. */
  predicate PendingHasGate(m: map<int, Tracker>, n: nat) {
    forall id :: id in m && (m[id].flags.inReady || m[id].flags.outReady) ==> HasGate(m[id], n)
  }

  /** One deletion adds to the totals exactly the flags it credits. */
  lemma TotalsAfterFinalizeOne(s: CrowdState, id: int)
    requires id in s.trackers
    ensures TotalIn(FinalizeOne(s, id).0.gates) == TotalIn(s.gates) + CountOf(FinalizeOne(s, id).1, In)
    ensures TotalOut(FinalizeOne(s, id).0.gates) == TotalOut(s.gates) + CountOf(FinalizeOne(s, id).1, Out)
  {
    var t := s.trackers[id];
    if HasGate(t, |s.gates|) {
      var g := t.gate.value;
      TotalsOfUpdate(s.gates, g, Credit(s.gates[g], t.flags));
    }
  }

  /** One deletion: the totals gain exactly the flags the pending tallies lose. */
  lemma FinalizeOneConserves(s: CrowdState, id: int)
    requires id in s.trackers && PendingHasGate(s.trackers, |s.gates|)
    ensures TotalIn(FinalizeOne(s, id).0.gates) + |PendingInIds(FinalizeOne(s, id).0.trackers)|
            == TotalIn(s.gates) + |PendingInIds(s.trackers)|
    ensures TotalOut(FinalizeOne(s, id).0.gates) + |PendingOutIds(FinalizeOne(s, id).0.trackers)|
            == TotalOut(s.gates) + |PendingOutIds(s.trackers)|
  {
    TotalsAfterFinalizeOne(s, id);
    PendingCardAfterRemove(s.trackers, id);
  }

  lemma PendingCardAfterRemove(m: map<int, Tracker>, id: int)
    requires id in m
    ensures |PendingInIds(m - {id})| + Indicator(m[id].flags.inReady) == |PendingInIds(m)|
    ensures |PendingOutIds(m - {id})| + Indicator(m[id].flags.outReady) == |PendingOutIds(m)|
  {
    PendingRemove(m, id);
    RemoveOneCard(PendingInIds(m), id);
    RemoveOneCard(PendingOutIds(m), id);
    assert id in PendingInIds(m) <==> m[id].flags.inReady;
    assert id in PendingOutIds(m) <==> m[id].flags.outReady;
  }

  /** Exactly-once finalisation across gates: over any order of deletions
      the gate totals gain exactly what the pending tallies lose, and one
      record is pushed per credited count. */
  lemma {:induction false} FinalizeInOrderConserves(s: CrowdState, ids: seq<int>)
    requires Distinct(ids) && SetOf(ids) <= s.trackers.Keys
    requires PendingHasGate(s.trackers, |s.gates|)
    ensures TotalIn(FinalizeInOrder(s, ids).0.gates) + |PendingInIds(FinalizeInOrder(s, ids).0.trackers)|
            == TotalIn(s.gates) + |PendingInIds(s.trackers)|
    ensures TotalOut(FinalizeInOrder(s, ids).0.gates) + |PendingOutIds(FinalizeInOrder(s, ids).0.trackers)|
            == TotalOut(s.gates) + |PendingOutIds(s.trackers)|
    ensures CountOf(FinalizeInOrder(s, ids).1, In) == TotalIn(FinalizeInOrder(s, ids).0.gates) - TotalIn(s.gates)
    ensures CountOf(FinalizeInOrder(s, ids).1, Out) == TotalOut(FinalizeInOrder(s, ids).0.gates) - TotalOut(s.gates)
    decreases |ids|
  {
    if |ids| > 0 {
      var x, rest := ids[0], ids[1..];
      SetOfCons(ids);
      var first := FinalizeOne(s, x);
      FinalizeOneConserves(s, x);
      TotalsAfterFinalizeOne(s, x);
      FinalizeInOrderConserves(first.0, rest);
      var tail := FinalizeInOrder(first.0, rest);
      assert FinalizeInOrder(s, ids) == (tail.0, first.1 + tail.1);
      CountOfAppend(first.1, tail.1, In);
      CountOfAppend(first.1, tail.1, Out);
    }
  }

  /** Batch eviction keeps the sum of the gate totals and the pending tally. */
  lemma CrowdEvictConserves(s: CrowdState, fps: real)
    requires PendingHasGate(s.trackers, |s.gates|)
    ensures TotalIn(CrowdEvict(s, fps).gates) + |PendingInIds(CrowdEvict(s, fps).trackers)|
            == TotalIn(s.gates) + |PendingInIds(s.trackers)|
    ensures TotalOut(CrowdEvict(s, fps).gates) + |PendingOutIds(CrowdEvict(s, fps).trackers)|
            == TotalOut(s.gates) + |PendingOutIds(s.trackers)|
  {
    var ids := Enumerate(StaleIds(s.trackers, fps));
    FinalizeInOrderIsEvict(s, ids, fps);
    FinalizeInOrderConserves(s, ids);
  }

  /** Whether the totals and caption loop (crowd_count.py:168-185) gets
      through: it unpacks every window of every gate's list on every frame. */
  predicate GatesDrawable(gates: seq<Gate>) {
    forall i :: 0 <= i < |gates| ==> Unpackable(gates[i].lines)
  }

  /** `detect_person` on one frame: age every tracker, run the detection pass
      against every gate's list, evict, then walk every gate's list for the
      totals and captions, which raises on a list of odd length. */
  function CrowdFrame(s: CrowdState, dets: seq<Detection>, origin: Pixel, fps: real): Result<CrowdState> {
    match Observe(Age(s.trackers), dets, origin, CrowdGates(GateLines(s.gates)), fps)
    case Failure(e) => Failure(e)
    case Success(m) =>
      if GatesDrawable(s.gates) then Success(CrowdEvict(CrowdState(m, s.gates), fps))
      else Failure(UnpackMismatch)
  }

  /** A gate list with an odd number of coordinates, three or more, makes
      every frame raise, even one where nothing is detected or moves. */
  lemma CrowdFrameRaisesOnOddGate(s: CrowdState, dets: seq<Detection>, origin: Pixel, fps: real, i: nat)
    requires i < |s.gates| && |s.gates[i].lines| % 2 == 1 && |s.gates[i].lines| >= 3
    ensures CrowdFrame(s, dets, origin, fps).Failure?
  {
    assert !Unpackable(s.gates[i].lines);
  }

  /** Well-formed gate lists are walked without an unpacking error. */
  lemma WellFormedGatesDrawable(gates: seq<Gate>)
    requires WellFormedGates(GateLines(gates))
    ensures GatesDrawable(gates)
  {
    forall i | 0 <= i < |gates|
      ensures Unpackable(gates[i].lines)
    {
      assert WellFormedLine(GateLines(gates)[i]);
    }
  }

  /** The tracker invariant of the multi-gate variant. */
  predicate CrowdOk(s: CrowdState, fps: real) {
    StoreOk(s.trackers, fps, CrowdGates(GateLines(s.gates)))
  }

  lemma CrowdOkGates(s: CrowdState, fps: real)
    requires CrowdOk(s, fps)
    ensures PendingHasGate(s.trackers, |s.gates|)
  {
    forall id | id in s.trackers
      ensures s.trackers[id].flags.inReady || s.trackers[id].flags.outReady ==> HasGate(s.trackers[id], |s.gates|)
    {
      assert TrackerOk(s.trackers[id], fps, CrowdGates(GateLines(s.gates)));
    }
  }

  /** One frame from a valid state: well-formed gates and a positive rate
      never raise; the gates keep their names and lines and their counters
      never decrease; the invariant holds again. */
  lemma CrowdFrameKeepsInvariant(s: CrowdState, dets: seq<Detection>, origin: Pixel, fps: real)
    requires fps > 0.0 && CrowdOk(s, fps)
    ensures WellFormedGates(GateLines(s.gates)) ==> CrowdFrame(s, dets, origin, fps).Success?
    ensures var r := CrowdFrame(s, dets, origin, fps);
            r.Success? ==> && SameGates(s.gates, r.value.gates)
                           && (forall i :: 0 <= i < |s.gates| ==>
                                 r.value.gates[i].inCount >= s.gates[i].inCount
                                 && r.value.gates[i].outCount >= s.gates[i].outCount)
                           && CrowdOk(r.value, fps)
  {
    var w := CrowdGates(GateLines(s.gates));
    var aged := Age(s.trackers);
    assert StoreOk(aged, fps, w) by {
      forall id | id in aged
        ensures TrackerOk(aged[id], fps, w)
      {
        assert TrackerOk(s.trackers[id], fps, w);
      }
    }
    if WellFormedGates(GateLines(s.gates)) {
      ObserveTotal(aged, dets, origin, w, fps);
      WellFormedGatesDrawable(s.gates);
    }
    if Observe(aged, dets, origin, w, fps).Success? && GatesDrawable(s.gates) {
      ObserveKeepsInvariant(aged, dets, origin, w, fps);
      var m := Observe(aged, dets, origin, w, fps).value;
      var r := CrowdEvict(CrowdState(m, s.gates), fps);
      assert GateLines(r.gates) == GateLines(s.gates);
      forall id | id in r.trackers
        ensures TrackerOk(r.trackers[id], fps, w)
      {
        assert r.trackers[id] == m[id];
      }
    }
  }

  /** A tracker whose forward touch was cancelled by a reverse touch is
      deleted without crediting any gate. */
  lemma CancelledCrossingNotCounted(s: CrowdState, id: int, f: Flags)
    requires id in s.trackers
    requires !f.outReady && s.trackers[id].flags == ToggleAll(f, [Forward, Reverse])
    ensures FinalizeOne(s, id).0.gates == s.gates && FinalizeOne(s, id).1 == []
  {
    ForwardThenReverseCancels(f);
    var r := FinalizeOne(s, id);
    assert |r.0.gates| == |s.gates|;
    forall i | 0 <= i < |s.gates|
      ensures r.0.gates[i] == s.gates[i]
    {
    }
  }

  /** `process_videos` after sampling: the frames the detector ran on. */
  function CrowdRun(s: CrowdState, frames: seq<seq<Detection>>, origin: Pixel, fps: real): Result<CrowdState>
    decreases |frames|
  {
    if |frames| == 0 then Success(s)
    else
      match CrowdFrame(s, frames[0], origin, fps)
      case Failure(e) => Failure(e)
      case Success(s1) => CrowdRun(s1, frames[1..], origin, fps)
  }

  /** Over any run from a valid state, the gates keep their names and lines,
      no gate counter decreases and the invariant holds at the end; with
      well-formed gates nothing raises. A degenerate gate segment raises only
      on a frame whose move touches it. */
  lemma {:induction false} CrowdRunMonotone(s: CrowdState, frames: seq<seq<Detection>>, origin: Pixel, fps: real)
    requires fps > 0.0 && CrowdOk(s, fps)
    ensures WellFormedGates(GateLines(s.gates)) ==> CrowdRun(s, frames, origin, fps).Success?
    ensures var r := CrowdRun(s, frames, origin, fps);
            r.Success? ==> && SameGates(s.gates, r.value.gates)
                           && (forall i :: 0 <= i < |s.gates| ==>
                                 r.value.gates[i].inCount >= s.gates[i].inCount
                                 && r.value.gates[i].outCount >= s.gates[i].outCount)
                           && CrowdOk(r.value, fps)
    decreases |frames|
  {
    if |frames| > 0 {
      CrowdFrameKeepsInvariant(s, frames[0], origin, fps);
      match CrowdFrame(s, frames[0], origin, fps)
      case Failure(_) =>
      case Success(s1) =>
        assert GateLines(s1.gates) == GateLines(s.gates);
        CrowdRunMonotone(s1, frames[1..], origin, fps);
    }
  }
}
