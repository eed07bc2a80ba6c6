/** The numbers the debug overlay shows after each detection step: the
    pending tallies (flow_count.py:274-285, crowd_count.py:187-198), the
    gate totals (crowd_count.py:165-185) and the caption drawn beside the
    first segment of each gate (flow_count.py:263-272,
    crowd_count.py:168-181). Drawing, colours and positions are left out;
    each function here states that its text reads back as the state's
    numbers. */
module Overlay {
  import opened Results
  import opened Hysteresis
  import opened TrackerInfo
  import opened Eviction
  import opened Labels
  import opened Crossing
  import opened FlowCount
  import opened CrowdCount

  /** The loop `for tracker in self.trackers.values()`, visiting the
      trackers in the order `ids` lists them, counting pending flags. */
  method CountPending(m: map<int, Tracker>, ids: seq<int>) returns (pendingIn: nat, pendingOut: nat)
    requires Distinct(ids) && SetOf(ids) == m.Keys
    ensures pendingIn == |PendingInIds(m)|
    ensures pendingOut == |PendingOutIds(m)|
  {
    pendingIn, pendingOut := 0, 0;
    var i := 0;
    while i < |ids|
      invariant 0 <= i <= |ids|
      invariant pendingIn == Visited(m, ids[..i]).0 && pendingOut == Visited(m, ids[..i]).1
    {
      assert ids[..i + 1][..i] == ids[..i];
      if ids[i] in m {
        var t := m[ids[i]];
        if t.flags.inReady {
          pendingIn := pendingIn + 1;
        }
        if t.flags.outReady {
          pendingOut := pendingOut + 1;
        }
      }
      i := i + 1;
    }
    assert ids[..|ids|] == ids;
    VisitedCounts(m, ids);
    assert SetOf(ids) * PendingInIds(m) == PendingInIds(m);
    assert SetOf(ids) * PendingOutIds(m) == PendingOutIds(m);
  }

  /** The pending in and out flags among the trackers `ids` names, counted
      one identity at a time from the front. */
  function Visited(m: map<int, Tracker>, ids: seq<int>): (nat, nat)
    decreases |ids|
  {
    if |ids| == 0 then (0, 0)
    else
      var before := Visited(m, ids[..|ids| - 1]);
      var id := ids[|ids| - 1];
      if id in m then
        (before.0 + Indicator(m[id].flags.inReady), before.1 + Indicator(m[id].flags.outReady))
      else before
  }

  /** Counting one identity at a time over a duplicate-free list gives the
      number of pending trackers the list names. */
  lemma {:induction false} VisitedCounts(m: map<int, Tracker>, ids: seq<int>)
    requires Distinct(ids)
    ensures Visited(m, ids).0 == |SetOf(ids) * PendingInIds(m)|
    ensures Visited(m, ids).1 == |SetOf(ids) * PendingOutIds(m)|
    decreases |ids|
  {
    if |ids| > 0 {
      var n := |ids| - 1;
      var front := ids[..n];
      assert Distinct(front);
      VisitedCounts(m, front);
      SetOfSnoc(ids, n);
      assert ids[..n + 1] == ids;
      CardWithOne(ids[n], SetOf(front), PendingInIds(m));
      CardWithOne(ids[n], SetOf(front), PendingOutIds(m));
    }
  }

  /** Extending a prefix of a duplicate-free list by one element adds that
      element, which was not yet there. */
  lemma SetOfSnoc(ids: seq<int>, i: nat)
    requires Distinct(ids) && i < |ids|
    ensures SetOf(ids[..i + 1]) == {ids[i]} + SetOf(ids[..i])
    ensures ids[i] !in SetOf(ids[..i])
  {
    assert forall k :: 0 <= k < i ==> ids[..i + 1][k] == ids[..i][k];
    assert ids[..i + 1][i] == ids[i];
  }

  /** Whether the drawing loop `range(0, len(lines) - 2, 2)` visits at least
      one segment, which is where the caption is drawn. */
  predicate HasCaption(lines: seq<int>) {
    |lines| - 2 > 0
  }

  /** The tallies of the single-line counter: its counts and how many live
      trackers have a pending in or out flag. */
  function FlowTallies(s: FlowState): (r: (string, string))
    ensures ParseCountLabel("In", r.0) == Some((s.inCount, |PendingInIds(s.trackers)|))
    ensures ParseCountLabel("Out", r.1) == Some((s.outCount, |PendingOutIds(s.trackers)|))
  {
    var pin := |PendingInIds(s.trackers)|;
    var pout := |PendingOutIds(s.trackers)|;
    ParseCountLabelRoundTrip("In", s.inCount, pin);
    ParseCountLabelRoundTrip("Out", s.outCount, pout);
    (CountLabel("In", s.inCount, pin), CountLabel("Out", s.outCount, pout))
  }

  /** The caption over the tripwire in debug mode (flow_count.py:263-272):
      drawn at the first window of the walk, which also unpacks every window
      and so raises on a list of odd length, three or more. */
  function FlowCaption(s: FlowState, lines: seq<int>): (r: Result<Option<string>>)
    ensures r.Failure? <==> !Unpackable(lines)
    ensures r.Success? ==> (r.value.Some? <==> HasCaption(lines))
    ensures r.Success? && r.value.Some? ==> ParseGateCaption(r.value.value) == Some((s.inCount, s.outCount))
  {
    if !Unpackable(lines) then Failure(UnpackMismatch)
    else if HasCaption(lines) then
      ParseGateCaptionRoundTrip(s.inCount, s.outCount);
      Success(Some(GateCaption(s.inCount, s.outCount)))
    else Success(None)
  }

  /** The loop summing `gate.in_count` and `gate.out_count` over the gates,
      front to back. */
  method SumGates(gates: seq<Gate>) returns (totalIn: nat, totalOut: nat)
    ensures totalIn == TotalIn(gates) && totalOut == TotalOut(gates)
    ensures forall i :: 0 <= i < |gates| ==> gates[i].inCount <= totalIn && gates[i].outCount <= totalOut
  {
    totalIn, totalOut := 0, 0;
    var i := 0;
    while i < |gates|
      invariant 0 <= i <= |gates|
      invariant totalIn == TotalIn(gates[..i]) && totalOut == TotalOut(gates[..i])
    {
      TotalsSnoc(gates[..i], gates[i]);
      assert gates[..i + 1] == gates[..i] + [gates[i]];
      totalIn := totalIn + gates[i].inCount;
      totalOut := totalOut + gates[i].outCount;
      i := i + 1;
    }
    assert gates[..|gates|] == gates;
    TotalsBoundEach(gates);
  }

  /** Appending a gate adds its counts to the sums. */
  lemma {:induction false} TotalsSnoc(gates: seq<Gate>, g: Gate)
    ensures TotalIn(gates + [g]) == TotalIn(gates) + g.inCount
    ensures TotalOut(gates + [g]) == TotalOut(gates) + g.outCount
    decreases |gates|
  {
    if |gates| == 0 {
      assert (gates + [g])[1..] == [];
    } else {
      assert (gates + [g])[1..] == gates[1..] + [g];
      TotalsSnoc(gates[1..], g);
    }
  }

  /** No gate counts more than the total. */
  lemma {:induction false} TotalsBoundEach(gates: seq<Gate>)
    ensures forall i :: 0 <= i < |gates| ==> gates[i].inCount <= TotalIn(gates) && gates[i].outCount <= TotalOut(gates)
    decreases |gates|
  {
    if |gates| > 0 {
      TotalsBoundEach(gates[1..]);
      assert forall i :: 1 <= i < |gates| ==> gates[i] == gates[1..][i - 1];
    }
  }

  /** The tallies of the multi-gate counter: the gate totals and the pending
      flags of the live trackers. */
  function CrowdTallies(s: CrowdState): (r: (string, string))
    ensures ParseCountLabel("In", r.0) == Some((TotalIn(s.gates), |PendingInIds(s.trackers)|))
    ensures ParseCountLabel("Out", r.1) == Some((TotalOut(s.gates), |PendingOutIds(s.trackers)|))
  {
    var pin := |PendingInIds(s.trackers)|;
    var pout := |PendingOutIds(s.trackers)|;
    ParseCountLabelRoundTrip("In", TotalIn(s.gates), pin);
    ParseCountLabelRoundTrip("Out", TotalOut(s.gates), pout);
    (CountLabel("In", TotalIn(s.gates), pin), CountLabel("Out", TotalOut(s.gates), pout))
  }

  /** The caption of one gate: present exactly when the gate has a window to
      draw, reading back as the gate's counts; an odd list of three or more
      raises at its last window. */
  function Caption(g: Gate): (r: Result<Option<string>>)
    ensures r.Failure? <==> !Unpackable(g.lines)
    ensures r.Success? ==> (r.value.Some? <==> HasCaption(g.lines))
    ensures r.Success? && r.value.Some? ==> ParseGateCaption(r.value.value) == Some((g.inCount, g.outCount))
  {
    if !Unpackable(g.lines) then Failure(UnpackMismatch)
    else if HasCaption(g.lines) then
      ParseGateCaptionRoundTrip(g.inCount, g.outCount);
      Success(Some(GateCaption(g.inCount, g.outCount)))
    else Success(None)
  }

  /** The caption loop over the gates, in gate order, stopping at the first
      gate whose list fails to unpack. It gets through exactly when the frame
      step does, and then gives every gate its own caption. */
  function CrowdCaptions(gates: seq<Gate>): (r: Result<seq<Option<string>>>)
    ensures r.Failure? <==> !GatesDrawable(gates)
    ensures r.Success? ==> |r.value| == |gates|
    ensures r.Success? ==> forall i :: 0 <= i < |gates| ==>
              && (r.value[i].Some? <==> HasCaption(gates[i].lines))
              && (r.value[i].Some? ==> ParseGateCaption(r.value[i].value) == Some((gates[i].inCount, gates[i].outCount)))
    decreases |gates|
  {
    if |gates| == 0 then Success([])
    else
      assert forall i :: 1 <= i < |gates| ==> gates[1..][i - 1] == gates[i];
      match Caption(gates[0])
      case Failure(e) => Failure(e)
      case Success(c) =>
        match CrowdCaptions(gates[1..])
        case Failure(e) => Failure(e)
        case Success(cs) => Success([c] + cs)
  }
}
