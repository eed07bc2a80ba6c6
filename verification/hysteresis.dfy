/** The two-flag hysteresis a tracker runs on every intersected tripwire
    segment (flow_count.py:192-207, crowd_count.py:106-122). */
module Hysteresis {
  import opened Geometry

  /** `in_ready` / `out_ready` of a tracker. */
  datatype Flags = Flags(inReady: bool, outReady: bool)

  /** The flags of a new tracker (tracker_info.py:5-6). */
  const Idle: Flags := Flags(false, false)

  predicate Exclusive(f: Flags) {
    !(f.inReady && f.outReady)
  }

  /** One intersected segment: a forward touch cancels a pending reverse one
      or else arms `in_ready`; a reverse touch is the mirror image. */
  function Toggle(f: Flags, d: Direction): (r: Flags)
    ensures Exclusive(r)
    ensures d == Forward ==> !r.outReady && (r.inReady <==> f.inReady || !f.outReady)
    ensures d == Reverse ==> !r.inReady && (r.outReady <==> f.outReady || !f.inReady)
  {
    match d
    case Forward => if f.outReady then f.(outReady := false) else f.(inReady := true)
    case Reverse => if f.inReady then f.(inReady := false) else f.(outReady := true)
  }

  /** Applies the touches of one step in order. */
  function ToggleAll(f: Flags, ds: seq<Direction>): Flags
    decreases |ds|
  {
    if |ds| == 0 then f else ToggleAll(Toggle(f, ds[0]), ds[1..])
  }

  /** The direction awaiting credit: at most one direction is pending. */
  datatype Pending = NoPending | InPending | OutPending

  function PendingOf(f: Flags): Pending
    requires Exclusive(f)
  {
    if f.inReady then InPending else if f.outReady then OutPending else NoPending
  }

  /** The pending-direction transition table, written independently of the
      flags. */
  function NextPending(p: Pending, d: Direction): Pending {
    match (p, d)
    case (NoPending, Forward) => InPending
    case (NoPending, Reverse) => OutPending
    case (OutPending, Forward) => NoPending
    case (InPending, Forward) => InPending
    case (InPending, Reverse) => NoPending
    case (OutPending, Reverse) => OutPending
  }

  lemma ToggleFollowsTable(f: Flags, d: Direction)
    requires Exclusive(f)
    ensures PendingOf(Toggle(f, d)) == NextPending(PendingOf(f), d)
  {
  }

  /** A second description: the flags are a counter saturating at -1 and +1,
      moved up by a forward touch and down by a reverse one. */
  function Level(f: Flags): int
    requires Exclusive(f)
  {
    if f.inReady then 1 else if f.outReady then -1 else 0
  }

  function Step(d: Direction): int {
    if d == Forward then 1 else -1
  }

  function Clamp(x: int): int {
    if x > 1 then 1 else if x < -1 then -1 else x
  }

  lemma ToggleIsSaturatingStep(f: Flags, d: Direction)
    requires Exclusive(f)
    ensures Level(Toggle(f, d)) == Clamp(Level(f) + Step(d))
  {
  }

  /** Splitting a step's touches into two batches does not change the result. */
  lemma {:induction false} ToggleAllAppend(f: Flags, a: seq<Direction>, b: seq<Direction>)
    ensures ToggleAll(f, a + b) == ToggleAll(ToggleAll(f, a), b)
    decreases |a|
  {
    if |a| > 0 {
      assert (a + b)[1..] == a[1..] + b;
      ToggleAllAppend(Toggle(f, a[0]), a[1..], b);
    } else {
      assert a + b == b;
    }
  }

  /** Touches always leave at most one flag set. */
  lemma {:induction false} ToggleAllExclusive(f: Flags, ds: seq<Direction>)
    requires Exclusive(f) || |ds| > 0
    ensures Exclusive(ToggleAll(f, ds))
    decreases |ds|
  {
    if |ds| > 0 {
      ToggleAllExclusive(Toggle(f, ds[0]), ds[1..]);
    }
  }

  /** A forward touch followed by a reverse touch cancels: nothing is pending. */
  lemma ForwardThenReverseCancels(f: Flags)
    requires !f.outReady
    ensures ToggleAll(f, [Forward, Reverse]) == Idle
  {
    assert [Forward, Reverse][1..] == [Reverse];
  }

  /** The mirror image: a reverse touch followed by a forward touch cancels. */
  lemma ReverseThenForwardCancels(f: Flags)
    requires !f.inReady
    ensures ToggleAll(f, [Reverse, Forward]) == Idle
  {
    assert [Reverse, Forward][1..] == [Forward];
  }

  function Repeat(d: Direction, n: nat): (r: seq<Direction>)
    ensures |r| == n && forall i :: 0 <= i < n ==> r[i] == d
  {
    if n == 0 then [] else [d] + Repeat(d, n - 1)
  }

  /** The flags a run of touches in one direction settles on. */
  function Saturated(d: Direction): Flags {
    if d == Forward then Flags(true, false) else Flags(false, true)
  }

  /** Two or more touches in the same direction collapse: whatever was pending
      before, the direction of the run is pending afterwards. */
  lemma {:induction false} SameDirectionSaturates(f: Flags, d: Direction, n: nat)
    requires n >= 2
    ensures ToggleAll(f, Repeat(d, n)) == Saturated(d)
    decreases n
  {
    var g := Toggle(Toggle(f, d), d);
    assert g == Saturated(d);
    assert Repeat(d, n) == [d, d] + Repeat(d, n - 2);
    ToggleAllAppend(f, [d, d], Repeat(d, n - 2));
    assert [d, d][1..] == [d];
    assert [d][1..] == [];
    assert ToggleAll(Toggle(f, d), [d]) == ToggleAll(g, []);
    assert ToggleAll(f, [d, d]) == g;
    SaturatedIsFixed(d, n - 2);
  }

  lemma {:induction false} SaturatedIsFixed(d: Direction, n: nat)
    ensures ToggleAll(Saturated(d), Repeat(d, n)) == Saturated(d)
    decreases n
  {
    if n > 0 {
      assert Repeat(d, n)[1..] == Repeat(d, n - 1);
      SaturatedIsFixed(d, n - 1);
    }
  }
}
