/** Vocabulary shared by the two eviction loops (flow_count.py:221-258,
    crowd_count.py:135-163): which trackers are stale, the records pushed to
    the metrics sink, and enumerations of a set of identities. */
module Eviction {
  import opened Hysteresis
  import opened TrackerInfo

  datatype Direct = In | Out

  /** A record pushed to the metrics sink: channel name, direction, count 1.
      The timestamp is left out. */
  datatype CountEvent = CountEvent(channel: string, direct: Direct)

  /** The `to_delete` identities: trackers more than 4 x fps frames stale. */
  function StaleIds(m: map<int, Tracker>, fps: real): (r: set<int>)
    ensures forall id :: id in r <==> id in m && Stale(m[id], fps)
  {
    set id | id in m && Stale(m[id], fps)
  }

  predicate Distinct(ids: seq<int>) {
    forall i, j :: 0 <= i < j < |ids| ==> ids[i] != ids[j]
  }

  function SetOf(ids: seq<int>): set<int> {
    set i | 0 <= i < |ids| :: ids[i]
  }

  lemma SetOfCons(ids: seq<int>)
    requires |ids| > 0
    ensures SetOf(ids) == {ids[0]} + SetOf(ids[1..])
    ensures Distinct(ids) ==> ids[0] !in SetOf(ids[1..]) && Distinct(ids[1..])
  {
    var rest := ids[1..];
    forall x | x in SetOf(ids)
      ensures x in {ids[0]} + SetOf(rest)
    {
      var i :| 0 <= i < |ids| && ids[i] == x;
      if i > 0 {
        assert rest[i - 1] == x;
      }
    }
    forall x | x in SetOf(rest)
      ensures x in SetOf(ids)
    {
      var i :| 0 <= i < |rest| && rest[i] == x;
      assert ids[i + 1] == x;
    }
    if Distinct(ids) {
      forall i | 0 <= i < |rest|
        ensures rest[i] != ids[0]
      {
        assert rest[i] == ids[i + 1];
      }
    }
  }

  /** Some duplicate-free enumeration of a finite set, in an unspecified order:
      the order in which the source happens to visit `to_delete`. */
  ghost function Enumerate(s: set<int>): (ids: seq<int>)
    ensures Distinct(ids) && SetOf(ids) == s
    decreases |s|
  {
    if |s| == 0 then []
    else
      NonEmptyHasElement(s);
      var x :| x in s;
      var rest := Enumerate(s - {x});
      var ids := [x] + rest;
      SetOfCons(ids);
      assert ids[1..] == rest;
      ids
  }

  lemma NonEmptyHasElement(s: set<int>)
    requires |s| != 0
    ensures exists x :: x in s
  {
    if forall x :: x !in s {
      assert false;
    }
  }

  /** The number of records of one direction. */
  function CountOf(events: seq<CountEvent>, d: Direct): nat
    decreases |events|
  {
    if |events| == 0 then 0 else (if events[0].direct == d then 1 else 0) + CountOf(events[1..], d)
  }

  lemma {:induction false} CountOfAppend(a: seq<CountEvent>, b: seq<CountEvent>, d: Direct)
    ensures CountOf(a + b, d) == CountOf(a, d) + CountOf(b, d)
    decreases |a|
  {
    if |a| == 0 {
      assert a + b == b;
    } else {
      assert (a + b)[1..] == a[1..] + b;
      CountOfAppend(a[1..], b, d);
    }
  }

  function Indicator(b: bool): nat {
    if b then 1 else 0
  }

  /** The records pushed for a deleted tracker with flags f: one `in` record
      when its in flag is pending, then one `out` record when its out flag is. */
  function Records(name: string, f: Flags): (r: seq<CountEvent>)
    ensures CountOf(r, In) == Indicator(f.inReady) && CountOf(r, Out) == Indicator(f.outReady)
    ensures |r| == CountOf(r, In) + CountOf(r, Out)
    ensures forall e :: e in r ==> e.channel == name
  {
    var ins := if f.inReady then [CountEvent(name, In)] else [];
    var outs := if f.outReady then [CountEvent(name, Out)] else [];
    CountOfAppend(ins, outs, In);
    CountOfAppend(ins, outs, Out);
    ins + outs
  }

  lemma PendingRemove(m: map<int, Tracker>, x: int)
    ensures PendingInIds(m - {x}) == PendingInIds(m) - {x}
    ensures PendingOutIds(m - {x}) == PendingOutIds(m) - {x}
  {
  }

  lemma CardWithOne(x: int, rest: set<int>, p: set<int>)
    requires x !in rest
    ensures |({x} + rest) * p| == |rest * p| + (if x in p then 1 else 0)
  {
    if x in p {
      assert ({x} + rest) * p == {x} + rest * p;
    } else {
      assert ({x} + rest) * p == rest * p;
    }
  }

  lemma SplitCard(p: set<int>, g: set<int>)
    ensures |p - g| + |g * p| == |p|
  {
    assert p == (p - g) + (g * p);
    assert (p - g) !! (g * p);
  }

  lemma SubsetCard(a: set<int>, b: set<int>)
    requires a <= b
    ensures |a| <= |b|
  {
    assert b == a + (b - a);
  }

  lemma StaleAfterRemoval(m: map<int, Tracker>, id: int, fps: real)
    requires id in m && Stale(m[id], fps)
    ensures StaleIds(m, fps) == StaleIds(m - {id}, fps) + {id}
  {
  }

  lemma RemoveThenRest(m: map<int, Tracker>, x: int, rest: set<int>)
    ensures (m - {x}) - rest == m - ({x} + rest)
  {
  }

  lemma RemoveOneCard(p: set<int>, x: int)
    ensures |p - {x}| + Indicator(x in p) == |p|
  {
    if x in p {
      assert p == (p - {x}) + {x};
    } else {
      assert p - {x} == p;
    }
  }
}
