/** Which frames the detector sees, and the frame rate the rest of the
    engine works in. The single-line counter samples every `frameSkip`-th
    frame (flow_count.py:79-82, 97); the multi-gate counter samples every
    `int(fps / 8)`-th frame, at least every frame (crowd_count.py:216-220,
    238). Both divide the source frame rate by the interval, and that
    quotient is the `fps` the tracker history and staleness rules use. */
module Sampling {

  function Abs(k: int): nat {
    if k < 0 then -k else k
  }

  /** Python's `int(x)` on a float: truncation toward zero. */
  function Truncate(x: real): (n: int)
    ensures 0.0 <= x ==> 0 <= n && n as real <= x < n as real + 1.0
    ensures x < 0.0 ==> n <= 0 && n as real - 1.0 < x <= n as real
  {
    if x >= 0.0 then x.Floor else -((-x).Floor)
  }

  /** `self.frame_skip if self.frame_skip else 1`: a configured skip of 0
      means every frame. */
  function FlowSampleInterval(frameSkip: int): (k: int)
    ensures k != 0
    ensures frameSkip != 0 ==> k == frameSkip
    ensures frameSkip == 0 ==> k == 1
  {
    if frameSkip != 0 then frameSkip else 1
  }

  /** `int(fps / 8)`, raised to 1 when smaller: about eight detections per
      second of source video. */
  function CrowdSampleInterval(fps: real): (k: int)
    ensures k >= 1
    ensures fps >= 8.0 ==> (8 * k) as real <= fps < (8 * k + 8) as real
    ensures fps < 16.0 ==> k == 1
  {
    var k := Truncate(fps / 8.0);
    if k < 1 then 1 else k
  }

  /** The frame rate written back after sampling: `fps / sample_interval`. */
  function SampledRate(fps: real, k: int): real
    requires k != 0
  {
    fps / (k as real)
  }

  /** With a source of at least 8 frames per second, the multi-gate
      counter's working rate lands in [8, 16). */
  lemma CrowdRateBand(fps: real)
    requires fps >= 8.0
    ensures 8.0 <= SampledRate(fps, CrowdSampleInterval(fps)) < 16.0
  {
    var k := CrowdSampleInterval(fps);
    var kr := k as real;
    assert 8.0 * kr <= fps < 16.0 * kr;
    DivideBand(fps, kr, 8.0, 16.0);
  }

  /** Dividing `lo * b <= a < hi * b` through by a positive `b`. */
  lemma DivideBand(a: real, b: real, lo: real, hi: real)
    requires b > 0.0 && lo * b <= a < hi * b
    ensures lo <= a / b < hi
  {
  }

  /** Whether source frame `frame` goes to the detector:
      `current_frame % sample_interval == 0`. */
  predicate Sampled(frame: nat, k: int)
    requires k != 0
  {
    frame % k == 0
  }

  /** The sign of the interval does not matter: Euclidean remainders depend
      on the divisor's magnitude only. */
  lemma SampledByMagnitude(frame: nat, k: int)
    requires k != 0
    ensures Sampled(frame, k) <==> frame % Abs(k) == 0
  {
    if k < 0 {
      var q := frame / k;
      assert frame == k * q + frame % k;
      assert frame == Abs(k) * (-q) + frame % k;
      ModUnique(frame, Abs(k), -q, frame % k);
    }
  }

  /** The remainder is the unique `r` in [0, a) with `x == a * q + r`. */
  lemma ModUnique(x: int, a: int, q: int, r: int)
    requires a > 0 && 0 <= r < a && x == a * q + r
    ensures x % a == r && x / a == q
  {
    var d := x / a - q;
    assert a * d == r - x % a;
    ZeroMultiple(a, d);
  }

  /** The only multiple of `a` strictly between `-a` and `a` is zero. */
  lemma ZeroMultiple(a: int, d: int)
    requires a > 0 && -a < a * d < a
    ensures d == 0
  {
    if d >= 1 {
      MulMonotone(a, 1, d);
    } else if d <= -1 {
      MulMonotone(a, d, -1);
    }
  }

  lemma MulMonotone(a: int, x: int, y: int)
    requires a > 0 && x <= y
    ensures a * x <= a * y
  {
    assert a * y - a * x == a * (y - x);
  }

  /** The capture loop: walks every frame, hands the sampled ones on. The
      result is frames 0, a, 2a, ... for `a` the magnitude of the interval,
      and no sampled frame is skipped. */
  method SampleFrames<T>(frames: seq<T>, k: int) returns (picked: seq<T>)
    requires k != 0
    ensures (|picked| - 1) * Abs(k) < |frames| <= |picked| * Abs(k)
    ensures forall j :: 0 <= j < |picked| ==> j * Abs(k) < |frames| && picked[j] == frames[j * Abs(k)]
  {
    var a := Abs(k);
    picked := [];
    var i := 0;
    while i < |frames|
      invariant 0 <= i <= |frames|
      invariant (|picked| - 1) * a < i <= |picked| * a
      invariant forall j :: 0 <= j < |picked| ==> j * a < i && picked[j] == frames[j * a]
    {
      SampledByMagnitude(i, k);
      NextSample(i, a, |picked|);
      if i % k == 0 {
        picked := picked + [frames[i]];
      }
      i := i + 1;
    }
  }

  /** Between two consecutive multiples of `a`, only the upper one is a
      multiple. */
  lemma NextSample(i: int, a: int, n: int)
    requires a > 0 && (n - 1) * a < i <= n * a
    ensures i % a == 0 <==> i == n * a
  {
    if i == n * a {
      ModUnique(i, a, n, 0);
    } else if i % a == 0 {
      var q := i / a;
      assert i == a * q;
      if q >= n {
        MulMonotone(a, n, q);
      } else {
        MulMonotone(a, q, n - 1);
      }
    }
  }

  /** Staleness is measured in sampled frames, yet it means the same span of
      source video whatever the interval: more than four seconds. */
  lemma StaleIsFourSeconds(frameCount: nat, fps: real, k: int)
    requires k > 0
    ensures frameCount as real > SampledRate(fps, k) * 4.0 <==> (frameCount * k) as real > fps * 4.0
  {
    var kr := k as real;
    var q := fps / kr;
    assert q * kr == fps;
    assert (frameCount * k) as real == frameCount as real * kr;
    if frameCount as real > q * 4.0 {
      RealMulStrict(q * 4.0, frameCount as real, kr);
    } else {
      RealMulWeak(frameCount as real, q * 4.0, kr);
    }
  }

  lemma RealMulStrict(x: real, y: real, c: real)
    requires c > 0.0 && x < y
    ensures x * c < y * c
  {
  }

  lemma RealMulWeak(x: real, y: real, c: real)
    requires c > 0.0 && x <= y
    ensures x * c <= y * c
  {
  }
}
