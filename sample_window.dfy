/** The copy-on-write statistics record that the adaptive concurrency limiter
    accumulates over one sampling interval: minimum round-trip time, running
    sum of round-trip times, number of samples, largest in-flight count seen
    and a sticky "a drop happened" flag. Every observation yields a fresh
    record; none is changed in place. Java's `long` and `int` arithmetic is
    modelled with its wrap-around. */
module SampleWindow {
  import opened JavaInt

  datatype Window = Window(
    minRtt: Int64,       // the candidate RTT in nanoseconds
    sum: Int64,          // running sum of RTTs in nanoseconds
    maxInFlight: Int32,
    sampleCount: Int32,
    didDrop: bool)

  /** The record a sampling interval starts from. */
  function Empty(): (w: Window)
    ensures w.sampleCount == 0 && w.sum == 0 && w.maxInFlight == 0 && !w.didDrop
    ensures w.minRtt == LONG_MAX  // no RTT is above it
  {
    Window(LONG_MAX, 0, 0, 0, false)
  }

  /** A completed call with its round-trip time and the in-flight count at
      completion. */
  function AddSample(w: Window, rtt: Int64, maxInFlight: Int32): (r: Window)
    ensures r.minRtt <= w.minRtt && r.minRtt <= rtt && (r.minRtt == w.minRtt || r.minRtt == rtt)
    ensures r.maxInFlight >= w.maxInFlight && r.maxInFlight >= maxInFlight
    ensures r.maxInFlight == w.maxInFlight || r.maxInFlight == maxInFlight
    ensures InLong(w.sum + rtt) ==> r.sum == w.sum + rtt
    ensures InInt(w.sampleCount + 1) ==> r.sampleCount == w.sampleCount + 1
    ensures r.didDrop == w.didDrop
  {
    Window(Min(rtt, w.minRtt), WrapLong(w.sum + rtt), Max(maxInFlight, w.maxInFlight),
           WrapInt(w.sampleCount + 1), w.didDrop)
  }

  /** A dropped call: no latency, only the in-flight count at completion. */
  function AddDroppedSample(w: Window, maxInFlight: Int32): (r: Window)
    ensures r.minRtt == w.minRtt && r.sum == w.sum && r.sampleCount == w.sampleCount
    ensures r.maxInFlight >= w.maxInFlight && r.maxInFlight >= maxInFlight
    ensures r.maxInFlight == w.maxInFlight || r.maxInFlight == maxInFlight
    ensures r.didDrop
  {
    Window(w.minRtt, w.sum, Max(maxInFlight, w.maxInFlight), w.sampleCount, true)
  }

  /** The mean RTT, 1 for a window without samples; the `long` quotient
      rounds toward zero. */
  function AverageRtt(w: Window): (r: Int64)
    ensures w.sampleCount == 0 ==> r == 1
    ensures w.sampleCount > 0 ==> Abs(r) <= Abs(w.sum)
    ensures w.sampleCount > 0 ==> Abs(w.sum - r * w.sampleCount) < w.sampleCount
    ensures w.sampleCount > 0 ==>
      (w.sum - r * w.sampleCount == 0 || (w.sum - r * w.sampleCount < 0 <==> w.sum < 0))
  {
    if w.sampleCount == 0 then 1
    else
      JavaDivPositiveOrWrap(w.sum, w.sampleCount)
  }

  /** `sum / sampleCount` in `long` arithmetic; only Long.MIN_VALUE / -1 wraps. */
  function JavaDivPositiveOrWrap(a: Int64, b: Int32): (r: Int64)
    requires b != 0
    ensures b > 0 ==> r == JavaDiv(a, b) && Abs(r) <= Abs(a)
  {
    if b > 0 then
      JavaDivPositiveInRange(a, b);
      JavaDiv(a, b)
    else
      WrapLong(JavaDiv(a, b))
  }

  /** One event reported to the window. */
  datatype Observation = Sample(rtt: Int64, inFlight: Int32) | Dropped(inFlight: Int32)

  function Observe(w: Window, o: Observation): Window
  {
    match o
    case Sample(rtt, m) => AddSample(w, rtt, m)
    case Dropped(m) => AddDroppedSample(w, m)
  }

  /** The window after reporting os in order, starting from w. */
  function ObserveAll(w: Window, os: seq<Observation>): Window
    decreases |os|
  {
    if os == [] then w else ObserveAll(Observe(w, os[0]), os[1..])
  }

  /** Reference definitions over a whole observation sequence. */
  function SumRtts(os: seq<Observation>): int
  {
    if os == [] then 0
    else SumRtts(os[..|os| - 1]) + (if os[|os| - 1].Sample? then os[|os| - 1].rtt else 0)
  }

  function NumSamples(os: seq<Observation>): nat
  {
    if os == [] then 0
    else NumSamples(os[..|os| - 1]) + (if os[|os| - 1].Sample? then 1 else 0)
  }

  /** No running sum overflows a `long` while os is reported on top of sum. */
  predicate NoSumOverflow(sum: int, os: seq<Observation>)
    decreases |os|
  {
    os == [] ||
    (var next := sum + (if os[0].Sample? then os[0].rtt else 0);
     InLong(next) && NoSumOverflow(next, os[1..]))
  }

  lemma {:induction false} SumRttsCons(o: Observation, os: seq<Observation>)
    ensures SumRtts([o] + os) == (if o.Sample? then o.rtt else 0) + SumRtts(os)
    ensures NumSamples([o] + os) == (if o.Sample? then 1 else 0) + NumSamples(os)
    decreases |os|
  {
    if os != [] {
      var last := os[|os| - 1];
      assert ([o] + os)[..|os|] == [o] + os[..|os| - 1];
      SumRttsCons(o, os[..|os| - 1]);
    } else {
      assert ([o] + os)[..0] == [];
    }
  }

  /** didDrop is sticky, and it is set exactly when some drop was reported. */
  lemma {:induction false} DidDropSticky(w: Window, os: seq<Observation>)
    ensures ObserveAll(w, os).didDrop <==> w.didDrop || exists i :: 0 <= i < |os| && os[i].Dropped?
    decreases |os|
  {
    if os != [] {
      DidDropSticky(Observe(w, os[0]), os[1..]);
      if os[0].Dropped? {
        assert ObserveAll(w, os).didDrop;
      } else if exists i :: 0 <= i < |os| && os[i].Dropped? {
        var i :| 0 <= i < |os| && os[i].Dropped?;
        assert os[1..][i - 1].Dropped?;
      }
    }
  }

  /** maxInFlight never decreases; it ends as the largest of its start value
      and every reported in-flight count. */
  lemma {:induction false} MaxInFlightIsMaximum(w: Window, os: seq<Observation>)
    ensures ObserveAll(w, os).maxInFlight >= w.maxInFlight
    ensures forall i :: 0 <= i < |os| ==> ObserveAll(w, os).maxInFlight >= os[i].inFlight
    ensures ObserveAll(w, os).maxInFlight == w.maxInFlight ||
            exists i :: 0 <= i < |os| && ObserveAll(w, os).maxInFlight == os[i].inFlight
    decreases |os|
  {
    if os != [] {
      var w' := Observe(w, os[0]);
      var r := ObserveAll(w, os);
      MaxInFlightIsMaximum(w', os[1..]);
      assert forall i :: 1 <= i < |os| ==> os[i] == os[1..][i - 1];
      if r.maxInFlight != w.maxInFlight && r.maxInFlight != w'.maxInFlight {
        var j :| 0 <= j < |os[1..]| && r.maxInFlight == os[1..][j].inFlight;
        assert r.maxInFlight == os[j + 1].inFlight;
      }
    }
  }

  /** minRtt ends as the smallest of its start value and every sampled RTT;
      drops do not touch it. */
  lemma {:induction false} MinRttIsMinimum(w: Window, os: seq<Observation>)
    ensures ObserveAll(w, os).minRtt <= w.minRtt
    ensures forall i :: 0 <= i < |os| && os[i].Sample? ==> ObserveAll(w, os).minRtt <= os[i].rtt
    ensures ObserveAll(w, os).minRtt == w.minRtt ||
            exists i :: 0 <= i < |os| && os[i].Sample? && ObserveAll(w, os).minRtt == os[i].rtt
    decreases |os|
  {
    if os != [] {
      var w' := Observe(w, os[0]);
      var r := ObserveAll(w, os);
      MinRttIsMinimum(w', os[1..]);
      assert forall i :: 1 <= i < |os| ==> os[i] == os[1..][i - 1];
      if r.minRtt != w.minRtt && r.minRtt != w'.minRtt {
        var j :| 0 <= j < |os[1..]| && os[1..][j].Sample? && r.minRtt == os[1..][j].rtt;
        assert r.minRtt == os[j + 1].rtt;
      }
    }
  }

  /** Without overflow, the window's sum and count are the total of the
      sampled RTTs and the number of samples added to the start values. */
  lemma {:induction false} SumAndCount(w: Window, os: seq<Observation>)
    requires NoSumOverflow(w.sum, os)
    requires w.sampleCount + NumSamples(os) <= INT_MAX
    ensures ObserveAll(w, os).sum == w.sum + SumRtts(os)
    ensures ObserveAll(w, os).sampleCount == w.sampleCount + NumSamples(os)
    decreases |os|
  {
    if os != [] {
      assert os == [os[0]] + os[1..];
      SumRttsCons(os[0], os[1..]);
      SumAndCount(Observe(w, os[0]), os[1..]);
    }
  }

  /** The sum of the sampled RTTs is at least their number times any lower
      bound of them. */
  lemma {:induction false} SumAtLeast(os: seq<Observation>, m: int)
    requires forall i :: 0 <= i < |os| && os[i].Sample? ==> os[i].rtt >= m
    ensures SumRtts(os) >= NumSamples(os) * m
    decreases |os|
  {
    if os != [] {
      SumAtLeast(os[..|os| - 1], m);
    }
  }

  /** Folding observations into a fresh window: sampleCount is the number of
      samples, sum their total, the candidate RTT their minimum, and the
      average RTT is never below the candidate RTT. */
  lemma {:induction false} FreshWindowStatistics(os: seq<Observation>)
    requires NoSumOverflow(0, os)
    requires NumSamples(os) <= INT_MAX
    ensures ObserveAll(Empty(), os).sampleCount == NumSamples(os)
    ensures ObserveAll(Empty(), os).sum == SumRtts(os)
    ensures NumSamples(os) > 0 ==>
      (exists i :: 0 <= i < |os| && os[i].Sample? && ObserveAll(Empty(), os).minRtt == os[i].rtt)
    ensures forall i :: 0 <= i < |os| && os[i].Sample? ==> ObserveAll(Empty(), os).minRtt <= os[i].rtt
    ensures NumSamples(os) > 0 ==> AverageRtt(ObserveAll(Empty(), os)) >= ObserveAll(Empty(), os).minRtt
  {
    var r := ObserveAll(Empty(), os);
    SumAndCount(Empty(), os);
    MinRttIsMinimum(Empty(), os);
    if NumSamples(os) > 0 {
      if r.minRtt == LONG_MAX {
        var k := SomeSample(os);
        assert r.minRtt <= os[k].rtt;
      }
      SumAtLeast(os, r.minRtt);
      JavaDivLowerBound(r.sum, r.sampleCount, r.minRtt);
    }
  }

  /** A sequence with a sample has an index holding one. */
  lemma {:induction false} SomeSample(os: seq<Observation>) returns (k: nat)
    requires NumSamples(os) > 0
    ensures k < |os| && os[k].Sample?
    decreases |os|
  {
    if os[|os| - 1].Sample? {
      k := |os| - 1;
    } else {
      k := SomeSample(os[..|os| - 1]);
    }
  }
}
