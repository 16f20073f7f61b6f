/** The two named flight segments: closed intervals over the elapsed-seconds
    time channel, and the boolean masks they induce. */
module Segments {
  import opened Samples

  /** Vertical spiral, in seconds since midnight. */
  const SpiralStart: real := 40414.0
  const SpiralEnd: real := 49099.0
  /** Near-surface horizontal leg, in seconds since midnight. */
  const LegStart: real := 52000.0
  const LegEnd: real := 54000.0

  /** `(t >= lo) & (t <= hi)`: both ends inclusive. A NaN compares false
      with everything, so a Missing time is never inside. */
  predicate InRange(t: Val, lo: real, hi: real) {
    t.Num? && lo <= t.r && t.r <= hi
  }

  /** The mask of a closed interval over a time channel. */
  function Mask(ts: seq<Val>, lo: real, hi: real): (m: seq<bool>)
    ensures |m| == |ts|
    ensures forall i :: 0 <= i < |ts| ==> (m[i] <==> ts[i].Num? && lo <= ts[i].r <= hi)
  {
    seq(|ts|, i requires 0 <= i < |ts| => InRange(ts[i], lo, hi))
  }

  function SpiralMask(ts: seq<Val>): (m: seq<bool>)
    ensures |m| == |ts|
    ensures forall i :: 0 <= i < |ts| ==> (m[i] <==> ts[i].Num? && 40414.0 <= ts[i].r <= 49099.0)
  {
    Mask(ts, SpiralStart, SpiralEnd)
  }

  function LegMask(ts: seq<Val>): (m: seq<bool>)
    ensures |m| == |ts|
    ensures forall i :: 0 <= i < |ts| ==> (m[i] <==> ts[i].Num? && 52000.0 <= ts[i].r <= 54000.0)
  {
    Mask(ts, LegStart, LegEnd)
  }

  /** The two segments never hold at the same instant. */
  lemma SegmentsDisjoint(ts: seq<Val>, i: nat)
    requires i < |ts|
    ensures !(SpiralMask(ts)[i] && LegMask(ts)[i])
  {
  }

  /** Because the segments are disjoint, the spiral and leg counts together
      never exceed the number of samples. */
  lemma {:induction false} SegmentCountsBounded(ts: seq<Val>)
    ensures CountTrue(SpiralMask(ts)) + CountTrue(LegMask(ts)) <= |ts|
  {
    if ts != [] {
      var n := |ts| - 1;
      SegmentCountsBounded(ts[..n]);
      assert SpiralMask(ts)[..n] == SpiralMask(ts[..n]);
      assert LegMask(ts)[..n] == LegMask(ts[..n]);
      SegmentsDisjoint(ts, n);
    }
  }

  /** Scenario: time axis [0, 10, 20, 30] and the interval [10, 20]. */
  lemma MaskScenario()
    ensures Mask([Num(0.0), Num(10.0), Num(20.0), Num(30.0)], 10.0, 20.0) == [false, true, true, false]
  {
  }
}
