/** scatter_dD_vs_q.py: isotope ratio against mixing ratio (without the
    division by 1000) over the near-surface leg, keeping only the pairs in
    which both values are numbers. */
module ScatterDdVsQ {
  import opened Samples
  import opened Segments
  import opened Humidity

  /** `np.isfinite(qq) & np.isfinite(dd)`. */
  function JointlyFinite(qq: seq<Val>, dd: seq<Val>): (valid: seq<bool>)
    requires |qq| == |dd|
    ensures |valid| == |qq|
    ensures forall i :: 0 <= i < |qq| ==> (valid[i] <==> qq[i].Num? && dd[i].Num?)
  {
    seq(|qq|, i requires 0 <= i < |qq| => qq[i].Num? && dd[i].Num?)
  }

  /** The source rows of the kept pairs: leg rows whose pair is numeric. */
  function KeptRows(timeSec: seq<Val>, q: seq<Val>, dD: seq<Val>): (src: seq<nat>)
    requires |q| == |dD| == |timeSec|
    ensures StrictlyIncreasing(src)
    ensures forall k :: 0 <= k < |src| ==>
      && src[k] < |timeSec|
      && InRange(timeSec[src[k]], LegStart, LegEnd)
      && q[src[k]].Num? && dD[src[k]].Num?
    ensures forall i :: 0 <= i < |timeSec| ==>
      (InRange(timeSec[i], LegStart, LegEnd) && q[i].Num? && dD[i].Num? ==> i in src)
  {
    var m := LegMask(timeSec);
    var p := Positions(m);
    var qq := Select(q, m);
    var dd := Select(dD, m);
    SelectAt(q, m);
    SelectAt(dD, m);
    var valid := JointlyFinite(qq, dd);
    var v := Positions(valid);
    var src := Gather(p, v);
    assert StrictlyIncreasing(src) by {
      forall a, b | 0 <= a < b < |src| ensures src[a] < src[b] {
        assert v[a] < v[b];
      }
    }
    forall i | 0 <= i < |timeSec| && InRange(timeSec[i], LegStart, LegEnd) && q[i].Num? && dD[i].Num?
      ensures i in src
    {
      assert m[i];
      var j :| 0 <= j < |p| && p[j] == i;
      assert valid[j];
      var k :| 0 <= k < |v| && v[k] == j;
      assert src[k] == i;
    }
    src
  }

  /** `qq_valid` and `dd_valid`: equally long, no longer than the leg count,
      only numbers, and row `k` of both comes from the same source row
      `KeptRows(...)[k]`, in the original order. */
  function ValidPairs(time: RawVar, vmr: RawVar, dDRaw: RawVar): (r: (seq<Val>, seq<Val>))
    requires time.data.Raw1? && vmr.data.Raw1? && WellFormedRaw(dDRaw.data)
    requires |vmr.data.cells| == RawLength(dDRaw.data) == |time.data.cells|
    ensures var timeSec := Fill(time).vals;
      var q := QRatioSeq(Fill(vmr).vals);
      var dD := Reduce(Fill(dDRaw)).vals;
      var src := KeptRows(timeSec, q, dD);
      && |r.0| == |r.1| == |src| <= CountTrue(LegMask(timeSec))
      && (forall k :: 0 <= k < |r.0| ==> r.0[k].Num? && r.1[k].Num?)
      && (forall k :: 0 <= k < |src| ==> r.0[k] == q[src[k]] && r.1[k] == dD[src[k]])
  {
    var timeSec := Fill(time).vals;
    var q := QRatioSeq(Fill(vmr).vals);
    var dD := Reduce(Fill(dDRaw)).vals;
    var m := LegMask(timeSec);
    var qq := Select(q, m);
    var dd := Select(dD, m);
    var valid := JointlyFinite(qq, dd);
    SelectAt(q, m);
    SelectAt(dD, m);
    SelectAt(qq, valid);
    SelectAt(dd, valid);
    (Select(qq, valid), Select(dd, valid))
  }
}
