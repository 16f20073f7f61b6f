/** time_series_leg.py: potential temperature, mixing ratio (without the
    division by 1000) and isotope ratio over the near-surface leg, against
    timestamps from the fixed base date. */
module TimeSeriesLeg {
  import opened Samples
  import opened Segments
  import opened Humidity
  import opened TimeBase

  datatype LegSeries = LegSeries(t: seq<Stamp>, th: seq<Val>, qq: seq<Val>, dd: seq<Val>)

  /** The leg arrays `t`, `th`, `qq`, `dd`: all masked with the one leg
      mask, so each has the mask-count length and entry `k` of each comes
      from source row `Positions(mask)[k]`, in the original order. */
  function LegArrays(time: RawVar, theta: RawVar, vmr: RawVar, dDRaw: RawVar): (r: LegSeries)
    requires time.data.Raw1? && theta.data.Raw1? && vmr.data.Raw1? && WellFormedRaw(dDRaw.data)
    requires |theta.data.cells| == |vmr.data.cells| == RawLength(dDRaw.data) == |time.data.cells|
    requires forall i :: 0 <= i < |time.data.cells| ==> FillCell(time.data.cells[i]).Num?
    ensures ValidDate(DefaultDate)
    ensures var timeSec := Fill(time).vals;
      var m := LegMask(timeSec);
      var p := Positions(m);
      && |r.t| == |r.th| == |r.qq| == |r.dd| == CountTrue(m) == |p|
      && StrictlyIncreasing(p)
      && (forall k :: 0 <= k < |p| ==> p[k] < |timeSec| && 52000.0 <= timeSec[p[k]].r <= 54000.0)
      && (forall i :: 0 <= i < |timeSec| && 52000.0 <= timeSec[i].r <= 54000.0 ==> i in p)
      && (forall k :: 0 <= k < |p| ==>
        && r.t[k] == At(BaseInstant(DefaultDate) + timeSec[p[k]].r)
        && r.th[k] == Fill(theta).vals[p[k]]
        && r.qq[k] == QRatio(Fill(vmr).vals[p[k]])
        && r.dd[k] == Reduce(Fill(dDRaw)).vals[p[k]])
  {
    DefaultDateValid();
    var timeSec := Fill(time).vals;
    var dD := Reduce(Fill(dDRaw)).vals;
    var q := QRatioSeq(Fill(vmr).vals);
    var timestamps := Stamps(DefaultDate, timeSec);
    var m := LegMask(timeSec);
    SelectAt(timestamps, m);
    SelectAt(Fill(theta).vals, m);
    SelectAt(q, m);
    SelectAt(dD, m);
    LegSeries(Select(timestamps, m), Select(Fill(theta).vals, m), Select(q, m), Select(dD, m))
  }
}
