/** flight_track.py: cleaned altitude and time, timestamps from the fixed
    base date, and the spiral and near-surface masks drawn on the curtain. */
module FlightTrack {
  import opened Samples
  import opened Segments
  import opened TimeBase

  datatype Track = Track(palt: seq<Val>, timeSec: seq<Val>, timestamps: seq<Stamp>,
                         spiralMask: seq<bool>, surfaceMask: seq<bool>)

  /** The script's arrays. `timedelta(seconds=float(s))` raises on NaN, so
      every time sample must be numeric. */
  function FlightTrackArrays(pAlt: RawVar, time: RawVar): (t: Track)
    requires pAlt.data.Raw1? && time.data.Raw1?
    requires forall i :: 0 <= i < |time.data.cells| ==> FillCell(time.data.cells[i]).Num?
    ensures ValidDate(DefaultDate)
    ensures t.palt == FillCells(pAlt.data.cells) && t.timeSec == FillCells(time.data.cells)
    ensures |t.timestamps| == |t.timeSec| == |t.spiralMask| == |t.surfaceMask|
    ensures forall i :: 0 <= i < |t.timeSec| ==>
      t.timeSec[i].Num? && t.timestamps[i] == At(BaseInstant(DefaultDate) + t.timeSec[i].r)
    ensures forall i :: 0 <= i < |t.timeSec| ==>
      (t.spiralMask[i] <==> 40414.0 <= t.timeSec[i].r <= 49099.0)
    ensures forall i :: 0 <= i < |t.timeSec| ==>
      (t.surfaceMask[i] <==> 52000.0 <= t.timeSec[i].r <= 54000.0)
    ensures forall i :: 0 <= i < |t.timeSec| ==> !(t.spiralMask[i] && t.surfaceMask[i])
  {
    DefaultDateValid();
    var timeSec := Fill(time).vals;
    Track(Fill(pAlt).vals, timeSec, Stamps(DefaultDate, timeSec), SpiralMask(timeSec), LegMask(timeSec))
  }
}
