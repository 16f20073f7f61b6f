/** inspect_nc.py: a summary of the measurement file — its dimensions, a
    record per variable of interest, the time range, the number of samples
    in each segment, and the altitude range in each segment. */
module InspectNc {
  import opened Samples
  import opened Segments

  const VarsOfInterest: seq<string> := ["Time", "PALT", "GGLON", "GGLAT", "THETA", "VMR_VXL", "dD_WVISO1"]

  // ---------------------------------------------------------------------
  // Reductions over a non-empty sequence.
  // ---------------------------------------------------------------------

  /** `np.min`: NaN if any entry is NaN, else the least entry. */
  function MinOf(vs: seq<Val>): (r: Val)
    requires |vs| > 0
    ensures r in vs
    ensures r.Missing? <==> Missing in vs
    ensures r.Num? ==> forall i :: 0 <= i < |vs| ==> vs[i].Num? && r.r <= vs[i].r
  {
    if |vs| == 1 then vs[0]
    else
      var init := vs[..|vs| - 1];
      var m := MinOf(init);
      var x := vs[|vs| - 1];
      assert vs == init + [x];
      if m.Missing? || x.Missing? then Missing
      else if x.r < m.r then x else m
  }

  /** `np.max`: NaN if any entry is NaN, else the greatest entry. */
  function MaxOf(vs: seq<Val>): (r: Val)
    requires |vs| > 0
    ensures r in vs
    ensures r.Missing? <==> Missing in vs
    ensures r.Num? ==> forall i :: 0 <= i < |vs| ==> vs[i].Num? && vs[i].r <= r.r
  {
    if |vs| == 1 then vs[0]
    else
      var init := vs[..|vs| - 1];
      var m := MaxOf(init);
      var x := vs[|vs| - 1];
      assert vs == init + [x];
      if m.Missing? || x.Missing? then Missing
      else if x.r > m.r then x else m
  }

  predicate AllMissing(vs: seq<Val>) {
    forall i :: 0 <= i < |vs| ==> vs[i].Missing?
  }

  /** `np.nanmin`: the least number, ignoring NaN; NaN when there is none. */
  function NanMin(vs: seq<Val>): (r: Val)
    requires |vs| > 0
    ensures r.Missing? <==> AllMissing(vs)
    ensures r.Num? ==> r in vs && forall i :: 0 <= i < |vs| && vs[i].Num? ==> r.r <= vs[i].r
  {
    if |vs| == 1 then vs[0]
    else
      var init := vs[..|vs| - 1];
      var m := NanMin(init);
      var x := vs[|vs| - 1];
      assert vs == init + [x];
      if m.Missing? then x
      else if x.Missing? || m.r <= x.r then m else x
  }

  /** `np.nanmax`: the greatest number, ignoring NaN; NaN when there is none. */
  function NanMax(vs: seq<Val>): (r: Val)
    requires |vs| > 0
    ensures r.Missing? <==> AllMissing(vs)
    ensures r.Num? ==> r in vs && forall i :: 0 <= i < |vs| && vs[i].Num? ==> vs[i].r <= r.r
  {
    if |vs| == 1 then vs[0]
    else
      var init := vs[..|vs| - 1];
      var m := NanMax(init);
      var x := vs[|vs| - 1];
      assert vs == init + [x];
      if m.Missing? then x
      else if x.Missing? || m.r >= x.r then m else x
  }

  /** The minimum never exceeds the maximum; one is NaN exactly when the other is. */
  lemma MinLeMax(vs: seq<Val>)
    requires |vs| > 0
    ensures MinOf(vs).Num? <==> MaxOf(vs).Num?
    ensures MinOf(vs).Num? ==> MinOf(vs).r <= MaxOf(vs).r
  {
    if MinOf(vs).Num? {
      assert vs[0].Num?;
    }
  }

  lemma NanMinLeNanMax(vs: seq<Val>)
    requires |vs| > 0
    ensures NanMin(vs).Num? <==> NanMax(vs).Num?
    ensures NanMin(vs).Num? ==> NanMin(vs).r <= NanMax(vs).r
  {
    var lo := NanMin(vs);
    if lo.Num? {
      var i :| 0 <= i < |vs| && vs[i] == lo;
      assert vs[i].Num?;
    }
  }

  // ---------------------------------------------------------------------
  // The cleaned data of a variable.
  // ---------------------------------------------------------------------

  /** All cells in row-major order, as `compressed()` and boolean indexing
      flatten them. */
  function Concat(rows: seq<seq<Cell>>): seq<Cell> {
    if rows == [] then []
    else Concat(rows[..|rows| - 1]) + rows[|rows| - 1]
  }

  /** Flattening keeps the rows in order: flattening two blocks one after
      the other is flattening each and joining the results. */
  lemma {:induction false} ConcatAppend(a: seq<seq<Cell>>, b: seq<seq<Cell>>)
    ensures Concat(a + b) == Concat(a) + Concat(b)
    decreases |b|
  {
    if b == [] {
      assert a + b == a;
    } else {
      var n := |b| - 1;
      assert (a + b)[..|a + b| - 1] == a + b[..n];
      assert (a + b)[|a + b| - 1] == b[n];
      ConcatAppend(a, b[..n]);
      assert Concat(b) == Concat(b[..n]) + b[n];
    }
  }

  lemma ConcatSingle(x: seq<Cell>)
    ensures Concat([x]) == x
  {
    assert [x][..0] == [];
  }

  /** The rows from `i` on flatten to row `i` followed by the rest. */
  lemma ConcatFrom(rows: seq<seq<Cell>>, i: nat)
    requires i < |rows|
    ensures Concat(rows[i..]) == rows[i] + Concat(rows[i + 1..])
  {
    var c := rows[i + 1..];
    assert rows[i..] == [rows[i]] + c;
    ConcatAppend([rows[i]], c);
    ConcatSingle(rows[i]);
  }

  /** Row `i` is the block that follows the flattened rows before it. */
  lemma ConcatBlock(rows: seq<seq<Cell>>, i: nat)
    requires i < |rows|
    ensures Concat(rows) == Concat(rows[..i]) + rows[i] + Concat(rows[i + 1..])
  {
    assert rows[..i] + rows[i..] == rows;
    ConcatAppend(rows[..i], rows[i..]);
    ConcatFrom(rows, i);
  }

  /** Row `i` of `rows` is the block of `cs` that starts where the
      flattened rows before it end. */
  predicate RowAt(cs: seq<Cell>, rows: seq<seq<Cell>>, i: nat)
    requires i < |rows|
  {
    var o := |Concat(rows[..i])|;
    o + |rows[i]| <= |cs| && cs[o..o + |rows[i]|] == rows[i]
  }

  lemma MiddleSlice(a: seq<Cell>, b: seq<Cell>, c: seq<Cell>)
    ensures |a| + |b| <= |a + b + c| && (a + b + c)[|a|..|a| + |b|] == b
  {
  }

  /** Row `i` sits at the offset of the rows before it. */
  lemma ConcatRowAt(rows: seq<seq<Cell>>, i: nat)
    requires i < |rows|
    ensures RowAt(Concat(rows), rows, i)
  {
    ConcatBlock(rows, i);
    MiddleSlice(Concat(rows[..i]), rows[i], Concat(rows[i + 1..]));
  }

  /** Every row of a two-dimensional variable is a contiguous block of the
      flattened cells, in order. */
  lemma ConcatBlocks(rows: seq<seq<Cell>>)
    ensures forall i :: 0 <= i < |rows| ==> RowAt(Concat(rows), rows, i)
  {
    forall i | 0 <= i < |rows| ensures RowAt(Concat(rows), rows, i) {
      ConcatRowAt(rows, i);
    }
  }

  /** The cells as `compressed()` and boolean indexing see them: a
      one-dimensional variable as stored, a two-dimensional one row after
      row. */
  function FlatCells(d: Raw): (cs: seq<Cell>)
    ensures d.Raw1? ==> cs == d.cells
    ensures d.Raw2? ==> forall i :: 0 <= i < |d.rows| ==> RowAt(cs, d.rows, i)
  {
    match d
    case Raw1(cells) => cells
    case Raw2(_, rows) => ConcatBlocks(rows); Concat(rows)
  }

  /** Which cells the cleaning keeps: `data.compressed()` keeps every
      unmasked cell (a stored NaN included), `data[~np.isnan(data)]` keeps
      the numbers. */
  function CleanMask(isMasked: bool, cs: seq<Cell>): (m: seq<bool>)
    ensures |m| == |cs|
    ensures forall i :: 0 <= i < |cs| ==>
      (m[i] <==> cs[i].Stored? && (isMasked || cs[i].v.Num?))
  {
    seq(|cs|, i requires 0 <= i < |cs| => cs[i].Stored? && (isMasked || cs[i].v.Num?))
  }

  /** The cleaned data: the kept cells' values, in row-major order. */
  function Clean(v: RawVar): (r: seq<Val>)
    ensures var cs := FlatCells(v.data);
      var m := CleanMask(v.isMasked, cs);
      && |r| == CountTrue(m)
      && (forall k :: 0 <= k < |r| ==> cs[Positions(m)[k]].Stored? && r[k] == cs[Positions(m)[k]].v)
      && (forall i :: 0 <= i < |cs| && m[i] ==> exists k :: 0 <= k < |r| && Positions(m)[k] == i)
      && (!v.isMasked ==> forall k :: 0 <= k < |r| ==> r[k].Num?)
  {
    var cs := FlatCells(v.data);
    var m := CleanMask(v.isMasked, cs);
    var r := Select(FillCells(cs), m);
    SelectAt(FillCells(cs), m);
    forall i | 0 <= i < |cs| && m[i] ensures exists k :: 0 <= k < |r| && Positions(m)[k] == i {
      assert i in Positions(m);
    }
    r
  }

  // ---------------------------------------------------------------------
  // The per-variable record.
  // ---------------------------------------------------------------------

  datatype Summary = MinMax(min: Val, max: Val) | AllNan

  datatype Info = Info(shape: seq<nat>, units: string, longName: string, summary: Summary)

  datatype Entry = NotFound | Found(info: Info)

  /** `list(var.shape)`. */
  function Shape(d: Raw): (s: seq<nat>)
    ensures d.Raw1? ==> s == [|d.cells|]
    ensures d.Raw2? ==> s == [|d.rows|, d.width]
  {
    match d
    case Raw1(cells) => [|cells|]
    case Raw2(w, rows) => [|rows|, w]
  }

  /** `getattr(var, name, "N/A")`. */
  function AttrOr(a: Option<string>): (s: string)
    ensures a.Some? ==> s == a.value
    ensures a.None? ==> s == "N/A"
  {
    match a
    case Some(x) => x
    case None => "N/A"
  }

  /** Min and max when the cleaned data is non-empty, the all-NaN marker
      otherwise; never both. */
  function Summarize(clean: seq<Val>): (s: Summary)
    ensures s.AllNan? <==> |clean| == 0
    ensures s.MinMax? ==> s.min in clean && s.max in clean
    ensures s.MinMax? ==> (s.min.Missing? <==> Missing in clean) && (s.max.Missing? <==> Missing in clean)
    ensures s.MinMax? && s.min.Num? ==> s.max.Num? && s.min.r <= s.max.r
    ensures s.MinMax? && s.min.Num? ==> forall i :: 0 <= i < |clean| ==> s.min.r <= clean[i].r <= s.max.r
  {
    if |clean| > 0 then
      MinLeMax(clean);
      MinMax(MinOf(clean), MaxOf(clean))
    else AllNan
  }

  function InfoOf(v: RawVar): (info: Info)
    ensures info.shape == Shape(v.data)
    ensures info.units == AttrOr(v.units) && info.longName == AttrOr(v.longName)
    ensures info.summary == Summarize(Clean(v))
    ensures info.summary.AllNan? <==> |Clean(v)| == 0
    ensures info.summary.MinMax? && !v.isMasked ==> info.summary.min.Num? && info.summary.max.Num?
  {
    var s := Summarize(Clean(v));
    assert s.MinMax? && !v.isMasked ==> Missing !in Clean(v);
    Info(Shape(v.data), AttrOr(v.units), AttrOr(v.longName), s)
  }

  /** The record of one variable of interest: NOT FOUND exactly when the
      file lacks it. */
  function EntryOf(f: NcFile, name: string): (e: Entry)
    ensures e.NotFound? <==> name !in f.vars
    ensures e.Found? ==> e.info == InfoOf(f.vars[name])
  {
    if name in f.vars then Found(InfoOf(f.vars[name])) else NotFound
  }

  /** Lines 16-35: the record of one variable, or NOT FOUND. */
  method RecordOf(f: NcFile, v: string) returns (entry: Entry)
    ensures entry == EntryOf(f, v)
  {
    if v in f.vars {
      entry := Found(InfoOf(f.vars[v]));
    } else {
      entry := NotFound;
    }
  }

  /** Lines 15-35: one entry per variable of interest. */
  method VariableInfo(f: NcFile) returns (varInfo: map<string, Entry>)
    ensures varInfo.Keys == set k | k in VarsOfInterest
    ensures forall k :: k in varInfo ==> varInfo[k] == EntryOf(f, k)
  {
    varInfo := map[];
    var i := 0;
    while i < |VarsOfInterest|
      invariant 0 <= i <= |VarsOfInterest|
      invariant varInfo.Keys == set k | k in VarsOfInterest[..i]
      invariant forall k :: k in varInfo ==> varInfo[k] == EntryOf(f, k)
    {
      var v := VarsOfInterest[i];
      var entry := RecordOf(f, v);
      ghost var prev := varInfo;
      varInfo := varInfo[v := entry];
      assert VarsOfInterest[..i + 1] == VarsOfInterest[..i] + [v];
      forall k | k in varInfo ensures varInfo[k] == EntryOf(f, k) {
        if k != v {
          assert varInfo[k] == prev[k];
        }
      }
      i := i + 1;
    }
    assert VarsOfInterest[..i] == VarsOfInterest;
  }

  // ---------------------------------------------------------------------
  // Time range, segment counts and altitude ranges.
  // ---------------------------------------------------------------------

  datatype Span = Span(min: Val, max: Val)

  datatype Report = Report(
    dimensions: map<string, nat>,
    variables: map<string, Entry>,
    timeRange: Span,
    spiralPoints: nat,
    horizPoints: nat,
    paltSpiral: Span,
    paltHoriz: Span)

  /** The file as line 40 onwards reads it: `Time` and `PALT` exist, are
      one-dimensional and equally long, `Time` is not empty (`np.min` of an
      empty array raises), and each segment holds at least one sample
      (`np.nanmin` of an empty selection raises). */
  predicate Inspectable(f: NcFile) {
    && "Time" in f.vars && "PALT" in f.vars
    && f.vars["Time"].data.Raw1? && f.vars["PALT"].data.Raw1?
    && |f.vars["PALT"].data.cells| == |f.vars["Time"].data.cells|
    && |f.vars["Time"].data.cells| > 0
    && CountTrue(SpiralMask(FillCells(f.vars["Time"].data.cells))) > 0
    && CountTrue(LegMask(FillCells(f.vars["Time"].data.cells))) > 0
  }

  /** Line 41: the minimum and maximum over the unmasked times. A masked
      minimum (every time masked) converts to NaN, and a stored NaN makes
      both NaN. */
  function TimeRange(time: seq<Cell>): (s: Span)
    ensures var u := Clean(RawVar(true, Raw1(time), None, None));
      && (|u| == 0 ==> s == Span(Missing, Missing))
      && (|u| > 0 ==> s.min in u && s.max in u)
      && (s.min.Num? <==> s.max.Num?)
      && (s.min.Num? ==> s.min.r <= s.max.r)
      && (|u| > 0 ==> (s.min.Missing? <==> Missing in u))
      && (s.min.Num? ==> forall i :: 0 <= i < |u| ==> u[i].Num? && s.min.r <= u[i].r <= s.max.r)
  {
    var u := Clean(RawVar(true, Raw1(time), None, None));
    if |u| == 0 then Span(Missing, Missing)
    else
      MinLeMax(u);
      Span(MinOf(u), MaxOf(u))
  }

  /** Lines 54-55: the NaN-ignoring altitude range inside a mask. */
  function AltitudeRange(palt: seq<Val>, m: seq<bool>): (s: Span)
    requires |palt| == |m| && CountTrue(m) > 0
    ensures var sel := Select(palt, m);
      && (s.min.Missing? <==> AllMissing(sel))
      && (s.min.Num? <==> s.max.Num?)
      && (s.min.Num? ==> s.min in sel && s.max in sel && s.min.r <= s.max.r)
      && (s.min.Num? ==> forall i :: 0 <= i < |sel| && sel[i].Num? ==> s.min.r <= sel[i].r <= s.max.r)
  {
    var sel := Select(palt, m);
    NanMinLeNanMax(sel);
    Span(NanMin(sel), NanMax(sel))
  }

  /** The whole summary, built in the order the script writes it. */
  method Inspect(f: NcFile) returns (report: Report)
    requires Inspectable(f)
    ensures report.dimensions == f.dims
    ensures report.variables.Keys == set k | k in VarsOfInterest
    ensures forall k :: k in report.variables ==> report.variables[k] == EntryOf(f, k)
    ensures report.timeRange == TimeRange(f.vars["Time"].data.cells)
    ensures report.spiralPoints == CountTrue(SpiralMask(FillCells(f.vars["Time"].data.cells)))
    ensures report.horizPoints == CountTrue(LegMask(FillCells(f.vars["Time"].data.cells)))
    ensures report.paltSpiral == AltitudeRange(FillCells(f.vars["PALT"].data.cells), SpiralMask(FillCells(f.vars["Time"].data.cells)))
    ensures report.paltHoriz == AltitudeRange(FillCells(f.vars["PALT"].data.cells), LegMask(FillCells(f.vars["Time"].data.cells)))
  {
    var dimensions := f.dims;
    var variables := VariableInfo(f);
    var timeData := f.vars["Time"].data.cells;
    var timeRange := TimeRange(timeData);
    // A masked time compares as masked and is not counted: it is Missing here.
    var times := FillCells(timeData);
    var maskSpiral := SpiralMask(times);
    var maskHoriz := LegMask(times);
    var spiralPoints := CountTrue(maskSpiral);
    var horizPoints := CountTrue(maskHoriz);
    var paltNp := FillCells(f.vars["PALT"].data.cells);
    var paltSpiral := AltitudeRange(paltNp, maskSpiral);
    var paltHoriz := AltitudeRange(paltNp, maskHoriz);
    report := Report(dimensions, variables, timeRange, spiralPoints, horizPoints, paltSpiral, paltHoriz);
  }

  /** The segment counts: each is the number of samples inside its closed
      interval, and together they never exceed the number of samples. */
  lemma PointCounts(f: NcFile)
    requires Inspectable(f)
    ensures var ts := FillCells(f.vars["Time"].data.cells);
      && CountTrue(SpiralMask(ts)) + CountTrue(LegMask(ts)) <= |f.vars["Time"].data.cells|
      && |Positions(SpiralMask(ts))| == CountTrue(SpiralMask(ts))
      && (forall i :: 0 <= i < |ts| ==> (i in Positions(SpiralMask(ts)) <==> InRange(ts[i], SpiralStart, SpiralEnd)))
      && (forall i :: 0 <= i < |ts| ==> (i in Positions(LegMask(ts)) <==> InRange(ts[i], LegStart, LegEnd)))
  {
    var ts := FillCells(f.vars["Time"].data.cells);
    SegmentCountsBounded(ts);
  }
}
