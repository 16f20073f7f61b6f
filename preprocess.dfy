/** `load_and_preprocess`: read every variable of the file into a dictionary,
    fill masked entries, reduce the three sub-1 Hz variables to their first
    column, derive the mixing ratio `q` in g/kg and build timestamps from
    the reference date named in the units of `Time`. */
module Preprocess {
  import opened Samples
  import opened Humidity
  import opened TimeBase
  import opened Columns

  /** The variables sampled faster than 1 Hz, stored as a row per second. */
  const Sub1HzVars: seq<string> := ["GGLON", "GGLAT", "dD_WVISO1"]

  /** The channel a file variable ends up as: filled, and reduced to
      column 0 when it is one of the sub-1 Hz variables and two-dimensional;
      every other variable keeps its shape. */
  function Cleaned(name: string, v: RawVar): (ch: Channel)
    requires WellFormedRaw(v.data)
    ensures ChannelLength(ch) == RawLength(v.data)
    ensures name in Sub1HzVars ==> ch.Ch1?
    ensures name in Sub1HzVars && v.data.Raw1? ==> ch == Fill(v)
    ensures name in Sub1HzVars && v.data.Raw2? ==>
      forall i :: 0 <= i < |v.data.rows| ==> ch.vals[i] == FillCell(v.data.rows[i][0])
    ensures name !in Sub1HzVars ==> ch == Fill(v)
  {
    if name in Sub1HzVars && Fill(v).Ch2? then Reduce(Fill(v)) else Fill(v)
  }

  /** `getattr(var, "units", "")`. */
  function UnitsOf(v: RawVar): (u: string)
    ensures v.units.Some? ==> u == v.units.value
    ensures v.units.None? ==> u == ""
  {
    match v.units
    case None => ""
    case Some(u) => u
  }

  /** Keys the result has: every variable of the file, plus `q` when
      VMR_VXL is present and `Timestamp` when Time is present. */
  function ResultKeys(f: NcFile): set<string> {
    f.vars.Keys
      + (if "VMR_VXL" in f.vars then {"q"} else {})
      + (if "Time" in f.vars then {"Timestamp"} else {})
  }

  /** Whether the file's own entry `k` survives (it is not overwritten by
      the derived `q` or `Timestamp`). */
  predicate Kept(f: NcFile, k: string) {
    k in f.vars && !(k == "q" && "VMR_VXL" in f.vars) && !(k == "Timestamp" && "Time" in f.vars)
  }

  /** Lines 19-26: every variable of the file becomes an entry, filled. */
  method LoadAll(f: NcFile) returns (data: map<string, Column>)
    requires ValidFile(f)
    ensures data.Keys == f.vars.Keys
    ensures forall k :: k in data ==> data[k] == Values(Fill(f.vars[k]))
  {
    data := map[];
    var i := 0;
    while i < |f.names|
      invariant 0 <= i <= |f.names|
      invariant data.Keys == set k | k in f.names[..i]
      invariant forall k :: k in data ==> k in f.vars && data[k] == Values(Fill(f.vars[k]))
    {
      var name := f.names[i];
      data := data[name := Values(Fill(f.vars[name]))];
      assert f.names[..i + 1] == f.names[..i] + [name];
      i := i + 1;
    }
    assert f.names[..i] == f.names;
  }

  /** Lines 29-33: the sub-1 Hz variables that are two-dimensional are
      overwritten by their column 0; nothing else changes. */
  method ReduceSub1Hz(f: NcFile, loaded: map<string, Column>) returns (data: map<string, Column>)
    requires WellFormedVars(f)
    requires loaded.Keys == f.vars.Keys
    requires forall k :: k in loaded ==> loaded[k] == Values(Fill(f.vars[k]))
    ensures data.Keys == f.vars.Keys
    ensures forall k :: k in data ==> data[k] == Values(Cleaned(k, f.vars[k]))
  {
    data := loaded;
    var j := 0;
    while j < |Sub1HzVars|
      invariant 0 <= j <= |Sub1HzVars|
      invariant data.Keys == f.vars.Keys
      invariant forall k :: k in data ==>
        data[k] == Values(if k in Sub1HzVars[..j] then Cleaned(k, f.vars[k]) else Fill(f.vars[k]))
    {
      var v := Sub1HzVars[j];
      ghost var prev := data;
      if v in data && data[v].ch.Ch2? {
        data := data[v := Values(Reduce(data[v].ch))];
      }
      assert Sub1HzVars[..j + 1] == Sub1HzVars[..j] + [v];
      forall k | k in data
        ensures data[k] == Values(if k in Sub1HzVars[..j + 1] then Cleaned(k, f.vars[k]) else Fill(f.vars[k]))
      {
        if k != v {
          assert data[k] == prev[k];
          assert k in Sub1HzVars[..j + 1] <==> k in Sub1HzVars[..j];
        } else {
          assert v !in Sub1HzVars[..j];
          assert prev[k] == Values(Fill(f.vars[k]));
        }
      }
      j := j + 1;
    }
    assert Sub1HzVars[..j] == Sub1HzVars;
  }

  /** The timestamp column: one stamp per time sample, at its offset from
      the reference date. */
  function TimestampColumn(time: RawVar): (c: Column)
    requires time.data.Raw1?
    ensures c.Timestamps? && |c.stamps| == |time.data.cells|
    ensures forall i :: 0 <= i < |c.stamps| ==>
      Elapsed(BaseDate(UnitsOf(time)), c.stamps[i]) == Fill(time).vals[i]
  {
    Timestamps(Stamps(BaseDate(UnitsOf(time)), Fill(time).vals))
  }

  /** The derived `q` column: VMR_VXL as filled, converted to g/kg. */
  function QColumn(vmr: RawVar): (c: Column)
    ensures c.Values? && ChannelLength(c.ch) == RawLength(vmr.data)
    ensures vmr.data.Raw1? ==> c.ch.Ch1? && forall i :: 0 <= i < |vmr.data.cells| ==>
      c.ch.vals[i] == QGramsPerKg(FillCell(vmr.data.cells[i]))
    ensures vmr.data.Raw2? ==> c.ch.Ch2? && forall i :: 0 <= i < |vmr.data.rows| ==>
      |c.ch.rows[i]| == |vmr.data.rows[i]|
    ensures vmr.data.Raw2? ==> forall i, j :: 0 <= i < |vmr.data.rows| && 0 <= j < |vmr.data.rows[i]| ==>
      c.ch.rows[i][j] == QGramsPerKg(FillCell(vmr.data.rows[i][j]))
  {
    Values(MapChannel(QGramsPerKg, Fill(vmr)))
  }

  /** The result dictionary: one entry per key of `ResultKeys`; the derived
      `q` and `Timestamp` when their sources exist (overwriting a file
      variable of the same name), and every other file variable cleaned. */
  predicate Preprocessed(f: NcFile, data: map<string, Column>)
    requires ValidFile(f)
    requires "Time" in f.vars ==> f.vars["Time"].data.Raw1?
  {
    && data.Keys == ResultKeys(f)
    && (forall k :: k in data && Kept(f, k) ==> data[k] == Values(Cleaned(k, f.vars[k])))
    && ("VMR_VXL" in f.vars ==> data["q"] == QColumn(f.vars["VMR_VXL"]))
    && ("Time" in f.vars ==> data["Timestamp"] == TimestampColumn(f.vars["Time"]))
  }

  /** Lines 36-38: `q` is inserted when VMR_VXL is present. */
  method AddQ(f: NcFile, reduced: map<string, Column>) returns (data: map<string, Column>)
    requires ValidFile(f)
    requires reduced.Keys == f.vars.Keys
    requires forall k :: k in reduced ==> reduced[k] == Values(Cleaned(k, f.vars[k]))
    ensures data.Keys == f.vars.Keys + (if "VMR_VXL" in f.vars then {"q"} else {})
    ensures forall k :: k in data && !(k == "q" && "VMR_VXL" in f.vars) ==> data[k] == reduced[k]
    ensures "VMR_VXL" in f.vars ==> data["q"] == QColumn(f.vars["VMR_VXL"])
  {
    assert "VMR_VXL" !in Sub1HzVars;
    data := reduced;
    if "VMR_VXL" in data {
      data := data["q" := Values(MapChannel(QGramsPerKg, data["VMR_VXL"].ch))];
    }
  }

  /** Lines 41-52: `Timestamp` is inserted when Time is present. */
  method AddTimestamp(f: NcFile, withQ: map<string, Column>) returns (data: map<string, Column>)
    requires "Time" in f.vars ==> f.vars["Time"].data.Raw1?
    requires withQ.Keys == f.vars.Keys + (if "VMR_VXL" in f.vars then {"q"} else {})
    requires "Time" in f.vars ==> withQ["Time"] == Values(Fill(f.vars["Time"]))
    ensures data.Keys == ResultKeys(f)
    ensures forall k :: k in data && !(k == "Timestamp" && "Time" in f.vars) ==> data[k] == withQ[k]
    ensures "Time" in f.vars ==> data["Timestamp"] == TimestampColumn(f.vars["Time"])
  {
    data := withQ;
    if "Time" in data {
      // The units come from the file's variable, the seconds from the entry.
      var base := BaseDate(UnitsOf(f.vars["Time"]));
      data := data["Timestamp" := Timestamps(Stamps(base, data["Time"].ch.vals))];
    }
  }

  /** The whole of `load_and_preprocess` up to the DataFrame: its result
      dictionary. */
  method LoadAndPreprocess(f: NcFile) returns (data: map<string, Column>)
    requires ValidFile(f)
    requires "Time" in f.vars ==> f.vars["Time"].data.Raw1?
    ensures Preprocessed(f, data)
  {
    var loaded := LoadAll(f);
    var reduced := ReduceSub1Hz(f, loaded);
    var withQ := AddQ(f, reduced);
    data := AddTimestamp(f, withQ);
  }

  /** What the result dictionary of `LoadAndPreprocess` promises its
      readers: `q` and `Timestamp` are present exactly when their sources are
      (or the file has variables of those names); `q` is VMR_VXL converted
      to g/kg elementwise with NaN kept; the timestamps are aligned one to one
      with Time and recover its elapsed seconds; the sub-1 Hz variables are
      one-dimensional and every other variable is as filled. */
  lemma PreprocessedEntries(f: NcFile, data: map<string, Column>)
    requires ValidFile(f)
    requires "Time" in f.vars ==> f.vars["Time"].data.Raw1?
    requires Preprocessed(f, data)
    ensures forall k :: k in f.vars ==> k in data
    ensures "q" in data <==> "VMR_VXL" in f.vars || "q" in f.vars
    ensures "Timestamp" in data <==> "Time" in f.vars || "Timestamp" in f.vars
    ensures "VMR_VXL" in f.vars && Fill(f.vars["VMR_VXL"]).Ch1? ==>
      var vmr := Fill(f.vars["VMR_VXL"]).vals;
      && data["q"].Values? && data["q"].ch.Ch1? && |data["q"].ch.vals| == |vmr|
      && forall i :: 0 <= i < |vmr| ==> data["q"].ch.vals[i] == QGramsPerKg(vmr[i])
    ensures "Time" in f.vars ==>
      var time := Fill(f.vars["Time"]).vals;
      var base := BaseDate(UnitsOf(f.vars["Time"]));
      && data["Timestamp"].Timestamps? && |data["Timestamp"].stamps| == |time|
      && forall i :: 0 <= i < |time| ==> Elapsed(base, data["Timestamp"].stamps[i]) == time[i]
    ensures forall k :: Kept(f, k) && k in Sub1HzVars ==>
      data[k].Values? && data[k].ch.Ch1? && |data[k].ch.vals| == RawLength(f.vars[k].data)
    ensures forall k :: Kept(f, k) && k in Sub1HzVars && f.vars[k].data.Raw1? ==> data[k] == Values(Fill(f.vars[k]))
    ensures forall k, i :: Kept(f, k) && k in Sub1HzVars && f.vars[k].data.Raw2? && 0 <= i < |f.vars[k].data.rows| ==>
      data[k].ch.vals[i] == FillCell(f.vars[k].data.rows[i][0])
    ensures forall k :: Kept(f, k) && k !in Sub1HzVars ==> data[k] == Values(Fill(f.vars[k]))
  {
    if "VMR_VXL" in f.vars {
      assert "q" in data;
    }
    if "Time" in f.vars {
      assert "Timestamp" in data;
    }
  }

  /** A two-dimensional sub-1 Hz variable becomes its column 0, row by row. */
  lemma Sub1HzColumnZero(name: string, v: RawVar, i: nat)
    requires WellFormedRaw(v.data) && name in Sub1HzVars && v.data.Raw2? && i < |v.data.rows|
    ensures Cleaned(name, v).vals[i] == FillCell(v.data.rows[i][0])
  {
  }
}
