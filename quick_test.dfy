/** `load_first_n_lines`: load the first `n` rows of a fixed list of
    variables, skipping those the file lacks, fill masked entries, reduce
    every two-dimensional variable to its column 0, derive `q` in g/kg and
    build timestamps from the fixed base date 2024-02-29. */
module QuickTest {
  import opened Samples
  import opened Humidity
  import opened TimeBase
  import opened Columns

  const VarsToLoad: seq<string> := ["Time", "PALT", "GGLON", "GGLAT", "THETA", "VMR_VXL", "dD_WVISO1"]

  /** The end of the slice `[:n]` of a sequence of length `len`, with
      Python's meaning of a negative `n` (count from the end). */
  function SliceEnd(len: nat, n: int): (e: nat)
    ensures e <= len
    ensures n >= 0 ==> e == if n < len then n else len
    ensures n < 0 ==> e == if len + n > 0 then len + n else 0
  {
    if n >= 0 then (if n < len then n else len)
    else if len + n > 0 then len + n else 0
  }

  /** `var[:n]`: the first rows, whatever the shape. */
  function Prefix(d: Raw, n: int): (p: Raw)
    ensures RawLength(p) == SliceEnd(RawLength(d), n)
    ensures d.Raw1? <==> p.Raw1?
    ensures d.Raw1? ==> p.cells == d.cells[..SliceEnd(|d.cells|, n)]
    ensures d.Raw2? ==> p.width == d.width && p.rows == d.rows[..SliceEnd(|d.rows|, n)]
    ensures WellFormedRaw(d) ==> WellFormedRaw(p)
  {
    match d
    case Raw1(cells) => Raw1(cells[..SliceEnd(|cells|, n)])
    case Raw2(w, rows) => Raw2(w, rows[..SliceEnd(|rows|, n)])
  }

  /** Cell `i` of the representative column: the cell itself, or column 0. */
  function Column0(d: Raw, i: nat): Cell
    requires WellFormedRaw(d) && i < RawLength(d)
  {
    match d
    case Raw1(cells) => cells[i]
    case Raw2(_, rows) => rows[i][0]
  }

  /** One loaded variable: the prefix of the source, filled, with any
      two-dimensional variable reduced to column 0. Its length is
      min(n, rows) for `n >= 0`, and row `i` keeps row `i` of the source. */
  function LoadPrefix(v: RawVar, n: int): (vals: seq<Val>)
    requires WellFormedRaw(v.data)
    ensures |vals| == SliceEnd(RawLength(v.data), n)
    ensures forall i :: 0 <= i < |vals| ==> vals[i] == FillCell(Column0(v.data, i))
  {
    var p := RawVar(v.isMasked, Prefix(v.data, n), v.units, v.longName);
    var ch := Fill(p);
    if ch.Ch2? then Reduce(ch).vals else ch.vals
  }

  function LoadedKeys(f: NcFile): set<string> {
    set v | v in VarsToLoad && v in f.vars
  }

  /** The keys of the result: the listed variables the file has, plus `q`
      exactly when VMR_VXL was loaded and `Timestamp` exactly when Time was. */
  function QuickKeys(f: NcFile): set<string> {
    LoadedKeys(f) + QKeys(f) + StampKeys(f)
  }

  function QKeys(f: NcFile): set<string> {
    if "VMR_VXL" in f.vars then {"q"} else {}
  }

  function StampKeys(f: NcFile): set<string> {
    if "Time" in f.vars then {"Timestamp"} else {}
  }

  /** Lines 16-23: the listed variables present in the file, as loaded;
      absent ones are skipped without error. */
  method LoadListed(f: NcFile, n: int) returns (data: map<string, Column>)
    requires WellFormedVars(f)
    ensures data.Keys == LoadedKeys(f)
    ensures forall k :: k in data ==> data[k] == Values(Ch1(LoadPrefix(f.vars[k], n)))
  {
    data := map[];
    var i := 0;
    while i < |VarsToLoad|
      invariant 0 <= i <= |VarsToLoad|
      invariant data.Keys == set v | v in VarsToLoad[..i] && v in f.vars
      invariant forall k :: k in data ==> k in f.vars && data[k] == Values(Ch1(LoadPrefix(f.vars[k], n)))
    {
      var v := VarsToLoad[i];
      if v in f.vars {
        var val := RawVar(f.vars[v].isMasked, Prefix(f.vars[v].data, n), f.vars[v].units, f.vars[v].longName);
        var filled := Fill(val);
        if filled.Ch2? {
          filled := Reduce(filled);
        }
        assert filled == Ch1(LoadPrefix(f.vars[v], n));
        data := data[v := Values(filled)];
      }
      assert VarsToLoad[..i + 1] == VarsToLoad[..i] + [v];
      i := i + 1;
    }
    assert VarsToLoad[..i] == VarsToLoad;
  }

  lemma ListedNames()
    ensures "VMR_VXL" in VarsToLoad && "Time" in VarsToLoad
    ensures "q" !in VarsToLoad && "Timestamp" !in VarsToLoad
  {
  }

  /** The `q` column: VMR_VXL as loaded, converted to g/kg. */
  function QuickQColumn(f: NcFile, n: int): (c: Column)
    requires WellFormedVars(f) && "VMR_VXL" in f.vars
    ensures var d := f.vars["VMR_VXL"].data;
      && c.Values? && c.ch.Ch1? && |c.ch.vals| == SliceEnd(RawLength(d), n)
      && forall i :: 0 <= i < |c.ch.vals| ==> c.ch.vals[i] == QGramsPerKg(FillCell(Column0(d, i)))
  {
    Values(Ch1(QGramsPerKgSeq(LoadPrefix(f.vars["VMR_VXL"], n))))
  }

  /** The `Timestamp` column: the loaded times after the fixed base date. */
  function QuickStampColumn(f: NcFile, n: int): (c: Column)
    requires WellFormedVars(f) && "Time" in f.vars
    ensures var d := f.vars["Time"].data;
      && ValidDate(DefaultDate)
      && c.Timestamps? && |c.stamps| == SliceEnd(RawLength(d), n)
      && forall i :: 0 <= i < |c.stamps| ==> Elapsed(DefaultDate, c.stamps[i]) == FillCell(Column0(d, i))
  {
    DefaultDateValid();
    Timestamps(Stamps(DefaultDate, LoadPrefix(f.vars["Time"], n)))
  }

  /** Lines 25-26: `q` is added exactly when VMR_VXL was loaded. */
  method AddQuickQ(f: NcFile, n: int, listed: map<string, Column>) returns (data: map<string, Column>)
    requires WellFormedVars(f)
    requires listed.Keys == LoadedKeys(f)
    requires forall k :: k in listed ==> listed[k] == Values(Ch1(LoadPrefix(f.vars[k], n)))
    ensures data.Keys == LoadedKeys(f) + QKeys(f)
    ensures forall k :: k in data && k in LoadedKeys(f) ==> data[k] == listed[k]
    ensures "q" in data ==> "VMR_VXL" in f.vars && data["q"] == QuickQColumn(f, n)
  {
    ListedNames();
    data := listed;
    if "VMR_VXL" in data {
      data := data["q" := Values(Ch1(QGramsPerKgSeq(data["VMR_VXL"].ch.vals)))];
    }
  }

  /** Lines 28-30: `Timestamp` is added exactly when Time was loaded. */
  method AddQuickStamps(f: NcFile, n: int, withQ: map<string, Column>) returns (data: map<string, Column>)
    requires WellFormedVars(f)
    requires withQ.Keys == LoadedKeys(f) + QKeys(f)
    requires "Time" in withQ ==> withQ["Time"] == Values(Ch1(LoadPrefix(f.vars["Time"], n)))
    ensures data.Keys == QuickKeys(f)
    ensures forall k :: k in data && k != "Timestamp" ==> data[k] == withQ[k]
    ensures "Timestamp" in data ==> "Time" in f.vars && data["Timestamp"] == QuickStampColumn(f, n)
  {
    ListedNames();
    data := withQ;
    if "Time" in data {
      DefaultDateValid();
      data := data["Timestamp" := Timestamps(Stamps(DefaultDate, data["Time"].ch.vals))];
    }
  }

  /** The whole of `load_first_n_lines` up to the DataFrame: the listed
      variables present, as loaded, plus `q` and `Timestamp` when their
      sources were loaded. */
  method LoadFirstN(f: NcFile, n: int) returns (data: map<string, Column>)
    requires WellFormedVars(f)
    ensures data.Keys == QuickKeys(f)
    ensures forall k :: k in data && k in LoadedKeys(f) ==> data[k] == Values(Ch1(LoadPrefix(f.vars[k], n)))
    ensures "q" in data ==> "VMR_VXL" in f.vars && data["q"] == QuickQColumn(f, n)
    ensures "Timestamp" in data ==> "Time" in f.vars && data["Timestamp"] == QuickStampColumn(f, n)
  {
    ListedNames();
    var listed := LoadListed(f, n);
    var withQ := AddQuickQ(f, n, listed);
    data := AddQuickStamps(f, n, withQ);
  }

  /** Only the listed variables that the file has are loaded. */
  lemma QuickLoadsPresent(f: NcFile, k: string)
    requires k in VarsToLoad
    ensures k in QuickKeys(f) <==> k in f.vars
    ensures k in QuickKeys(f) ==> k in LoadedKeys(f)
  {
    ListedNames();
    if k in f.vars {
      assert k in LoadedKeys(f);
    }
  }

  /** A loaded channel is the first min(n, rows) rows of its source, with
      Missing exactly where the source is masked and every stored value
      kept. */
  lemma QuickChannel(f: NcFile, n: nat, k: string)
    requires WellFormedVars(f) && k in LoadedKeys(f)
    ensures var c := LoadPrefix(f.vars[k], n);
      var len := RawLength(f.vars[k].data);
      && |c| == (if n < len then n else len)
      && forall i :: 0 <= i < |c| ==>
        && (Column0(f.vars[k].data, i).Masked? ==> c[i] == Missing)
        && (Column0(f.vars[k].data, i).Stored? ==> c[i] == Column0(f.vars[k].data, i).v)
  {
  }

  /** `q` is VMR_VXL as loaded, converted to g/kg elementwise. */
  lemma QuickQ(f: NcFile, n: int)
    requires WellFormedVars(f) && "VMR_VXL" in f.vars
    ensures "q" in QuickKeys(f) && "VMR_VXL" in LoadedKeys(f)
    ensures var q := QuickQColumn(f, n);
      var vmr := LoadPrefix(f.vars["VMR_VXL"], n);
      && q.Values? && q.ch.Ch1? && |q.ch.vals| == |vmr|
      && forall i :: 0 <= i < |vmr| ==> q.ch.vals[i] == QGramsPerKg(vmr[i])
  {
    ListedNames();
    assert "VMR_VXL" in LoadedKeys(f);
  }

  /** The timestamps use the fixed base 2024-02-29, with no units parsing,
      and are one to one with Time: subtracting the base gives Time back. */
  lemma QuickTimestamps(f: NcFile, n: int)
    requires WellFormedVars(f) && "Time" in f.vars
    ensures "Timestamp" in QuickKeys(f) && "Time" in LoadedKeys(f)
    ensures var ts := QuickStampColumn(f, n);
      var time := LoadPrefix(f.vars["Time"], n);
      && ValidDate(DefaultDate)
      && ts.Timestamps? && |ts.stamps| == |time|
      && forall i :: 0 <= i < |time| ==> Elapsed(DefaultDate, ts.stamps[i]) == time[i]
  {
    ListedNames();
    DefaultDateValid();
    assert "Time" in LoadedKeys(f);
  }
}
