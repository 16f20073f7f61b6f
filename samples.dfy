/** Samples and channels as the scripts see them after reading the measurement
    file, and the elementwise steps every script shares: filling masked entries,
    reducing a two-dimensional channel to its first column, and applying one
    boolean mask to several parallel channels. */
module Samples {

  datatype Option<+T> = None | Some(value: T)

  /** A cleaned sample: a number, or the explicit missing marker (NaN). */
  datatype Val = Missing | Num(r: real)

  /** A sample as read from the file: hidden by the variable's missing-value
      marker, or stored. A NaN that is stored in the file is `Stored(Missing)`. */
  datatype Cell = Masked | Stored(v: Val)

  /** The data of a variable: one cell per time step, or a row of `width`
      cells per time step. */
  datatype Raw = Raw1(cells: seq<Cell>) | Raw2(width: nat, rows: seq<seq<Cell>>)

  /** A variable of the file. `isMasked` says whether reading it yields a
      masked array (one that has `filled` and `compressed`) or a plain one. */
  datatype RawVar = RawVar(isMasked: bool, data: Raw, units: Option<string>, longName: Option<string>)

  /** A measurement file: its dimensions, its variable names in file order,
      and its variables. */
  datatype NcFile = NcFile(dims: map<string, nat>, names: seq<string>, vars: map<string, RawVar>)

  /** Each variable is listed once, two-dimensional data is rectangular,
      and only a variable read as a masked array has masked cells. */
  predicate ValidFile(f: NcFile) {
    && (forall i, j :: 0 <= i < j < |f.names| ==> f.names[i] != f.names[j])
    && f.vars.Keys == set k | k in f.names
    && (forall k :: k in f.vars ==> WellFormedRaw(f.vars[k].data))
    && (forall k :: k in f.vars ==> PlainUnmasked(f.vars[k]))
  }

  /** A plain (non-masked) array has no masked cells. */
  predicate PlainUnmasked(v: RawVar) {
    !v.isMasked ==> match v.data
      case Raw1(cells) => forall i :: 0 <= i < |cells| ==> cells[i].Stored?
      case Raw2(_, rows) => forall i, j :: 0 <= i < |rows| && 0 <= j < |rows[i]| ==> rows[i][j].Stored?
  }

  /** Every variable's two-dimensional data is rectangular. */
  predicate WellFormedVars(f: NcFile) {
    forall k :: k in f.vars ==> WellFormedRaw(f.vars[k].data)
  }

  /** A variable after cleaning: one value per time step, or a row per time step. */
  datatype Channel = Ch1(vals: seq<Val>) | Ch2(width: nat, rows: seq<seq<Val>>)

  /** Two-dimensional data is rectangular with at least one column. */
  predicate WellFormedRaw(d: Raw) {
    d.Raw2? ==> d.width > 0 && forall i :: 0 <= i < |d.rows| ==> |d.rows[i]| == d.width
  }

  predicate WellFormedChannel(ch: Channel) {
    ch.Ch2? ==> ch.width > 0 && forall i :: 0 <= i < |ch.rows| ==> |ch.rows[i]| == ch.width
  }

  /** Number of time steps of a variable. */
  function RawLength(d: Raw): nat {
    match d
    case Raw1(cells) => |cells|
    case Raw2(_, rows) => |rows|
  }

  function ChannelLength(ch: Channel): nat {
    match ch
    case Ch1(vals) => |vals|
    case Ch2(_, rows) => |rows|
  }

  // ---------------------------------------------------------------------
  // Missing-value normalisation: `filled(np.nan)`, or a cast to float for
  // a plain array, which keeps every stored value.
  // ---------------------------------------------------------------------

  function FillCell(c: Cell): Val {
    match c
    case Masked => Missing
    case Stored(v) => v
  }

  /** A masked cell becomes Missing; every stored value is kept unchanged. */
  function FillCells(cs: seq<Cell>): (vs: seq<Val>)
    ensures |vs| == |cs|
    ensures forall i :: 0 <= i < |cs| ==> (cs[i].Masked? ==> vs[i] == Missing)
    ensures forall i :: 0 <= i < |cs| ==> (cs[i].Stored? ==> vs[i] == cs[i].v)
  {
    seq(|cs|, i requires 0 <= i < |cs| => FillCell(cs[i]))
  }

  /** Cleaning keeps the shape and fills every row. */
  function Fill(v: RawVar): (ch: Channel)
    ensures ChannelLength(ch) == RawLength(v.data)
    ensures v.data.Raw1? <==> ch.Ch1?
    ensures v.data.Raw1? ==> ch.vals == FillCells(v.data.cells)
    ensures v.data.Raw2? ==>
      && ch.width == v.data.width
      && forall i :: 0 <= i < |ch.rows| ==> ch.rows[i] == FillCells(v.data.rows[i])
    ensures WellFormedRaw(v.data) ==> WellFormedChannel(ch)
  {
    match v.data
    case Raw1(cells) => Ch1(FillCells(cells))
    case Raw2(w, rows) => Ch2(w, seq(|rows|, i requires 0 <= i < |rows| => FillCells(rows[i])))
  }

  // ---------------------------------------------------------------------
  // Column reduction: `x[:, 0]` when `x.ndim == 2`, else `x` itself.
  // ---------------------------------------------------------------------

  /** Column 0 of a two-dimensional channel, with the same number of rows;
      a one-dimensional channel is returned as it is. */
  function Reduce(ch: Channel): (r: Channel)
    requires WellFormedChannel(ch)
    ensures r.Ch1? && |r.vals| == ChannelLength(ch)
    ensures ch.Ch1? ==> r == ch
    ensures ch.Ch2? ==> forall i :: 0 <= i < |ch.rows| ==> r.vals[i] == ch.rows[i][0]
  {
    match ch
    case Ch1(_) => ch
    case Ch2(_, rows) => Ch1(seq(|rows|, i requires 0 <= i < |rows| => rows[i][0]))
  }

  /** Reducing twice is reducing once. */
  lemma ReduceIdempotent(ch: Channel)
    requires WellFormedChannel(ch)
    ensures Reduce(Reduce(ch)) == Reduce(ch)
  {
  }

  /** Apply an elementwise formula to every value of a channel, whatever its shape. */
  function MapChannel(f: Val -> Val, ch: Channel): (r: Channel)
    ensures ChannelLength(r) == ChannelLength(ch)
    ensures ch.Ch1? <==> r.Ch1?
    ensures ch.Ch1? ==> forall i :: 0 <= i < |ch.vals| ==> r.vals[i] == f(ch.vals[i])
    ensures ch.Ch2? ==> r.width == ch.width && forall i :: 0 <= i < |ch.rows| ==>
      |r.rows[i]| == |ch.rows[i]| && forall j :: 0 <= j < |ch.rows[i]| ==> r.rows[i][j] == f(ch.rows[i][j])
    ensures WellFormedChannel(ch) ==> WellFormedChannel(r)
  {
    match ch
    case Ch1(vals) => Ch1(MapVals(f, vals))
    case Ch2(w, rows) => Ch2(w, seq(|rows|, i requires 0 <= i < |rows| => MapVals(f, rows[i])))
  }

  function MapVals(f: Val -> Val, s: seq<Val>): (r: seq<Val>)
    ensures |r| == |s|
    ensures forall i :: 0 <= i < |s| ==> r[i] == f(s[i])
  {
    seq(|s|, i requires 0 <= i < |s| => f(s[i]))
  }

  // ---------------------------------------------------------------------
  // Boolean-mask selection `x[mask]`.
  // ---------------------------------------------------------------------

  /** Number of true entries of a mask (`np.sum(mask)`). */
  function CountTrue(m: seq<bool>): (n: nat)
    ensures n <= |m|
  {
    if m == [] then 0 else CountTrue(m[..|m| - 1]) + (if m[|m| - 1] then 1 else 0)
  }

  /** The entries of `xs` at which `m` is true, in their original order. */
  function Select<T>(xs: seq<T>, m: seq<bool>): (r: seq<T>)
    requires |xs| == |m|
    ensures |r| == CountTrue(m)
  {
    if xs == [] then []
    else Select(xs[..|xs| - 1], m[..|m| - 1]) + (if m[|m| - 1] then [xs[|xs| - 1]] else [])
  }

  predicate StrictlyIncreasing(p: seq<nat>) {
    forall a, b :: 0 <= a < b < |p| ==> p[a] < p[b]
  }

  /** The indices at which a mask is true, in increasing order: every such
      index appears, and nothing else does. */
  function Positions(m: seq<bool>): (p: seq<nat>)
    ensures |p| == CountTrue(m)
    ensures forall k :: 0 <= k < |p| ==> p[k] < |m| && m[p[k]]
    ensures StrictlyIncreasing(p)
    ensures forall i :: 0 <= i < |m| && m[i] ==> i in p
  {
    if m == [] then []
    else
      var init := Positions(m[..|m| - 1]);
      init + (if m[|m| - 1] then [|m| - 1] else [])
  }

  /** `xs[p]` for an index array `p`. */
  function Gather<T>(xs: seq<T>, p: seq<nat>): (r: seq<T>)
    requires forall k :: 0 <= k < |p| ==> p[k] < |xs|
    ensures |r| == |p|
    ensures forall k :: 0 <= k < |p| ==> r[k] == xs[p[k]]
  {
    seq(|p|, k requires 0 <= k < |p| => xs[p[k]])
  }

  /** Masking keeps exactly the rows the mask selects, in order: entry `k` of
      the selection is row `Positions(m)[k]` of the source. Since every
      channel masked with `m` is described by the same positions, masked
      channels stay index-aligned with each other. */
  lemma {:induction false} SelectAt<T>(xs: seq<T>, m: seq<bool>)
    requires |xs| == |m|
    ensures Select(xs, m) == Gather(xs, Positions(m))
  {
    if xs != [] {
      var n := |xs| - 1;
      SelectAt(xs[..n], m[..n]);
      assert xs[..n] == xs[..|xs| - 1];
      var p0 := Positions(m[..n]);
      forall k | 0 <= k < |p0| ensures xs[..n][p0[k]] == xs[p0[k]] { }
    }
  }

  /** Values of two channels masked together come from the same source rows. */
  lemma SelectAligned<T, U>(xs: seq<T>, ys: seq<U>, m: seq<bool>, k: nat)
    requires |xs| == |m| && |ys| == |m| && k < CountTrue(m)
    ensures Select(xs, m)[k] == xs[Positions(m)[k]]
    ensures Select(ys, m)[k] == ys[Positions(m)[k]]
  {
    SelectAt(xs, m);
    SelectAt(ys, m);
  }
}
