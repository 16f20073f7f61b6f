/** vertical_profiles.py: potential temperature, mixing ratio (g/kg) and
    isotope ratio over the spiral, with the rows reordered by altitude. */
module VerticalProfiles {
  import opened Samples
  import opened Segments
  import opened Humidity

  // ---------------------------------------------------------------------
  // `np.argsort` on altitudes: an index permutation that orders the keys,
  // NaN (Missing) last. Modelled by insertion of indices; no stability is
  // promised by the source, and none is stated here.
  // ---------------------------------------------------------------------

  /** The order `np.argsort` sorts by: numbers by value, NaN after every
      number. */
  predicate AltLe(a: Val, b: Val) {
    b.Missing? || (a.Num? && a.r <= b.r)
  }

  lemma AltLeTotalPreorder(a: Val, b: Val, c: Val)
    ensures AltLe(a, a)
    ensures AltLe(a, b) || AltLe(b, a)
    ensures AltLe(a, b) && AltLe(b, c) ==> AltLe(a, c)
  {
  }

  /** The keys read through an index sequence are in order. */
  predicate SortedBy(keys: seq<Val>, idx: seq<nat>)
    requires forall k :: 0 <= k < |idx| ==> idx[k] < |keys|
  {
    forall a, b :: 0 <= a < b < |idx| ==> AltLe(keys[idx[a]], keys[idx[b]])
  }

  /** `[0, 1, ..., n - 1]`, the identity permutation. */
  function Range(n: nat): (r: seq<nat>)
    ensures |r| == n
    ensures forall k :: 0 <= k < n ==> r[k] == k
  {
    seq(n, k requires 0 <= k < n => k)
  }

  /** Insert index `i` into `idx` in front of the first index whose key is
      not smaller than `keys[i]`. */
  function InsertIdx(keys: seq<Val>, idx: seq<nat>, i: nat): (r: seq<nat>)
    requires i < |keys|
    requires forall k :: 0 <= k < |idx| ==> idx[k] < |keys|
    ensures |r| == |idx| + 1
    ensures forall k :: 0 <= k < |r| ==> r[k] < |keys|
  {
    if idx == [] then [i]
    else if AltLe(keys[i], keys[idx[0]]) then [i] + idx
    else [idx[0]] + InsertIdx(keys, idx[1..], i)
  }

  lemma {:induction false} InsertPermutes(keys: seq<Val>, idx: seq<nat>, i: nat)
    requires i < |keys|
    requires forall k :: 0 <= k < |idx| ==> idx[k] < |keys|
    ensures multiset(InsertIdx(keys, idx, i)) == multiset(idx) + multiset{i}
  {
    if idx != [] && !AltLe(keys[i], keys[idx[0]]) {
      InsertPermutes(keys, idx[1..], i);
      assert idx == [idx[0]] + idx[1..];
    }
  }

  /** An index whose key is below the first key may go in front. */
  lemma SortedCons(keys: seq<Val>, i: nat, idx: seq<nat>)
    requires i < |keys|
    requires forall k :: 0 <= k < |idx| ==> idx[k] < |keys|
    requires SortedBy(keys, idx)
    requires idx != [] ==> AltLe(keys[i], keys[idx[0]])
    ensures SortedBy(keys, [i] + idx)
  {
    var r := [i] + idx;
    forall a, b | 0 <= a < b < |r| ensures AltLe(keys[r[a]], keys[r[b]]) {
      if a == 0 {
        AltLeTotalPreorder(keys[i], keys[idx[0]], keys[idx[b - 1]]);
      }
    }
  }

  lemma {:induction false} InsertSorted(keys: seq<Val>, idx: seq<nat>, i: nat)
    requires i < |keys|
    requires forall k :: 0 <= k < |idx| ==> idx[k] < |keys|
    requires SortedBy(keys, idx)
    ensures SortedBy(keys, InsertIdx(keys, idx, i))
  {
    if idx == [] {
    } else if AltLe(keys[i], keys[idx[0]]) {
      SortedCons(keys, i, idx);
    } else {
      var rest := idx[1..];
      InsertSorted(keys, rest, i);
      InsertPermutes(keys, rest, i);
      var tail := InsertIdx(keys, rest, i);
      assert InsertIdx(keys, idx, i) == [idx[0]] + tail;
      if tail != [] {
        var x := tail[0];
        assert x in multiset(tail);
        if x == i {
          AltLeTotalPreorder(keys[i], keys[idx[0]], keys[i]);
        } else {
          assert x in multiset(rest);
          var j :| 0 <= j < |rest| && rest[j] == x;
          assert idx[j + 1] == x;
        }
      }
      SortedCons(keys, idx[0], tail);
    }
  }

  /** Reading through `[j] + idx` reads `s[j]` first. */
  lemma GatherCons<T>(s: seq<T>, j: nat, idx: seq<nat>)
    requires j < |s|
    requires forall k :: 0 <= k < |idx| ==> idx[k] < |s|
    ensures multiset(Gather(s, [j] + idx)) == multiset{s[j]} + multiset(Gather(s, idx))
  {
    assert Gather(s, [j] + idx) == [s[j]] + Gather(s, idx);
  }

  /** Reading any sequence through the inserted indices adds exactly the
      entry at `i` to what the old indices read. */
  lemma {:induction false} InsertGathers<T>(keys: seq<Val>, s: seq<T>, idx: seq<nat>, i: nat)
    requires |s| == |keys| && i < |keys|
    requires forall k :: 0 <= k < |idx| ==> idx[k] < |keys|
    ensures multiset(Gather(s, InsertIdx(keys, idx, i))) == multiset(Gather(s, idx)) + multiset{s[i]}
  {
    if idx == [] {
      assert Gather(s, [i]) == [s[i]];
    } else if AltLe(keys[i], keys[idx[0]]) {
      GatherCons(s, i, idx);
    } else {
      var rest := idx[1..];
      var t := InsertIdx(keys, rest, i);
      assert InsertIdx(keys, idx, i) == [idx[0]] + t;
      InsertGathers(keys, s, rest, i);
      GatherCons(s, idx[0], t);
      assert idx == [idx[0]] + rest;
      GatherCons(s, idx[0], rest);
    }
  }

  /** Sorted indices of the first `n` keys. */
  function ArgSortPrefix(keys: seq<Val>, n: nat): (r: seq<nat>)
    requires n <= |keys|
    ensures |r| == n
    ensures forall k :: 0 <= k < |r| ==> r[k] < n
  {
    if n == 0 then []
    else
      var last: nat := n - 1;
      var prev := ArgSortPrefix(keys, last);
      InsertPermutes(keys, prev, last);
      var r := InsertIdx(keys, prev, last);
      assert forall k :: 0 <= k < |r| ==> r[k] in multiset(prev) + multiset{last};
      r
  }

  lemma {:induction false} ArgSortPrefixPermutes(keys: seq<Val>, n: nat)
    requires n <= |keys|
    ensures multiset(ArgSortPrefix(keys, n)) == multiset(Range(n))
  {
    if n > 0 {
      var last: nat := n - 1;
      var prev := ArgSortPrefix(keys, last);
      assert ArgSortPrefix(keys, n) == InsertIdx(keys, prev, last);
      ArgSortPrefixPermutes(keys, last);
      InsertPermutes(keys, prev, last);
      assert Range(n) == Range(last) + [last];
    }
  }

  lemma {:induction false} ArgSortPrefixSorted(keys: seq<Val>, n: nat)
    requires n <= |keys|
    ensures SortedBy(keys, ArgSortPrefix(keys, n))
  {
    if n > 0 {
      var last: nat := n - 1;
      var prev := ArgSortPrefix(keys, last);
      assert ArgSortPrefix(keys, n) == InsertIdx(keys, prev, last);
      ArgSortPrefixSorted(keys, last);
      InsertSorted(keys, prev, last);
    }
  }

  lemma {:induction false} ArgSortPrefixGathers<T>(keys: seq<Val>, s: seq<T>, n: nat)
    requires |s| == |keys| && n <= |keys|
    ensures multiset(Gather(s, ArgSortPrefix(keys, n))) == multiset(s[..n])
  {
    if n > 0 {
      var last: nat := n - 1;
      var prev := ArgSortPrefix(keys, last);
      assert ArgSortPrefix(keys, n) == InsertIdx(keys, prev, last);
      ArgSortPrefixGathers(keys, s, last);
      InsertGathers(keys, s, prev, last);
      assert s[..n] == s[..last] + [s[last]];
    }
  }

  /** `np.argsort(keys)`: a permutation of the positions of `keys` that
      lists the keys in order, NaN last. */
  function ArgSort(keys: seq<Val>): (r: seq<nat>)
    ensures |r| == |keys|
    ensures forall k :: 0 <= k < |r| ==> r[k] < |keys|
    ensures multiset(r) == multiset(Range(|keys|))
    ensures SortedBy(keys, r)
  {
    ArgSortPrefixPermutes(keys, |keys|);
    ArgSortPrefixSorted(keys, |keys|);
    ArgSortPrefix(keys, |keys|)
  }

  /** Reordering any parallel sequence by `ArgSort(keys)` keeps its multiset. */
  lemma ArgSortPermutes<T>(keys: seq<Val>, s: seq<T>)
    requires |s| == |keys|
    ensures multiset(Gather(s, ArgSort(keys))) == multiset(s)
  {
    ArgSortPrefixGathers(keys, s, |keys|);
    assert s[..|keys|] == s;
  }

  /** Scenario: NaN goes last, the numbers by value. */
  lemma ArgSortScenario()
    ensures ArgSort([Num(3.0), Missing, Num(1.0)]) == [2, 0, 1]
  {
    var keys := [Num(3.0), Missing, Num(1.0)];
    assert ArgSortPrefix(keys, 1) == [0];
    assert ArgSortPrefix(keys, 2) == [0, 1];
  }

  // ---------------------------------------------------------------------
  // The profile rows.
  // ---------------------------------------------------------------------

  /** One sample of the profile: altitude, potential temperature, mixing
      ratio and isotope ratio. */
  datatype Row = Row(alt: Val, theta: Val, q: Val, dD: Val)

  function Rows(alt: seq<Val>, th: seq<Val>, qq: seq<Val>, dd: seq<Val>): (r: seq<Row>)
    requires |th| == |alt| && |qq| == |alt| && |dd| == |alt|
    ensures |r| == |alt|
    ensures forall i :: 0 <= i < |alt| ==> r[i] == Row(alt[i], th[i], qq[i], dd[i])
  {
    seq(|alt|, i requires 0 <= i < |alt| => Row(alt[i], th[i], qq[i], dd[i]))
  }

  /** The shapes the script relies on: one-dimensional altitude, temperature,
      mixing ratio and time, a rectangular isotope channel, and one length
      for all of them (otherwise the boolean indexing raises). */
  predicate Inputs(time: RawVar, palt: RawVar, theta: RawVar, vmr: RawVar, dDRaw: RawVar) {
    && time.data.Raw1? && palt.data.Raw1? && theta.data.Raw1? && vmr.data.Raw1?
    && WellFormedRaw(dDRaw.data)
    && |palt.data.cells| == |time.data.cells|
    && |theta.data.cells| == |time.data.cells|
    && |vmr.data.cells| == |time.data.cells|
    && RawLength(dDRaw.data) == |time.data.cells|
  }

  /** Row `i` of the file after filling, q derivation and column reduction. */
  function SourceRows(time: RawVar, palt: RawVar, theta: RawVar, vmr: RawVar, dDRaw: RawVar): (rows: seq<Row>)
    requires Inputs(time, palt, theta, vmr, dDRaw)
    ensures |rows| == |time.data.cells|
    ensures forall i :: 0 <= i < |rows| ==>
      && rows[i].alt == FillCell(palt.data.cells[i])
      && rows[i].theta == FillCell(theta.data.cells[i])
      && rows[i].q == QGramsPerKg(FillCell(vmr.data.cells[i]))
      && rows[i].dD == Reduce(Fill(dDRaw)).vals[i]
  {
    Rows(Fill(palt).vals, Fill(theta).vals, QGramsPerKgSeq(Fill(vmr).vals), Reduce(Fill(dDRaw)).vals)
  }

  /** The spiral mask over the filled time: true exactly at the numeric
      times within [40414, 49099]. */
  function ProfileMask(time: RawVar): (m: seq<bool>)
    requires time.data.Raw1?
    ensures |m| == |time.data.cells|
    ensures forall i :: 0 <= i < |m| ==>
      (m[i] <==> InRange(FillCell(time.data.cells[i]), SpiralStart, SpiralEnd))
  {
    SpiralMask(Fill(time).vals)
  }

  /** The rows inside the spiral, in time order. */
  function SpiralRows(time: RawVar, palt: RawVar, theta: RawVar, vmr: RawVar, dDRaw: RawVar): (rows: seq<Row>)
    requires Inputs(time, palt, theta, vmr, dDRaw)
    ensures |rows| == CountTrue(ProfileMask(time))
    ensures forall k :: 0 <= k < |rows| ==>
      rows[k] == SourceRows(time, palt, theta, vmr, dDRaw)[Positions(ProfileMask(time))[k]]
  {
    var src := SourceRows(time, palt, theta, vmr, dDRaw);
    SelectAt(src, ProfileMask(time));
    Select(src, ProfileMask(time))
  }

  /** The permutation the script applies: `np.argsort(alt)` of the spiral altitudes. */
  function ProfileOrder(time: RawVar, palt: RawVar, theta: RawVar, vmr: RawVar, dDRaw: RawVar): (o: seq<nat>)
    requires Inputs(time, palt, theta, vmr, dDRaw)
    ensures |o| == CountTrue(ProfileMask(time))
    ensures forall k :: 0 <= k < |o| ==> o[k] < |o|
    ensures multiset(o) == multiset(Range(|o|))
    ensures SortedBy(Select(Fill(palt).vals, ProfileMask(time)), o)
  {
    ArgSort(Select(Fill(palt).vals, ProfileMask(time)))
  }

  /** Masking the four filled arrays with the spiral mask gives the spiral rows. */
  lemma SpiralSelection(time: RawVar, palt: RawVar, theta: RawVar, vmr: RawVar, dDRaw: RawVar)
    requires Inputs(time, palt, theta, vmr, dDRaw)
    ensures var m := ProfileMask(time);
      Rows(Select(Fill(palt).vals, m), Select(Fill(theta).vals, m),
           Select(QGramsPerKgSeq(Fill(vmr).vals), m), Select(Reduce(Fill(dDRaw)).vals, m))
      == SpiralRows(time, palt, theta, vmr, dDRaw)
  {
    var m := ProfileMask(time);
    SelectAt(Fill(palt).vals, m);
    SelectAt(Fill(theta).vals, m);
    SelectAt(QGramsPerKgSeq(Fill(vmr).vals), m);
    SelectAt(Reduce(Fill(dDRaw)).vals, m);
  }

  /** Reordering four parallel arrays by the argsort of the first reorders
      their rows by it, keeps the multiset of rows, and sorts the first. */
  lemma Reorder(alt: seq<Val>, th: seq<Val>, qq: seq<Val>, dd: seq<Val>)
    requires |th| == |alt| && |qq| == |alt| && |dd| == |alt|
    ensures var o := ArgSort(alt);
      var rows := Rows(Gather(alt, o), Gather(th, o), Gather(qq, o), Gather(dd, o));
      && rows == Gather(Rows(alt, th, qq, dd), o)
      && multiset(rows) == multiset(Rows(alt, th, qq, dd))
  {
    var o := ArgSort(alt);
    var rows0 := Rows(alt, th, qq, dd);
    assert Rows(Gather(alt, o), Gather(th, o), Gather(qq, o), Gather(dd, o)) == Gather(rows0, o);
    ArgSortPermutes(alt, rows0);
  }

  /** Spiral altitudes as the script holds them before sorting. */
  lemma SpiralAltitudes(time: RawVar, palt: RawVar, theta: RawVar, vmr: RawVar, dDRaw: RawVar)
    requires Inputs(time, palt, theta, vmr, dDRaw)
    ensures var rows := SpiralRows(time, palt, theta, vmr, dDRaw);
      Select(Fill(palt).vals, ProfileMask(time)) == seq(|rows|, k requires 0 <= k < |rows| => rows[k].alt)
  {
    SpiralSelection(time, palt, theta, vmr, dDRaw);
  }

  /** `arr.filled(np.nan)` for each of the listed arrays in turn. */
  method FillEach(raws: seq<RawVar>) returns (filled: seq<Channel>)
    ensures |filled| == |raws|
    ensures forall j :: 0 <= j < |raws| ==> filled[j] == Fill(raws[j])
  {
    filled := [];
    var i := 0;
    while i < |raws|
      invariant 0 <= i <= |raws|
      invariant |filled| == i
      invariant forall j :: 0 <= j < i ==> filled[j] == Fill(raws[j])
    {
      filled := filled + [Fill(raws[i])];
      i := i + 1;
    }
  }

  /** `sort_idx = np.argsort(alt)` and the four reassignments through it:
      one permutation for all four arrays, the multiset of rows kept, and
      the altitudes ascending with NaN last. */
  method ReorderByAltitude(alt0: seq<Val>, th0: seq<Val>, qq0: seq<Val>, dd0: seq<Val>)
    returns (alt: seq<Val>, th: seq<Val>, qq: seq<Val>, dd: seq<Val>)
    requires |th0| == |alt0| && |qq0| == |alt0| && |dd0| == |alt0|
    ensures |alt| == |alt0| && |th| == |alt0| && |qq| == |alt0| && |dd| == |alt0|
    ensures Rows(alt, th, qq, dd) == Gather(Rows(alt0, th0, qq0, dd0), ArgSort(alt0))
    ensures multiset(Rows(alt, th, qq, dd)) == multiset(Rows(alt0, th0, qq0, dd0))
    ensures forall a, b :: 0 <= a < b < |alt| && alt[a].Num? && alt[b].Num? ==> alt[a].r <= alt[b].r
    ensures forall a, b :: 0 <= a < b < |alt| && alt[a].Missing? ==> alt[b].Missing?
  {
    Reorder(alt0, th0, qq0, dd0);
    var sortIdx := ArgSort(alt0);
    alt := Gather(alt0, sortIdx);
    th := Gather(th0, sortIdx);
    qq := Gather(qq0, sortIdx);
    dd := Gather(dd0, sortIdx);
    assert forall a, b :: 0 <= a < b < |alt| ==> AltLe(alt[a], alt[b]);
  }

  /** The four arrays of the script, filled, masked to the spiral and
      reordered by altitude. Row `k` of the four outputs is one spiral row of
      the file (the same one for all four), the multiset of rows is that of
      the spiral, and the altitudes ascend with NaN last. */
  method ProfileArrays(time: RawVar, palt: RawVar, theta: RawVar, vmr: RawVar, dDRaw: RawVar)
    returns (alt: seq<Val>, th: seq<Val>, qq: seq<Val>, dd: seq<Val>)
    requires Inputs(time, palt, theta, vmr, dDRaw)
    ensures |alt| == CountTrue(ProfileMask(time))
    ensures |th| == |alt| && |qq| == |alt| && |dd| == |alt|
    ensures Rows(alt, th, qq, dd) == Gather(SpiralRows(time, palt, theta, vmr, dDRaw), ProfileOrder(time, palt, theta, vmr, dDRaw))
    ensures multiset(Rows(alt, th, qq, dd)) == multiset(SpiralRows(time, palt, theta, vmr, dDRaw))
    ensures forall a, b :: 0 <= a < b < |alt| && alt[a].Num? && alt[b].Num? ==> alt[a].r <= alt[b].r
    ensures forall a, b :: 0 <= a < b < |alt| && alt[a].Missing? ==> alt[b].Missing?
  {
    var filled := FillEach([palt, theta, vmr, dDRaw]);
    var dD := Reduce(filled[3]).vals;
    var timeSec := Fill(time).vals;
    var q := QGramsPerKgSeq(filled[2].vals);
    var mask := SpiralMask(timeSec);

    var alt0 := Select(filled[0].vals, mask);
    var th0 := Select(filled[1].vals, mask);
    var qq0 := Select(q, mask);
    var dd0 := Select(dD, mask);
    SpiralSelection(time, palt, theta, vmr, dDRaw);
    SpiralAltitudes(time, palt, theta, vmr, dDRaw);
    alt, th, qq, dd := ReorderByAltitude(alt0, th0, qq0, dd0);
  }
}
