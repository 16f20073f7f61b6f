# CAESAR-Data pipeline, modelled in Dafny

The CAESAR-Data scripts read one aircraft measurement file (research flight
RF02, 29 February 2024) and pass its channels through one small pipeline before
plotting or summarising them. The scripts are `preprocess.py`, `quick_test.py`,
`inspect_nc.py`, `vertical_profiles.py`, `flight_track.py`,
`time_series_leg.py` and `scatter_dD_vs_q.py`. This project models that
pipeline and proves what each script's arrays contain.

- **Missing-value normalisation.** A masked entry becomes NaN, and every stored
  value is kept. Here NaN is `Missing`, a number is `Num(r)` over exact reals,
  and a cell of the file is `Masked` or `Stored(v)`.
- **Column reduction.** A two-dimensional per-second channel becomes its
  column 0.
- **Segment masks.** The vertical spiral `[40414, 49099]` s and the
  near-surface leg `[52000, 54000]` s are closed intervals over the `Time`
  channel, and a NaN time is never inside either.
- **Aligned selection.** One boolean mask is applied to several parallel
  channels. `vertical_profiles.py` then reorders the selected rows by altitude
  with `np.argsort`.
- **Mixing ratio.** `q = VMR_VXL * 18/29 / 1000` (g/kg) in `preprocess.py`,
  `quick_test.py` and `vertical_profiles.py`. `time_series_leg.py` and
  `scatter_dD_vs_q.py` omit the `/1000`, and both variants are kept.
- **Reference date.** `preprocess.py` reads `"... since YYYY-MM-DD ..."` from
  the units of `Time`, using the `"%Y-%m-%d"` format of `strptime`. On any
  failure it falls back to 2024-02-29. `quick_test.py`, `flight_track.py` and
  `time_series_leg.py` always use 2024-02-29. `vertical_profiles.py`,
  `scatter_dD_vs_q.py` and `inspect_nc.py` build no timestamps.
- **Summary.** `inspect_nc.py` writes a record per variable of interest (NOT
  FOUND, min/max, or all_nan), the time range, the number of points in each
  segment and the altitude range in each segment.

Modules:

- `Samples` (samples.dfy) holds cells, channels, `Fill`, `Reduce`, and mask
  selection as `Select`, `Positions` and `Gather`.
- `Segments` holds the masks, `Humidity` the two q variants, and `TimeBase` the
  proleptic Gregorian calendar, timestamps and the units-string parser.
- Each script has a module of its own: `Preprocess`, `QuickTest`, `InspectNc`,
  `VerticalProfiles`, `FlightTrack`, `TimeSeriesLeg` and `ScatterDdVsQ`.
- The dictionary-building loops of `preprocess.py`, `quick_test.py` and
  `inspect_nc.py`, the fill loop of `vertical_profiles.py` and its reassignment
  through the argsort permutation are methods. Each is proved against the
  functions that specify it.
- The purely elementwise scripts are functions.

A file is modelled as `NcFile(dims, names, vars)`. `names` is the variable
order of the file and `vars` maps each name to a `RawVar`. A `RawVar` holds its
data, whether reading it yields a masked array, and its `units` and
`long_name` attributes when present.

Where a script would raise, the model takes a precondition instead. This covers
a `KeyError` for a variable the script reads unconditionally, a length mismatch
in numpy indexing, `timedelta(seconds=nan)`, and `np.min` of an empty array.
Failures the script handles itself are modelled as ordinary results: the
`strptime` fallback, absent variables in `quick_test.py` and `inspect_nc.py`,
and `all_nan`.

### Absent and all-missing data

- **Absent variables.** Only `inspect_nc.py` records `"NOT FOUND"` for an
  absent variable. `preprocess.py` loads exactly the variables the file has,
  and `quick_test.py` skips absent listed names silently.
- **All-missing data.** `all_nan` belongs only to the per-variable record of
  `inspect_nc.py`, computed over the whole cleaned variable
  (`inspect_nc.py:28-32`). The segment altitude ranges (`inspect_nc.py:54-55`)
  use `np.nanmin`/`np.nanmax`, which give NaN for an all-NaN selection.
  `InspectNc.AltitudeRange` models that: its minimum is `Missing` exactly when
  every selected altitude is.

## Model

| member | source | states |
|---|---|---|
| Samples.FillCells | preprocess.py:24-25 | One value per cell: a masked cell becomes Missing and a stored value is kept unchanged. |
| Samples.Fill | preprocess.py:23-26 | Filling keeps the shape, width and length of a variable and fills every row. Rectangular data stays rectangular. |
| Samples.Reduce | preprocess.py:31-33 | The result is one-dimensional with the same number of rows. A 2-D channel yields column 0 row by row, and a 1-D channel is returned unchanged. |
| Samples.ReduceIdempotent | time_series_leg.py:21 | Reducing an already reduced channel changes nothing. |
| Samples.MapChannel | preprocess.py:38 | An elementwise formula keeps the shape and length and applies to every entry. |
| Samples.CountTrue | inspect_nc.py:45-46 | The number of selected samples never exceeds the number of samples. |
| Samples.Positions | vertical_profiles.py:38-41 | The selected indices are strictly increasing and in range. Each is one where the mask holds, every index where it holds appears, and their number is the mask count. |
| Samples.Gather | vertical_profiles.py:43-46 | Entry k of `xs[p]` is `xs[p[k]]`, and the result is as long as `p`. |
| Samples.Select | vertical_profiles.py:38-41 | `x[mask]` has the mask count as its length. |
| Samples.SelectAt | vertical_profiles.py:38-41 | `x[mask]` is exactly the source rows at `Positions(mask)` in increasing order, so every channel masked with one mask stays index-aligned. |
| Samples.SelectAligned | time_series_leg.py:28-31 | Entry k of two channels masked together comes from the same source row. |
| Segments.Mask | inspect_nc.py:43-44 | The interval mask holds at i iff the time is numeric and lies within [lo, hi], both ends included. |
| Segments.SpiralMask | vertical_profiles.py:36 | The spiral mask holds iff 40414 <= t <= 49099, and never at a NaN time. |
| Segments.LegMask | time_series_leg.py:27 | The leg mask holds iff 52000 <= t <= 54000, and never at a NaN time. |
| Segments.SegmentsDisjoint | flight_track.py:27-31 | No sample is in both the spiral and the near-surface leg. |
| Segments.SegmentCountsBounded | inspect_nc.py:43-46 | The spiral count plus the leg count never exceeds the number of samples. |
| Segments.MaskScenario | flight_track.py:30-31 | On the time axis [0, 10, 20, 30] the interval [10, 20] selects exactly the two middle samples, both ends included. |
| Humidity.QGramsPerKg | preprocess.py:38 | q in g/kg satisfies `q * 29000 = vmr * 18`. NaN maps to NaN and only NaN maps to NaN. |
| Humidity.QRatio | time_series_leg.py:22 | The variant without /1000 satisfies `q * 29 = vmr * 18`, with NaN iff NaN. |
| Humidity.VariantsDifferByThousand | scatter_dD_vs_q.py:20 | The two variants differ by exactly a factor of 1000. |
| Humidity.QLinear | preprocess.py:38 | Both conversions map 0 to 0 and are linear. |
| Humidity.ThousandPpmv | quick_test.py:26 | 1000 ppmv is exactly 18/29 g/kg, which lies between 0.6206 and 0.6207. |
| Humidity.QGramsPerKgSeq | vertical_profiles.py:35 | Elementwise g/kg conversion of a channel, with the same length. |
| Humidity.QRatioSeq | scatter_dD_vs_q.py:20 | Elementwise conversion without /1000, with the same length. |
| TimeBase.DefaultDateValid | preprocess.py:49-51 | The fallback 2024-02-29 is a real date, since 2024 is a leap year. |
| TimeBase.MonthStep | preprocess.py:52 | Days before month m+1 are those before m plus the length of m, and twelve months make the year. |
| TimeBase.YearStep | preprocess.py:52 | The day count before year y+1 is the one before y plus the length of y, for the 4/100/400 leap rule. |
| TimeBase.YearsOrdered | preprocess.py:52 | Every earlier year ends no later than a later year begins. |
| TimeBase.OrdinalMonotone | preprocess.py:52 | A later calendar date has a larger day ordinal, so distinct valid dates give distinct base instants. |
| TimeBase.ToStamp | preprocess.py:52 | `base + seconds`: NaT exactly for a NaN offset, and subtracting the base gives the offset back. |
| TimeBase.Elapsed | preprocess.py:52 | `stamp - base`: NaN exactly for NaT, and a numeric difference puts the stamp that many seconds after the base. |
| TimeBase.Stamps | preprocess.py:52 | One stamp per time sample. Subtracting the base recovers each elapsed time exactly, NaT appears exactly where the time is NaN, and later times give later stamps. |
| TimeBase.FindFrom | preprocess.py:46 | The first occurrence at or after the start is returned, with none in between. None means no occurrence at all. |
| TimeBase.Contains | preprocess.py:44 | `"since" in units` holds iff the pattern occurs at some index. |
| TimeBase.Before | preprocess.py:46 | `split(sep)[0]` is the prefix that ends where the first `sep` begins, with no `sep` starting inside it, or the whole text when there is no `sep`. |
| TimeBase.SecondPiece | preprocess.py:46 | `split(sep)[1]` is None (IndexError, caught by the fallback) exactly when `sep` does not occur. Otherwise it is the text after the first `sep`, up to the next one. |
| TimeBase.ParseMonth | preprocess.py:47 | A parsed `%m` is a month 1..12, one or two digits long and followed by `-`. |
| TimeBase.ParseDay | preprocess.py:47 | A parsed `%d` is a day 1..31, one or two characters long and inside the text. |
| TimeBase.ParseYmd | preprocess.py:47 | A successful `strptime("%Y-%m-%d")` always yields an existing calendar date. |
| TimeBase.BaseDate | preprocess.py:43-51 | Resolution is total and always yields a valid date. Units without "since", or without "since ", give 2024-02-29. Any other date was parsed from the token after the first "since ". |
| TimeBase.FormatYmd | preprocess.py:47 | The printed date has ten characters, with no space and no letter s. |
| TimeBase.ParseFormatted | preprocess.py:47 | Parsing a printed YYYY-MM-DD gives the date back exactly when it exists, and fails otherwise. |
| TimeBase.ParseFormattedTrailing | preprocess.py:47 | Any text after the day makes the parse fail. |
| TimeBase.FindFirst | preprocess.py:46 | An occurrence with none before it is the one `split` finds. |
| TimeBase.BeforeSpace | preprocess.py:46 | The date token ends at the first space. |
| TimeBase.SecondsSince | preprocess.py:44-51 | For "seconds since <tail>" with no s in the tail, the date is the parse of the tail's first word, or the fallback. |
| TimeBase.UnitsResolution | preprocess.py:44-51 | "seconds since YYYY-MM-DD <rest>" resolves to that date when it exists and to 2024-02-29 otherwise. |
| TimeBase.UnitsTrailing | preprocess.py:45-49 | Text glued to the date token falls back to 2024-02-29, whatever the date. |
| TimeBase.DefaultUnitsExample | preprocess.py:43-47 | "seconds since 2024-02-29 00:00:00 UTC" resolves to 2024-02-29. |
| TimeBase.OtherDateExample | preprocess.py:43-47 | "seconds since 2023-03-01 00:00:00 UTC" resolves to 2023-03-01, not to the fallback. |
| TimeBase.GarbageFallsBack | preprocess.py:50-51 | "garbage" resolves to 2024-02-29. |
| TimeBase.InvalidDateFallsBack | preprocess.py:45-49 | "seconds since 2023-02-29 ..." falls back, because 2023 is not a leap year. |
| TimeBase.TrailingTextFallsBack | preprocess.py:45-49 | "seconds since 2023-03-01T00:00" falls back, because unconverted data remains. |
| TimeBase.SinceWithoutSpaceFallsBack | preprocess.py:45-49 | "seconds since2023-03-01" falls back, because `split("since ")[1]` raises. |
| Preprocess.Cleaned | preprocess.py:29-33 | A file variable keeps its length. A 2-D sub-1 Hz variable becomes the filled column 0 row by row, a 1-D one stays as filled, and every other variable is exactly as filled. |
| Preprocess.UnitsOf | preprocess.py:43 | `getattr(var, "units", "")`: the attribute when present, else the empty string. |
| Preprocess.QColumn | preprocess.py:36-38 | The `q` column has the shape and length of VMR_VXL, and entry by entry is the filled VMR_VXL converted to g/kg. |
| Preprocess.LoadAll | preprocess.py:17-26 | The loop yields exactly one entry per variable of the file, each variable filled. |
| Preprocess.ReduceSub1Hz | preprocess.py:29-33 | The same keys as before. GGLON, GGLAT and dD_WVISO1 are reduced when 2-D, and every other entry is untouched. |
| Preprocess.TimestampColumn | preprocess.py:41-52 | One stamp per Time sample, and subtracting the resolved base date gives the filled Time back. |
| Preprocess.AddQ | preprocess.py:36-38 | `q` is added exactly when VMR_VXL exists, as VMR_VXL converted to g/kg, and nothing else changes. |
| Preprocess.AddTimestamp | preprocess.py:41-52 | `Timestamp` is added exactly when Time exists, built from the loaded Time entry and the units of the file's Time variable. Nothing else changes. |
| Preprocess.LoadAndPreprocess | preprocess.py:17-52 | The result has the file's keys plus `q` and `Timestamp` when their sources exist. Every other entry is the cleaned variable, `q` is the converted VMR_VXL, and `Timestamp` is built from the resolved base date. |
| Preprocess.PreprocessedEntries | preprocess.py:19-52 | Every file variable is a key. `q` and `Timestamp` are present iff their source exists or the file has a variable of that name. `q[i]` is VMR_VXL[i] in g/kg, and the timestamps round-trip to Time. The sub-1 Hz variables are 1-D of the same length: column 0 when 2-D, as filled when 1-D. The others are as filled. |
| Preprocess.Sub1HzColumnZero | preprocess.py:33 | Row i of a reduced sub-1 Hz variable is cell 0 of row i, filled. |
| QuickTest.SliceEnd | quick_test.py:18 | `[:n]` keeps min(n, len) rows for n >= 0, and counts from the end for negative n. |
| QuickTest.Prefix | quick_test.py:18 | The prefix keeps the shape and width, its rows are the source's first rows, and rectangular data stays rectangular. |
| QuickTest.LoadPrefix | quick_test.py:18-22 | A loaded channel has the slice length, and row i is column 0 (or the cell itself) of source row i, filled. |
| QuickTest.LoadListed | quick_test.py:16-23 | Exactly the listed variables present in the file are loaded, as their filled and reduced prefixes. Absent ones are skipped. |
| QuickTest.QuickQColumn | quick_test.py:25-26 | The `q` column has the slice length, and entry i is the loaded VMR_VXL row i in g/kg. |
| QuickTest.QuickStampColumn | quick_test.py:28-30 | One stamp per loaded row, and subtracting 2024-02-29 gives the loaded time of that row. |
| QuickTest.AddQuickQ | quick_test.py:25-26 | `q` is added exactly when VMR_VXL was loaded, and the loaded entries are unchanged. |
| QuickTest.AddQuickStamps | quick_test.py:28-30 | `Timestamp` is added exactly when Time was loaded, and nothing else changes. |
| QuickTest.LoadFirstN | quick_test.py:13-30 | The keys are the loaded variables plus `q` and `Timestamp` for their sources. Each loaded entry is its prefix, `q` is the converted VMR_VXL, and `Timestamp` uses the fixed base. |
| QuickTest.ListedNames | quick_test.py:13 | The list holds VMR_VXL and Time but neither `q` nor `Timestamp`. |
| QuickTest.QuickLoadsPresent | quick_test.py:16-17 | A listed variable is loaded iff the file has it. |
| QuickTest.QuickChannel | quick_test.py:18-22 | A loaded channel is the first min(n, rows) rows, Missing exactly where masked, and every stored value is kept. |
| QuickTest.QuickQ | quick_test.py:25-26 | `q` is present when VMR_VXL is, elementwise VMR_VXL in g/kg with the same length. |
| QuickTest.QuickTimestamps | quick_test.py:28-30 | The timestamps use the fixed base 2024-02-29 and are one to one with Time, with the elapsed seconds recovered. |
| InspectNc.MinOf | inspect_nc.py:29 | `np.min` is an element of the data. It is NaN iff a NaN is present, and otherwise at most every entry. |
| InspectNc.MaxOf | inspect_nc.py:30 | `np.max` is an element of the data. It is NaN iff a NaN is present, and otherwise at least every entry. |
| InspectNc.NanMin | inspect_nc.py:54-55 | `np.nanmin` is NaN iff every entry is NaN, and otherwise a present number at most every number. |
| InspectNc.NanMax | inspect_nc.py:54-55 | `np.nanmax` is NaN iff every entry is NaN, and otherwise a present number at least every number. |
| InspectNc.MinLeMax | inspect_nc.py:29-30 | A numeric min is at most the max, which is numeric too. |
| InspectNc.NanMinLeNanMax | inspect_nc.py:54-55 | The NaN-ignoring min and max are both numeric or both NaN, and min <= max. |
| InspectNc.ConcatAppend | inspect_nc.py:20-22 | Flattening in row-major order distributes over joining blocks of rows. |
| InspectNc.ConcatBlock | inspect_nc.py:20-22 | The flattened rows are the rows before `i`, then row `i`, then the rows after it. |
| InspectNc.ConcatRowAt | inspect_nc.py:20-22 | Row `i` is the block of the flattened cells at the offset of the rows before it. |
| InspectNc.ConcatBlocks | inspect_nc.py:20-22 | Every row is the contiguous block of the flattened cells that starts where the earlier rows end. |
| InspectNc.FlatCells | inspect_nc.py:20-22 | A 1-D variable's cells as stored. For a 2-D variable, row after row, each row a contiguous block at the offset of the rows before it. |
| InspectNc.CleanMask | inspect_nc.py:19-22 | A cell is kept iff it is unmasked and, on the plain path, a number. |
| InspectNc.Clean | inspect_nc.py:19-22 | The cleaned data is the kept cells' values in order, and every kept cell appears. On the plain path it holds only numbers. |
| InspectNc.Shape | inspect_nc.py:24 | The shape is [rows] or [rows, width]. |
| InspectNc.AttrOr | inspect_nc.py:25-26 | An attribute or "N/A". |
| InspectNc.Summarize | inspect_nc.py:28-32 | all_nan iff the cleaned data is empty, so never together with min/max. Min and max are elements, NaN iff a NaN is present, min <= max, and they bound every entry. |
| InspectNc.InfoOf | inspect_nc.py:24-32 | The record has the variable's shape, units and long_name (or N/A), and its summary is that of the cleaned data: all_nan iff nothing survives cleaning, else its min and max. On the plain path min and max are numbers. |
| InspectNc.EntryOf | inspect_nc.py:16-35 | NOT FOUND iff the file lacks the variable, and otherwise its record. |
| InspectNc.RecordOf | inspect_nc.py:16-35 | One pass of the loop: the variable's record when the file has it, NOT FOUND otherwise. |
| InspectNc.VariableInfo | inspect_nc.py:15-35 | The loop yields exactly one entry per variable of interest, each NOT FOUND or its record. |
| InspectNc.TimeRange | inspect_nc.py:40-41 | Empty unmasked time gives NaN for both. Otherwise min and max are elements, NaN iff a NaN is present, and numeric ones bound every unmasked time from below and above. |
| InspectNc.AltitudeRange | inspect_nc.py:48-55 | The range over a non-empty segment: NaN iff all selected altitudes are NaN. Otherwise min and max are selected altitudes that bound every numeric selected altitude. |
| InspectNc.Inspect | inspect_nc.py:10-55 | Every field of the summary: the dimensions, the variable records, the time range, both segment counts as mask counts, and both altitude ranges. |
| InspectNc.PointCounts | inspect_nc.py:43-46 | Each count is the number of samples in its closed interval, and the two together are at most the samples of Time. |
| FlightTrack.FlightTrackArrays | flight_track.py:13-31 | palt and time are filled. There is one timestamp per time, at 2024-02-29 plus that many seconds. The spiral and surface masks are the inclusive intervals, equally long, and never both true. |
| TimeSeriesLeg.LegArrays | time_series_leg.py:10-31 | t, th, qq and dd all have the leg count as their length. Entry k of each comes from the same in-leg source row, rows in increasing order, and every in-leg row appears. qq is without /1000, dd is column 0 of dD and t is 2024-02-29 plus the time. |
| ScatterDdVsQ.JointlyFinite | scatter_dD_vs_q.py:26 | A pair is valid iff both values are numbers. |
| ScatterDdVsQ.KeptRows | scatter_dD_vs_q.py:23-28 | The kept source rows are strictly increasing, lie inside the leg and have both values numeric. Every such leg row is kept. |
| ScatterDdVsQ.ValidPairs | scatter_dD_vs_q.py:9-28 | qq_valid and dd_valid are equally long and at most the leg count. They hold only numbers, and row k of both is the same kept source row. |
| VerticalProfiles.AltLeTotalPreorder | vertical_profiles.py:42 | The argsort order (numbers by value, NaN last) is reflexive, total and transitive. |
| VerticalProfiles.InsertPermutes | vertical_profiles.py:42 | Inserting an index adds exactly that index to the multiset. |
| VerticalProfiles.InsertSorted | vertical_profiles.py:42 | Inserting into a sorted index sequence keeps it sorted. |
| VerticalProfiles.ArgSort | vertical_profiles.py:42 | `np.argsort` yields a permutation of 0..n-1 that lists the keys in order, NaN last. |
| VerticalProfiles.ArgSortPermutes | vertical_profiles.py:43-46 | Reordering any parallel array by the argsort keeps its multiset of entries. |
| VerticalProfiles.ArgSortScenario | vertical_profiles.py:42 | argsort of [3, NaN, 1] is [2, 0, 1]. |
| VerticalProfiles.Rows | vertical_profiles.py:38-46 | Row i joins entry i of the four parallel arrays. |
| VerticalProfiles.SourceRows | vertical_profiles.py:14-35 | Row i is the filled altitude, temperature, q in g/kg and column-0 dD of sample i. |
| VerticalProfiles.ProfileMask | vertical_profiles.py:36 | The spiral mask over the filled time is true exactly at the numeric times within [40414, 49099]. |
| VerticalProfiles.SpiralRows | vertical_profiles.py:36-41 | The spiral rows have the mask count as their number, and row k is source row `Positions(mask)[k]`. |
| VerticalProfiles.ProfileOrder | vertical_profiles.py:42 | `np.argsort(alt)` of the spiral altitudes: a permutation of 0..n-1, n the spiral count, that lists the altitudes in order with NaN last. |
| VerticalProfiles.SpiralSelection | vertical_profiles.py:38-41 | Masking the four filled arrays with one mask gives the spiral rows, still aligned. |
| VerticalProfiles.Reorder | vertical_profiles.py:42-46 | Reordering four arrays by the argsort of the first reorders their rows by it, and keeps the multiset of rows. |
| VerticalProfiles.FillEach | vertical_profiles.py:14-22 | Each listed array is replaced by its filled version. |
| VerticalProfiles.ReorderByAltitude | vertical_profiles.py:42-46 | One permutation for all four arrays, the multiset of rows kept, numeric altitudes nondecreasing and NaN altitudes last. |
| VerticalProfiles.ProfileArrays | vertical_profiles.py:8-46 | The output rows are the spiral rows in argsort order, one source row per output row for all four arrays. The multiset equals that of the spiral rows, and the altitudes ascend with NaN last. |

## Left out

- File access (`netCDF4.Dataset`, reading, `close`): the file is the `NcFile` value passed in.
- Plotting, `savefig` and `show`: display and output only.
- `stats.linregress` and `np.linspace` in `scatter_dD_vs_q.py`: floating-point statistics from a library whose code is outside this model.
- DataFrame construction, CSV writing and `json.dump`: serialisation of values the model already computes. In `inspect_nc.py` the JSON `float(...)` conversion is the identity on reals.
- Progress and status prints.
- IEEE arithmetic: values are exact reals, NaN is `Missing`, and infinities are not modelled. `np.isfinite` is modelled as "is a number".
- The `locals()` rebinding in `vertical_profiles.py` is modelled by its effect only: the four arrays are filled (`FillEach`).
- Units attributes that are not strings, and non-ASCII digits accepted by `strptime`: only ASCII digits are parsed.
- The range of pandas `datetime64` (overflow beyond year 2262) and its rounding to nanoseconds: timestamps are exact reals, in seconds.
- FlightTrack.FlightTrackArrays: `datetime + timedelta(seconds=...)` rounds the seconds to whole microseconds and raises OverflowError past year 9999. The model adds exact seconds, so its exact round trip is stronger than the source's, and it has no overflow case.
- TimeSeriesLeg.LegArrays: same as above for its timestamps. Microsecond rounding and the OverflowError past year 9999 are not modelled.
- Variables of rank 0 or of rank three or more: data is one- or two-dimensional.
- In the scripts, Time, PALT, THETA and VMR_VXL are used as one-dimensional arrays, which the preconditions require. dD_WVISO1 may be either.
- When a masked comparison or a masked boolean index reads the data hidden under a mask, the model treats a masked time as outside every segment.
- Crashes taken as preconditions, with no result modelled: `timedelta(seconds=nan)` in `flight_track.py` and `time_series_leg.py`, `np.min` of an empty `Time` and `np.nanmin` of an empty segment in `inspect_nc.py`, unequal channel lengths, and a missing variable that a script reads unconditionally.
- InspectNc.AltitudeRange: requires a non-empty segment, because `np.nanmin` of an empty selection raises.
- QuickTest.QuickChannel: states the min(n, rows) length for `n >= 0` only. `QuickTest.LoadPrefix` covers a negative `n` through `SliceEnd`.
- VerticalProfiles.ArgSort: states the permutation and the order but not which of several equal altitudes comes first. The source promises no stability, and the model fixes one insertion order.
