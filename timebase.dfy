/** Reference dates and absolute timestamps. A timestamp is a reference
    date plus a number of elapsed seconds, and is kept as real seconds since
    0001-01-01T00:00:00 of the proleptic Gregorian calendar (Python's day
    ordinal 1). The reference date is read from a units string such as
    "seconds since 2024-02-29 00:00:00 UTC", with a silent fallback. */
module TimeBase {
  import opened Samples

  datatype Date = Date(year: int, month: int, day: int)

  predicate IsLeap(y: int) {
    y % 4 == 0 && (y % 100 != 0 || y % 400 == 0)
  }

  function DaysInMonth(y: int, m: int): int
    requires 1 <= m <= 12
  {
    if m == 2 then (if IsLeap(y) then 29 else 28)
    else if m == 4 || m == 6 || m == 9 || m == 11 then 30
    else 31
  }

  /** A date `datetime` accepts: year in [MINYEAR, MAXYEAR] = [1, 9999]. */
  predicate ValidDate(d: Date) {
    1 <= d.year <= 9999 && 1 <= d.month <= 12 && 1 <= d.day <= DaysInMonth(d.year, d.month)
  }

  /** The fallback reference date 2024-02-29. */
  const DefaultDate: Date := Date(2024, 2, 29)

  lemma DefaultDateValid()
    ensures ValidDate(DefaultDate)
  {
  }

  // ---------------------------------------------------------------------
  // Day ordinals
  // ---------------------------------------------------------------------

  /** Days in the years before `y` (from year 1). */
  function DaysBeforeYear(y: int): int {
    var p := y - 1;
    p * 365 + p / 4 - p / 100 + p / 400
  }

  function DaysInYear(y: int): int {
    if IsLeap(y) then 366 else 365
  }

  /** Days in the months of year `y` before month `m` (Python's
      `_days_before_month`), for `m` in 1..13. */
  function DaysBeforeMonth(y: int, m: int): int
    requires 1 <= m <= 13
  {
    var table := [0, 0, 31, 59, 90, 120, 151, 181, 212, 243, 273, 304, 334, 365];
    table[m] + (if m > 2 && IsLeap(y) then 1 else 0)
  }

  /** `date.toordinal()`: 0001-01-01 is day 1. */
  function Ordinal(d: Date): int
    requires ValidDate(d)
  {
    DaysBeforeYear(d.year) + DaysBeforeMonth(d.year, d.month) + d.day
  }

  lemma MonthStep(y: int, m: int)
    requires 1 <= m <= 12
    ensures DaysBeforeMonth(y, m + 1) == DaysBeforeMonth(y, m) + DaysInMonth(y, m)
    ensures DaysBeforeMonth(y, 13) == DaysInYear(y)
    ensures DaysBeforeMonth(y, m) >= 0
  {
  }

  lemma DivStep4(p: int)
    requires p >= 0
    ensures (p + 1) / 4 == p / 4 + (if (p + 1) % 4 == 0 then 1 else 0)
  {
  }

  lemma DivStep100(p: int)
    requires p >= 0
    ensures (p + 1) / 100 == p / 100 + (if (p + 1) % 100 == 0 then 1 else 0)
  {
  }

  lemma DivStep400(p: int)
    requires p >= 0
    ensures (p + 1) / 400 == p / 400 + (if (p + 1) % 400 == 0 then 1 else 0)
  {
  }

  /** A multiple of 400 is a multiple of 100, and one of 100 a multiple of 4. */
  lemma MultiplesNest(y: int)
    ensures y % 400 == 0 ==> y % 100 == 0
    ensures y % 100 == 0 ==> y % 4 == 0
  {
    var a := y / 400;
    var b := y / 100;
    assert y == 400 * a + y % 400;
    assert y == 100 * b + y % 100;
    if y % 400 == 0 {
      assert y == 100 * (4 * a) + 0;
    }
    if y % 100 == 0 {
      assert y == 4 * (25 * b) + 0;
    }
  }

  /** The leap-day corrections grow by one exactly in a leap year. */
  lemma LeapStep(p: int)
    requires p >= 0
    ensures (p + 1) / 4 - (p + 1) / 100 + (p + 1) / 400 == p / 4 - p / 100 + p / 400 + (if IsLeap(p + 1) then 1 else 0)
  {
    DivStep4(p);
    DivStep100(p);
    DivStep400(p);
    MultiplesNest(p + 1);
  }

  lemma YearStep(y: int)
    requires y >= 1
    ensures DaysBeforeYear(y + 1) == DaysBeforeYear(y) + DaysInYear(y)
  {
    var p := y - 1;
    LeapStep(p);
    assert DaysBeforeYear(y + 1) == (p + 1) * 365 + (p + 1) / 4 - (p + 1) / 100 + (p + 1) / 400;
    assert DaysBeforeYear(y) == p * 365 + p / 4 - p / 100 + p / 400;
  }

  /** Day ordinals grow with the year. */
  lemma {:induction false} YearsOrdered(a: int, b: int)
    requires 1 <= a < b
    ensures DaysBeforeYear(a) + DaysInYear(a) <= DaysBeforeYear(b)
    decreases b - a
  {
    YearStep(a);
    if a + 1 < b {
      YearsOrdered(a + 1, b);
      assert DaysInYear(a + 1) > 0;
    }
  }

  /** Later dates have larger ordinals, so distinct valid dates have
      distinct ordinals and thus distinct base instants. */
  lemma OrdinalMonotone(a: Date, b: Date)
    requires ValidDate(a) && ValidDate(b)
    requires || a.year < b.year
             || (a.year == b.year && a.month < b.month)
             || (a.year == b.year && a.month == b.month && a.day < b.day)
    ensures Ordinal(a) < Ordinal(b)
  {
    MonthStep(a.year, a.month);
    MonthStep(b.year, b.month);
    if a.year < b.year {
      YearsOrdered(a.year, b.year);
    } else if a.month < b.month {
      MonthStep(a.year, b.month - 1);
      assert DaysBeforeMonth(a.year, a.month + 1) <= DaysBeforeMonth(a.year, b.month);
    }
  }

  // ---------------------------------------------------------------------
  // Timestamps
  // ---------------------------------------------------------------------

  /** An absolute time, or pandas' not-a-time for a NaN offset. */
  datatype Stamp = NaT | At(secs: real)

  /** The instant of midnight at the start of `d`. */
  function BaseInstant(d: Date): real
    requires ValidDate(d)
  {
    ((Ordinal(d) - 1) * 86400) as real
  }

  /** `base + timedelta(seconds = t)`; a NaN offset gives NaT. */
  function ToStamp(base: Date, t: Val): (r: Stamp)
    requires ValidDate(base)
    ensures r.NaT? <==> t.Missing?
    ensures Elapsed(base, r) == t
  {
    match t
    case Missing => NaT
    case Num(s) => At(BaseInstant(base) + s)
  }

  /** `stamp - base` in seconds; NaT gives NaN. */
  function Elapsed(base: Date, s: Stamp): (r: Val)
    requires ValidDate(base)
    ensures r.Missing? <==> s.NaT?
    ensures r.Num? ==> s.secs == BaseInstant(base) + r.r
  {
    match s
    case NaT => Missing
    case At(x) => Num(x - BaseInstant(base))
  }

  /** One timestamp per time sample, each at offset `ts[i]` from `base`:
      subtracting the base recovers the elapsed seconds exactly, and later
      times give later stamps. */
  function Stamps(base: Date, ts: seq<Val>): (r: seq<Stamp>)
    requires ValidDate(base)
    ensures |r| == |ts|
    ensures forall i :: 0 <= i < |ts| ==> Elapsed(base, r[i]) == ts[i]
    ensures forall i :: 0 <= i < |ts| ==> (r[i].NaT? <==> ts[i].Missing?)
    ensures forall i, j :: 0 <= i < |ts| && 0 <= j < |ts| && ts[i].Num? && ts[j].Num? && ts[i].r <= ts[j].r ==>
      r[i].secs <= r[j].secs
  {
    seq(|ts|, i requires 0 <= i < |ts| => ToStamp(base, ts[i]))
  }

  // ---------------------------------------------------------------------
  // Text search, as `in` and `str.split` use it
  // ---------------------------------------------------------------------

  predicate OccursAt(s: string, pat: string, i: nat) {
    i + |pat| <= |s| && s[i..i + |pat|] == pat
  }

  /** The first index at or after `from` where `pat` occurs. */
  function FindFrom(s: string, pat: string, from: nat): (r: Option<nat>)
    decreases |s| - from
    ensures r.Some? ==> from <= r.value && OccursAt(s, pat, r.value)
    ensures r.Some? ==> forall k :: from <= k < r.value ==> !OccursAt(s, pat, k)
    ensures r.None? ==> forall k :: from <= k <= |s| ==> !OccursAt(s, pat, k)
  {
    if from + |pat| > |s| then None
    else if s[from..from + |pat|] == pat then Some(from)
    else FindFrom(s, pat, from + 1)
  }

  function Find(s: string, pat: string): Option<nat> {
    FindFrom(s, pat, 0)
  }

  /** `pat in s`. */
  predicate Contains(s: string, pat: string)
    ensures Contains(s, pat) <==> exists k :: 0 <= k <= |s| && OccursAt(s, pat, k)
  {
    Find(s, pat).Some?
  }

  /** `s.split(sep)[0]`: the text before the first `sep`, or all of `s`. */
  function Before(s: string, sep: string): (r: string)
    ensures |r| <= |s| && r == s[..|r|]
    ensures Find(s, sep).None? ==> r == s
    ensures Find(s, sep).Some? ==> OccursAt(s, sep, |r|) && forall k :: 0 <= k < |r| ==> !OccursAt(s, sep, k)
  {
    match Find(s, sep)
    case None => s
    case Some(i) => s[..i]
  }

  /** `s.split(sep)[1]`: the text between the first and second `sep`;
      None where Python raises IndexError because `sep` does not occur. */
  function SecondPiece(s: string, sep: string): (r: Option<string>)
    requires sep != []
    ensures r.None? <==> Find(s, sep).None?
    ensures Find(s, sep).Some? ==> Find(s, sep).value + |sep| <= |s|
    ensures Find(s, sep).Some? ==> r == Some(Before(s[Find(s, sep).value + |sep|..], sep))
  {
    match Find(s, sep)
    case None => None
    case Some(i) => Some(Before(s[i + |sep|..], sep))
  }

  // ---------------------------------------------------------------------
  // strptime(token, "%Y-%m-%d")
  // ---------------------------------------------------------------------

  predicate IsDigit(c: char) { '0' <= c <= '9' }

  function DigitValue(c: char): int
    requires IsDigit(c)
  {
    (c as int) - ('0' as int)
  }

  predicate DigitIn(s: string, i: int, lo: char, hi: char) {
    0 <= i < |s| && lo <= s[i] <= hi
  }

  predicate CharAt(s: string, i: int, c: char) {
    0 <= i < |s| && s[i] == c
  }

  /** `%m` followed by the `-` of the format: the regex
      `1[0-2]|0[1-9]|[1-9]` tried in that order at index `i`, the next
      character being `-`. Returns the month and the index after the `-`. */
  function ParseMonth(s: string, i: nat): (r: Option<(int, nat)>)
    ensures r.Some? ==> 1 <= r.value.0 <= 12
    ensures r.Some? ==> (r.value.1 == i + 2 || r.value.1 == i + 3) && CharAt(s, r.value.1 - 1, '-')
  {
    if CharAt(s, i, '1') && DigitIn(s, i + 1, '0', '2') && CharAt(s, i + 2, '-') then
      Some((10 + DigitValue(s[i + 1]), i + 3))
    else if CharAt(s, i, '0') && DigitIn(s, i + 1, '1', '9') && CharAt(s, i + 2, '-') then
      Some((DigitValue(s[i + 1]), i + 3))
    else if DigitIn(s, i, '1', '9') && CharAt(s, i + 1, '-') then
      Some((DigitValue(s[i]), i + 2))
    else None
  }

  /** `%d`: the regex `3[01]|[12]\d|0[1-9]|[1-9]| [1-9]` tried in that order
      at index `i`; the first alternative that matches is taken. Returns the
      day and the index after it. */
  function ParseDay(s: string, i: nat): (r: Option<(int, nat)>)
    ensures r.Some? ==> 1 <= r.value.0 <= 31
    ensures r.Some? ==> (r.value.1 == i + 1 || r.value.1 == i + 2) && r.value.1 <= |s|
  {
    if CharAt(s, i, '3') && DigitIn(s, i + 1, '0', '1') then
      Some((30 + DigitValue(s[i + 1]), i + 2))
    else if DigitIn(s, i, '1', '2') && DigitIn(s, i + 1, '0', '9') then
      Some((10 * DigitValue(s[i]) + DigitValue(s[i + 1]), i + 2))
    else if CharAt(s, i, '0') && DigitIn(s, i + 1, '1', '9') then
      Some((DigitValue(s[i + 1]), i + 2))
    else if DigitIn(s, i, '1', '9') then
      Some((DigitValue(s[i]), i + 1))
    else if CharAt(s, i, ' ') && DigitIn(s, i + 1, '1', '9') then
      Some((DigitValue(s[i + 1]), i + 2))
    else None
  }

  /** `datetime.strptime(s, "%Y-%m-%d")`: four digits, `-`, a month, `-`, a
      day, then nothing more ("unconverted data remains" otherwise), and the
      date must exist. None where strptime raises ValueError. */
  function ParseYmd(s: string): (r: Option<Date>)
    ensures r.Some? ==> ValidDate(r.value)
  {
    if |s| < 5 || !(IsDigit(s[0]) && IsDigit(s[1]) && IsDigit(s[2]) && IsDigit(s[3])) || s[4] != '-' then None
    else
      var y := 1000 * DigitValue(s[0]) + 100 * DigitValue(s[1]) + 10 * DigitValue(s[2]) + DigitValue(s[3]);
      match ParseMonth(s, 5)
      case None => None
      case Some((m, j)) =>
        match ParseDay(s, j)
        case None => None
        case Some((d, k)) =>
          if k != |s| then None
          else if ValidDate(Date(y, m, d)) then Some(Date(y, m, d))
          else None
  }

  /** Reference-date resolution: if the units contain "since", take the
      text after the first "since " up to the next space and parse it as
      `%Y-%m-%d`; on any failure, and when "since" is absent, use 2024-02-29.
      Total: it never fails and always yields a real calendar date. */
  function BaseDate(units: string): (d: Date)
    ensures ValidDate(d)
    ensures !Contains(units, "since") ==> d == DefaultDate
    ensures !Contains(units, "since ") ==> d == DefaultDate
    ensures d != DefaultDate ==>
      exists tok :: SecondPiece(units, "since ") == Some(tok) && ParseYmd(Before(tok, " ")) == Some(d)
  {
    if !Contains(units, "since") then DefaultDate
    else match SecondPiece(units, "since ")
      case None => DefaultDate
      case Some(tok) =>
        match ParseYmd(Before(tok, " "))
        case None => DefaultDate
        case Some(d) => d
  }

  // ---------------------------------------------------------------------
  // Formatting, for the round trip
  // ---------------------------------------------------------------------

  /** Components that print as YYYY-MM-DD, whether or not the date exists. */
  predicate Printable(d: Date) {
    1 <= d.year <= 9999 && 1 <= d.month <= 12 && 1 <= d.day <= 31
  }

  function Digit(n: int): char
    requires 0 <= n <= 9
  {
    ('0' as int + n) as char
  }

  /** YYYY-MM-DD with zero padding (`date.isoformat()` for a valid date). */
  function FormatYmd(d: Date): (s: string)
    requires Printable(d)
    ensures |s| == 10
    ensures NoChar(s, ' ') && NoChar(s, 's')
  {
    [Digit(d.year / 1000), Digit(d.year / 100 % 10), Digit(d.year / 10 % 10), Digit(d.year % 10), '-',
     Digit(d.month / 10), Digit(d.month % 10), '-',
     Digit(d.day / 10), Digit(d.day % 10)]
  }

  lemma DigitRoundTrip(n: int)
    requires 0 <= n <= 9
    ensures IsDigit(Digit(n)) && DigitValue(Digit(n)) == n
  {
  }

  lemma ParseMonthFormatted(s: string, m: int)
    requires 1 <= m <= 12 && |s| >= 8
    requires s[5] == Digit(m / 10) && s[6] == Digit(m % 10) && s[7] == '-'
    ensures ParseMonth(s, 5) == Some((m, 8))
  {
    DigitRoundTrip(m % 10);
  }

  lemma ParseDayFormatted(s: string, d: int)
    requires 1 <= d <= 31 && |s| >= 10
    requires s[8] == Digit(d / 10) && s[9] == Digit(d % 10)
    ensures ParseDay(s, 8) == Some((d, 10))
  {
    DigitRoundTrip(d / 10);
    DigitRoundTrip(d % 10);
  }

  lemma YearDigits(y: int)
    requires 1 <= y <= 9999
    ensures 1000 * DigitValue(Digit(y / 1000)) + 100 * DigitValue(Digit(y / 100 % 10))
          + 10 * DigitValue(Digit(y / 10 % 10)) + DigitValue(Digit(y % 10)) == y
  {
    DigitRoundTrip(y / 1000);
    DigitRoundTrip(y / 100 % 10);
    DigitRoundTrip(y / 10 % 10);
    DigitRoundTrip(y % 10);
    var t := y / 10;
    var h := t / 10;
    assert y == 10 * t + y % 10;
    assert t == 10 * h + t % 10;
    assert h == y / 100;
    assert h == 10 * (h / 10) + h % 10;
    assert h / 10 == y / 1000;
  }

  /** On a printed date followed by `rest`, the year, month and day fields
      are read back, and the day field ends at index 10. */
  lemma FieldsOfFormatted(d: Date, rest: string)
    requires Printable(d)
    ensures var s := FormatYmd(d) + rest;
      && IsDigit(s[0]) && IsDigit(s[1]) && IsDigit(s[2]) && IsDigit(s[3]) && s[4] == '-'
      && 1000 * DigitValue(s[0]) + 100 * DigitValue(s[1]) + 10 * DigitValue(s[2]) + DigitValue(s[3]) == d.year
      && ParseMonth(s, 5) == Some((d.month, 8))
      && ParseDay(s, 8) == Some((d.day, 10))
  {
    var s := FormatYmd(d) + rest;
    DigitRoundTrip(d.year / 1000);
    DigitRoundTrip(d.year / 100 % 10);
    DigitRoundTrip(d.year / 10 % 10);
    DigitRoundTrip(d.year % 10);
    YearDigits(d.year);
    ParseMonthFormatted(s, d.month);
    ParseDayFormatted(s, d.day);
  }

  /** Parsing the printed form gives the date back exactly when it exists. */
  lemma ParseFormatted(d: Date)
    requires Printable(d)
    ensures ParseYmd(FormatYmd(d)) == if ValidDate(d) then Some(d) else None
  {
    FieldsOfFormatted(d, []);
    assert FormatYmd(d) + [] == FormatYmd(d);
  }

  /** Anything after the day makes strptime fail ("unconverted data remains"). */
  lemma ParseFormattedTrailing(d: Date, rest: string)
    requires Printable(d) && rest != []
    ensures ParseYmd(FormatYmd(d) + rest) == None
  {
    FieldsOfFormatted(d, rest);
  }

  // ---------------------------------------------------------------------
  // Reference-date resolution on units strings of the file's form
  // ---------------------------------------------------------------------

  function OrDefault(o: Option<Date>): Date {
    match o
    case None => DefaultDate
    case Some(d) => d
  }

  predicate NoChar(s: string, c: char) {
    forall k :: 0 <= k < |s| ==> s[k] != c
  }

  /** The first occurrence is the one with none before it. */
  lemma FindFirst(s: string, pat: string, i: nat)
    requires OccursAt(s, pat, i)
    requires forall k :: 0 <= k < i ==> !OccursAt(s, pat, k)
    ensures Find(s, pat) == Some(i)
  {
  }

  /** One mismatching character rules out an occurrence. */
  lemma MismatchAt(s: string, pat: string, k: nat, j: nat)
    requires k + |pat| <= |s| ==> j < |pat| && s[k + j] != pat[j]
    ensures !OccursAt(s, pat, k)
  {
    if k + |pat| <= |s| {
      assert s[k..k + |pat|][j] == s[k + j];
    }
  }

  /** A text without the first character of `pat` has no occurrence of it. */
  lemma FindNone(s: string, pat: string)
    requires |pat| > 0 && NoChar(s, pat[0])
    ensures Find(s, pat) == None
  {
    forall k | 0 <= k <= |s| ensures !OccursAt(s, pat, k) {
      MismatchAt(s, pat, k, 0);
    }
  }

  /** Before `sep` is everything when `sep` does not start anywhere. */
  lemma BeforeAll(s: string, sep: string)
    requires |sep| > 0 && NoChar(s, sep[0])
    ensures Before(s, sep) == s
  {
    FindNone(s, sep);
  }

  /** The date token ends at the first space. */
  lemma BeforeSpace(tok: string, rest: string)
    requires NoChar(tok, ' ')
    ensures Before(tok + " " + rest, " ") == tok
  {
    var s := tok + " " + rest;
    forall k | 0 <= k < |tok| ensures !OccursAt(s, " ", k) {
      assert s[k] == tok[k];
      MismatchAt(s, " ", k, 0);
    }
    assert s[|tok|..|tok| + 1] == " ";
    FindFirst(s, " ", |tok|);
  }

  /** In "seconds since ...", "since " does not start within "seconds ". */
  lemma NoSinceInPrefix(u: string)
    requires |u| >= 8 && u[..8] == "seconds "
    ensures forall k :: 0 <= k < 8 ==> !OccursAt(u, "since ", k)
  {
    forall k | 0 <= k < 8 ensures !OccursAt(u, "since ", k) {
      assert u[k] == u[..8][k];
      if k == 0 || k == 6 {
        assert u[k + 1] == u[..8][k + 1];
        MismatchAt(u, "since ", k, 1);
      } else {
        MismatchAt(u, "since ", k, 0);
      }
    }
  }

  /** For units "seconds since <tail>" whose tail has no letter s, the
      reference date is the parse of the tail up to its first space, or
      the fallback when that token is not a valid `%Y-%m-%d` date. */
  lemma SecondsSince(tail: string)
    requires NoChar(tail, 's')
    ensures BaseDate("seconds since " + tail) == OrDefault(ParseYmd(Before(tail, " ")))
  {
    var u := "seconds since " + tail;
    assert u[..8] == "seconds ";
    assert u[8..13] == "since";
    assert OccursAt(u, "since", 8);
    assert u[8..14] == "since ";
    NoSinceInPrefix(u);
    FindFirst(u, "since ", 8);
    assert u[14..] == tail;
    BeforeAll(tail, "since ");
  }

  /** Units of the file's form "seconds since YYYY-MM-DD <rest>": the date
      written there when it exists, else the fallback. */
  lemma UnitsResolution(d: Date, rest: string)
    requires Printable(d) && NoChar(rest, 's')
    ensures BaseDate("seconds since " + FormatYmd(d) + " " + rest) == if ValidDate(d) then d else DefaultDate
  {
    var tok := FormatYmd(d);
    assert "seconds since " + tok + " " + rest == "seconds since " + (tok + " " + rest);
    assert NoChar(tok + " " + rest, 's') by {
      assert forall k :: 0 <= k < |tok| + 1 + |rest| ==>
        (tok + " " + rest)[k] == if k < |tok| then tok[k] else if k == |tok| then ' ' else rest[k - |tok| - 1];
    }
    SecondsSince(tok + " " + rest);
    BeforeSpace(tok, rest);
    ParseFormatted(d);
  }

  /** Text glued to the date token falls back, whatever the date. */
  lemma UnitsTrailing(d: Date, rest: string)
    requires Printable(d) && rest != [] && NoChar(rest, 's') && NoChar(rest, ' ')
    ensures BaseDate("seconds since " + FormatYmd(d) + rest) == DefaultDate
  {
    var tok := FormatYmd(d) + rest;
    assert "seconds since " + FormatYmd(d) + rest == "seconds since " + tok;
    assert forall k :: 0 <= k < |tok| ==> tok[k] == if k < 10 then FormatYmd(d)[k] else rest[k - 10];
    SecondsSince(tok);
    BeforeAll(tok, " ");
    ParseFormattedTrailing(d, rest);
  }

  /** The dates of the examples below, formatted. */
  lemma ExampleDatesFormatted()
    ensures FormatYmd(Date(2024, 2, 29)) == "2024-02-29"
    ensures FormatYmd(Date(2023, 3, 1)) == "2023-03-01"
    ensures FormatYmd(Date(2023, 2, 29)) == "2023-02-29"
  {
  }

  /** "seconds since 2024-02-29 00:00:00 UTC" resolves to 2024-02-29. */
  lemma DefaultUnitsExample()
    ensures BaseDate("seconds since 2024-02-29 00:00:00 UTC") == Date(2024, 2, 29)
  {
    ExampleDatesFormatted();
    assert "seconds since 2024-02-29 00:00:00 UTC" == "seconds since " + FormatYmd(Date(2024, 2, 29)) + " " + "00:00:00 UTC";
    UnitsResolution(Date(2024, 2, 29), "00:00:00 UTC");
  }

  /** A date other than the fallback is read as written. */
  lemma OtherDateExample()
    ensures BaseDate("seconds since 2023-03-01 00:00:00 UTC") == Date(2023, 3, 1)
  {
    ExampleDatesFormatted();
    assert "seconds since 2023-03-01 00:00:00 UTC" == "seconds since " + FormatYmd(Date(2023, 3, 1)) + " " + "00:00:00 UTC";
    UnitsResolution(Date(2023, 3, 1), "00:00:00 UTC");
  }

  /** Units without "since" fall back to 2024-02-29. */
  lemma GarbageFallsBack()
    ensures BaseDate("garbage") == DefaultDate
  {
  }

  /** A date that does not exist (2023 is not a leap year) falls back. */
  lemma InvalidDateFallsBack()
    ensures BaseDate("seconds since 2023-02-29 00:00:00 UTC") == DefaultDate
  {
    ExampleDatesFormatted();
    assert "seconds since 2023-02-29 00:00:00 UTC" == "seconds since " + FormatYmd(Date(2023, 2, 29)) + " " + "00:00:00 UTC";
    UnitsResolution(Date(2023, 2, 29), "00:00:00 UTC");
  }

  /** Trailing text in the date token ("unconverted data remains") falls
      back, even though the token starts with a valid date. */
  lemma TrailingTextFallsBack()
    ensures BaseDate("seconds since 2023-03-01T00:00") == DefaultDate
  {
    ExampleDatesFormatted();
    assert "seconds since 2023-03-01T00:00" == "seconds since " + FormatYmd(Date(2023, 3, 1)) + "T00:00";
    UnitsTrailing(Date(2023, 3, 1), "T00:00");
  }

  /** "since" not followed by a space makes `split("since ")[1]` raise
      IndexError, which is caught: fallback. */
  lemma SinceWithoutSpaceFallsBack()
    ensures BaseDate("seconds since2023-03-01") == DefaultDate
  {
    var u := "seconds since2023-03-01";
    assert u[8..13] == "since";
    assert OccursAt(u, "since", 8);
    NoSinceInPrefix(u);
    forall k | 8 <= k <= |u| ensures !OccursAt(u, "since ", k) {
      if k == 8 {
        MismatchAt(u, "since ", k, 5);
      } else {
        MismatchAt(u, "since ", k, 0);
      }
    }
  }
}
