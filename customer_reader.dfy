/**
 * `ExcelReader.readCustomer`: every row of the weekday sheets whose name
 * matches the wanted customer, read into contact details (the first value
 * found for each wins) and one booking per row.
 */
module CustomerReader {
  import opened JavaText
  import opened Sequences
  import opened ExcelReader

  // ---------------------------------------------------------------
  // Header columns
  // ---------------------------------------------------------------

  const FirstNameHeaders: seq<string> := ["vorname"]
  const SalutationHeaders: seq<string> := ["anrede"]
  const TitleHeaders: seq<string> := ["titel"]
  const AddressHeaders: seq<string> := ["adresse", "anschrift", "strasse", "straße", "addr"]
  /** The second address column is always column 11 (column L), whatever its header says. */
  const SecondAddressColumn: int := 11
  const MailHeaders: seq<string> := ["e-mail", "email", "mail"]
  const HallHeaders: seq<string> := ["halle"]
  const CourtHeaders: seq<string> := ["platz", "court"]
  const TimeHeaders: seq<string> :=
    ["std-belegung", "std.-belegung", "std . belegung", "belegung", "zeit", "uhrzeit", "beginn", "start", "von"]
  const FromHeaders: seq<string> := ["von", "start", "beginn", "startzeit"]
  const ToHeaders: seq<string> := ["bis", "ende", "end", "endzeit"]
  const PriceHeaders: seq<string> := ["preis", "tarif", "betrag", "kosten"]

  /** The column of each field in one sheet, -1 where the header lacks it. */
  datatype Columns = Columns(
    name: int, firstName: int, salutation: int, title: int, address: int, address2: int,
    mail: int, hall: int, court: int, time: int, from: int, to: int, price: int)

  function ColumnsOf(cells: Row): Columns
  {
    Columns(
      ColumnIndex(cells, Targets(NameHeaders)),
      ColumnIndex(cells, Targets(FirstNameHeaders)),
      ColumnIndex(cells, Targets(SalutationHeaders)),
      ColumnIndex(cells, Targets(TitleHeaders)),
      ColumnIndex(cells, Targets(AddressHeaders)),
      SecondAddressColumn,
      ColumnIndex(cells, Targets(MailHeaders)),
      ColumnIndex(cells, Targets(HallHeaders)),
      ColumnIndex(cells, Targets(CourtHeaders)),
      ColumnIndex(cells, Targets(TimeHeaders)),
      ColumnIndex(cells, Targets(FromHeaders)),
      ColumnIndex(cells, Targets(ToHeaders)),
      ColumnIndex(cells, Targets(PriceHeaders)))
  }

  /** The column lookups of one sheet. */
  method FindColumns(cells: Row) returns (cols: Columns)
    ensures cols == ColumnsOf(cells)
    ensures cols.name < 0 <==> forall j :: 0 <= j < |cells| ==> !HeaderMatch(cells[j], Targets(NameHeaders))
  {
    var name := FindColumnIndex(cells, NameHeaders);
    var firstName := FindColumnIndex(cells, FirstNameHeaders);
    var salutation := FindColumnIndex(cells, SalutationHeaders);
    var title := FindColumnIndex(cells, TitleHeaders);
    var address := FindColumnIndex(cells, AddressHeaders);
    var mail := FindColumnIndex(cells, MailHeaders);
    var hall := FindColumnIndex(cells, HallHeaders);
    var court := FindColumnIndex(cells, CourtHeaders);
    var time := FindColumnIndex(cells, TimeHeaders);
    var from := FindColumnIndex(cells, FromHeaders);
    var to := FindColumnIndex(cells, ToHeaders);
    var price := FindColumnIndex(cells, PriceHeaders);
    cols := Columns(name, firstName, salutation, title, address, SecondAddressColumn, mail, hall, court, time, from, to, price);
  }

  /** `colX >= 0 ? trimOrNull(getCellString(row.getCell(colX))) : null`. */
  function OptionalCell(row: Row, col: int): (r: Option<string>)
    ensures r.Some? ==> r.value != [] && IsTrimmed(r.value)
  {
    if col >= 0 then TrimOrNull(Some(CellText(row, col))) else None
  }

  // ---------------------------------------------------------------
  // The time-range pattern
  // ---------------------------------------------------------------

  /** The dash of the pattern: `[-–—]` in the first test, `-` alone in the second. */
  predicate IsRangeDash(c: char, anyDash: bool)
  {
    c == '-' || (anyDash && (c == EnDash || c == EmDash))
  }

  predicate NoLineTerminator(s: string)
  {
    forall i :: 0 <= i < |s| ==> !IsLineTerminator(s[i])
  }

  /** `.*\d{1,2}:\d{2}` once the `.*` has taken all it can: the text ends in `D:DD`. */
  predicate EndsWithHourMinute(l: string)
  {
    |l| >= 4 && IsHourMinute(l[|l| - 4..])
  }

  /** `\d{1,2}:\d{2}.*`: the text starts with `D:DD` or `DD:DD`. */
  predicate StartsWithHourMinute(r: string)
  {
    (|r| >= 4 && IsHourMinute(r[..4])) || (|r| >= 5 && IsHourMinute(r[..5]))
  }

  /**
   * The dash at `k` is the one the pattern matches: a time ends just before
   * the blanks in front of it, a time starts just after the blanks behind
   * it, and no line terminator sits outside those blanks (`.` does not
   * match one).
   */
  predicate RangeAt(s: string, k: int, anyDash: bool)
  {
    && 0 <= k < |s| && IsRangeDash(s[k], anyDash)
    && var l := StripSpaceEnd(s[..k]);
       var r := StripSpaceStart(s[k + 1..]);
       EndsWithHourMinute(l) && StartsWithHourMinute(r) && NoLineTerminator(l) && NoLineTerminator(r)
  }

  /** Some dash at index `j` or later is one the pattern matches. */
  predicate RangeFrom(s: string, j: nat, anyDash: bool)
    decreases |s| - j
  {
    j < |s| && (RangeAt(s, j, anyDash) || RangeFrom(s, j + 1, anyDash))
  }

  /** `s.matches(".*\\d{1,2}:\\d{2}\\s*[-–—]\\s*\\d{1,2}:\\d{2}.*")`, or with `-` alone when `!anyDash`. */
  predicate MatchesTimeRange(s: string, anyDash: bool)
  {
    RangeFrom(s, 0, anyDash)
  }

  /** A qualifying dash at `k` makes the search from any earlier index succeed. */
  lemma {:induction false} RangeAtMatches(s: string, j: nat, k: nat, anyDash: bool)
    requires j <= k && RangeAt(s, k, anyDash)
    ensures RangeFrom(s, j, anyDash)
    decreases k - j
  {
    if j < k {
      RangeAtMatches(s, j + 1, k, anyDash);
    }
  }

  /** A text the pattern matches has a digit just before the blanks in front of its dash. */
  lemma RangeHasDigit(s: string, k: int, anyDash: bool)
    requires RangeAt(s, k, anyDash)
    ensures 0 < |StripSpaceEnd(s[..k])| <= k && IsDigit(s[|StripSpaceEnd(s[..k])| - 1])
  {
    var l := StripSpaceEnd(s[..k]);
    StripSpaceEndShape(s[..k]);
    assert l[|l| - 1] == l[|l| - 4..][3];
    assert s[|l| - 1] == s[..k][|l| - 1];
  }

  /** Digits and colons are neither blanks nor line terminators. */
  lemma TimeCharIsPlain(c: char)
    requires IsDigit(c) || c == ':'
    ensures !IsLineTerminator(c) && !IsRegexSpace(c) && !IsTrimmable(c) && c != '-' && c != EnDash && c != EmDash
  {
  }

  /** A clock time is made of digits and a colon only. */
  lemma HourMinuteChars(f: string)
    requires IsHourMinute(f)
    ensures forall i :: 0 <= i < |f| ==> IsDigit(f[i]) || f[i] == ':'
  {
  }

  lemma HourMinutePlain(f: string)
    requires IsHourMinute(f)
    ensures NoLineTerminator(f) && NoDash(f) && !IsRegexSpace(f[0]) && !IsRegexSpace(f[|f| - 1])
  {
    HourMinuteChars(f);
    forall i | 0 <= i < |f|
      ensures !IsLineTerminator(f[i]) && !IsRegexSpace(f[i]) && f[i] != '-' && f[i] != EnDash && f[i] != EmDash
    {
      TimeCharIsPlain(f[i]);
    }
  }

  lemma HourMinuteEnds(f: string)
    requires IsHourMinute(f)
    ensures EndsWithHourMinute(f)
  {
    var l := f[|f| - 4..];
    assert l[0] == f[|f| - 4] && l[1] == f[|f| - 3] && l[2] == f[|f| - 2] && l[3] == f[|f| - 1];
  }

  lemma HourMinuteStarts(f: string)
    requires IsHourMinute(f)
    ensures StartsWithHourMinute(f)
  {
    assert f[..|f|] == f;
  }

  /** The left end of "f - t": the blank before the dash is stripped and a clock time ends there. */
  lemma LeftOfDash(f: string)
    requires IsHourMinute(f)
    ensures StripSpaceEnd(f + " ") == f && EndsWithHourMinute(f) && NoLineTerminator(f)
  {
    HourMinutePlain(f);
    StripOneSpace(f);
    HourMinuteEnds(f);
  }

  lemma StripOneSpace(f: string)
    requires f != [] && !IsRegexSpace(f[|f| - 1])
    ensures StripSpaceEnd(f + " ") == f
  {
    var s := f + " ";
    assert s[..|s| - 1] == f;
    assert IsRegexSpace(s[|s| - 1]);
  }

  /** The right end of "f - t": the blank after the dash is stripped and a clock time starts there. */
  lemma RightOfDash(t: string)
    requires IsHourMinute(t)
    ensures StripSpaceStart(" " + t) == t && StartsWithHourMinute(t) && NoLineTerminator(t)
  {
    HourMinuteStarts(t);
    HourMinutePlain(t);
    assert (" " + t)[1..] == t;
  }

  lemma JoinedPieces(f: string, t: string)
    ensures (f + " - " + t)[|f| + 1] == '-'
    ensures (f + " - " + t)[..|f| + 1] == f + " "
    ensures (f + " - " + t)[|f| + 2..] == " " + t
  {
  }

  /** `f + " - " + t` for two clock times is matched by the pattern, at its dash. */
  lemma JoinedTimesMatch(f: string, t: string, anyDash: bool)
    requires IsHourMinute(f) && IsHourMinute(t)
    ensures MatchesTimeRange(f + " - " + t, anyDash)
  {
    LeftOfDash(f);
    RightOfDash(t);
    JoinedPieces(f, t);
    assert RangeAt(f + " - " + t, |f| + 1, anyDash);
    RangeAtMatches(f + " - " + t, 0, |f| + 1, anyDash);
  }

  /** A text without a digit is never matched. */
  lemma {:induction false} NoDigitDoesNotMatch(s: string, j: nat, anyDash: bool)
    requires forall i :: 0 <= i < |s| ==> !IsDigit(s[i])
    ensures !RangeFrom(s, j, anyDash)
    decreases |s| - j
  {
    if j < |s| {
      if RangeAt(s, j, anyDash) {
        RangeHasDigit(s, j, anyDash);
      }
      NoDigitDoesNotMatch(s, j + 1, anyDash);
    }
  }

  // ---------------------------------------------------------------
  // The time of a booking
  // ---------------------------------------------------------------

  /** Start, end and the raw time text of a booking. */
  datatype Times = Times(from: Option<string>, to: Option<string>, raw: Option<string>)

  /** Java's `a + " - " + b` on possibly null strings. */
  function JavaString(s: Option<string>): string
  {
    if s.None? then "null" else s.value
  }

  /**
   * The first pass (source lines 208-231): with neither a start nor an end
   * column value, a non-blank time cell is read either as a range, split
   * and normalised, or as a single normalised time; otherwise the raw text
   * is built from the separate start and end values.
   */
  function TimesFromCells(from: Option<string>, to: Option<string>, cell: Option<string>): Times
  {
    if IsBlankOrNull(from) && IsBlankOrNull(to) && !IsBlankOrNull(cell) then
      if MatchesTimeRange(cell.value, true) then
        var ft := SplitTimeRange(cell);
        var f := TrimOrNull(NormalizeTimeString(ft.0));
        var t := TrimOrNull(NormalizeTimeString(ft.1));
        Times(f, t, Some(JavaString(f) + " - " + JavaString(t)))
      else
        Times(from, to, NormalizeTimeString(cell))
    else if !IsBlankOrNull(from) && !IsBlankOrNull(to) then Times(from, to, Some(from.value + " - " + to.value))
    else if !IsBlankOrNull(from) then Times(from, to, from)
    else if !IsBlankOrNull(to) then Times(from, to, to)
    else Times(from, to, None)
  }

  /**
   * The second pass (source lines 234-240): with still no start and end, a
   * raw text holding a hyphen range is split once more.
   */
  function RecheckRange(t: Times): Times
  {
    if IsBlankOrNull(t.from) && IsBlankOrNull(t.to) && !IsBlankOrNull(t.raw) && MatchesTimeRange(t.raw.value, false) then
      var ft := SplitTimeRange(t.raw);
      Times(ft.0, ft.1, t.raw)
    else t
  }

  function TimesOf(row: Row, cols: Columns): Times
  {
    var cell := OptionalCell(row, cols.time);
    var from := if cols.from >= 0 then TrimOrNull(NormalizeTimeString(Some(CellText(row, cols.from)))) else None;
    var to := if cols.to >= 0 then TrimOrNull(NormalizeTimeString(Some(CellText(row, cols.to)))) else None;
    RecheckRange(TimesFromCells(from, to, cell))
  }

  /** What a start or end column can yield: nothing, or a trimmed clock time without any dash. */
  predicate IsTimeValue(v: Option<string>)
  {
    v.Some? ==> v.value != [] && IsTrimmed(v.value) && NoDash(v.value)
  }

  /** A normalised time is made of digits and colons only. */
  lemma NormalizedChars(s: Option<string>)
    ensures NormalizeTimeString(s).Some? ==>
              forall i :: 0 <= i < |NormalizeTimeString(s).value| ==> IsTimeChar(NormalizeTimeString(s).value[i])
  {
    var n := NormalizeTimeString(s);
    if n.Some? && IsHourMinute(n.value) {
      HourMinuteChars(n.value);
    }
  }

  /** Text of digits and colons has no dash and nothing `trim()` removes. */
  lemma TimeTextPlain(v: string)
    requires forall i :: 0 <= i < |v| ==> IsTimeChar(v[i])
    ensures NoDash(v) && IsTrimmed(v)
  {
    forall i | 0 <= i < |v|
      ensures v[i] != '-' && v[i] != EnDash && v[i] != EmDash && !IsTrimmable(v[i])
    {
      TimeCharIsPlain(v[i]);
    }
  }

  lemma NormalizedIsTimeValue(s: Option<string>)
    ensures IsTimeValue(TrimOrNull(NormalizeTimeString(s)))
  {
    var n := NormalizeTimeString(s);
    if n.Some? {
      NormalizedChars(s);
      TimeTextPlain(n.value);
      TrimOfTrimmed(n.value);
    }
  }

  /** A time value is blank exactly when it is missing. */
  lemma TimeValueBlank(v: Option<string>)
    requires IsTimeValue(v)
    ensures IsBlankOrNull(v) <==> v.None?
  {
    if v.Some? {
      TrimOfTrimmed(v.value);
    }
  }

  /** Java's rendering of two null ends around " - ". */
  lemma NullRangeText()
    ensures JavaString(None) + " - " + JavaString(None) == "null - null"
  {
  }

  /** The text "null - null" holds no digit, so the pattern never matches it. */
  lemma NullRangeDoesNotMatch(anyDash: bool)
    ensures !MatchesTimeRange("null - null", anyDash)
  {
    var s := "null - null";
    assert forall i :: 0 <= i < |s| ==> s[i] in {'n', 'u', 'l', ' ', '-'};
    NoDigitDoesNotMatch(s, 0, anyDash);
  }

  /** A text without any hyphen is never matched by the hyphen pattern. */
  lemma {:induction false} NoHyphenDoesNotMatch(s: string, j: nat)
    requires '-' !in s
    ensures !RangeFrom(s, j, false)
    decreases |s| - j
  {
    if j < |s| {
      assert s[j] != '-';
      NoHyphenDoesNotMatch(s, j + 1);
    }
  }

  /** A range time cell leaves either a start or an end, or the raw text "null - null". */
  lemma RangeCellRecheck(cell: Option<string>)
    requires !IsBlankOrNull(cell) && MatchesTimeRange(cell.value, true)
    ensures RecheckRange(TimesFromCells(None, None, cell)) == TimesFromCells(None, None, cell)
  {
    var ft := SplitTimeRange(cell);
    var r := TimesFromCells(None, None, cell);
    assert r.from == TrimOrNull(NormalizeTimeString(ft.0));
    assert r.to == TrimOrNull(NormalizeTimeString(ft.1));
    assert r.raw == Some(JavaString(r.from) + " - " + JavaString(r.to));
    NormalizedIsTimeValue(ft.0);
    NormalizedIsTimeValue(ft.1);
    TimeValueBlank(r.from);
    TimeValueBlank(r.to);
    if r.from.None? && r.to.None? {
      NullRangeText();
      NullRangeDoesNotMatch(false);
    }
    RecheckKeeps(r);
  }

  /** The second pass keeps a time with a start or an end, or whose raw text is not a hyphen range. */
  lemma RecheckKeeps(t: Times)
    requires !IsBlankOrNull(t.from) || !IsBlankOrNull(t.to) || IsBlankOrNull(t.raw) || !MatchesTimeRange(t.raw.value, false)
    ensures RecheckRange(t) == t
  {
  }

  /** A single time cell leaves a normalised time, which holds no hyphen. */
  lemma SingleCellRecheck(cell: Option<string>)
    requires !IsBlankOrNull(cell) && !MatchesTimeRange(cell.value, true)
    ensures RecheckRange(TimesFromCells(None, None, cell)) == TimesFromCells(None, None, cell)
  {
    var n := NormalizeTimeString(cell);
    assert TimesFromCells(None, None, cell) == Times(None, None, n);
    if n.Some? {
      NormalizedChars(cell);
      TimeTextPlain(n.value);
      NoHyphenDoesNotMatch(n.value, 0);
    }
  }

  /**
   * The second pass never changes anything: whenever start and end are
   * both still missing, the raw text is "null - null", a normalised time, or
   * missing, and none of these holds a hyphen range.
   */
  lemma RecheckNeverFires(from: Option<string>, to: Option<string>, cell: Option<string>)
    requires IsTimeValue(from) && IsTimeValue(to)
    ensures RecheckRange(TimesFromCells(from, to, cell)) == TimesFromCells(from, to, cell)
  {
    TimeValueBlank(from);
    TimeValueBlank(to);
    if from.None? && to.None? && !IsBlankOrNull(cell) {
      if MatchesTimeRange(cell.value, true) {
        RangeCellRecheck(cell);
      } else {
        SingleCellRecheck(cell);
      }
    }
  }

  /** Separate start and end columns win over the time column, and the raw text is built from them. */
  lemma SeparateColumnsWin(from: Option<string>, to: Option<string>, cell: Option<string>)
    requires IsTimeValue(from) && IsTimeValue(to) && (from.Some? || to.Some?)
    ensures TimesFromCells(from, to, cell).from == from && TimesFromCells(from, to, cell).to == to
    ensures TimesFromCells(from, to, cell).raw ==
              if from.Some? && to.Some? then Some(from.value + " - " + to.value)
              else if from.Some? then from else to
  {
    if from.Some? {
      TrimOfTrimmed(from.value);
    }
    if to.Some? {
      TrimOfTrimmed(to.value);
    }
  }

  /** A time cell "f - t" of two clock times, with no start or end column value, gives start f, end t and raw "f - t". */
  lemma RangeCellIsSplit(f: string, t: string)
    requires IsHourMinute(f) && IsHourMinute(t)
    ensures TimesFromCells(None, None, Some(f + " - " + t)) == Times(Some(f), Some(t), Some(f + " - " + t))
  {
    var s := f + " - " + t;
    HourMinuteIsTrimmed(f);
    HourMinuteIsTrimmed(t);
    TrimOfTrimmed(s);
    assert !IsBlankOrNull(Some(s)) by {
      assert s[0] == f[0];
      assert !IsTrimmable(s[0]);
      TrimShape(s);
    }
    JoinedTimesMatch(f, t, true);
    HourMinutePlain(f);
    HourMinutePlain(t);
    SplitTimeRangeJoin(f, t);
    NormalizeKeepsHourMinute(f);
    NormalizeKeepsHourMinute(t);
  }

  /** Whenever a booking has both a start and an end, its raw text splits back into them. */
  lemma RawSplitsBack(from: Option<string>, to: Option<string>, cell: Option<string>)
    requires IsTimeValue(from) && IsTimeValue(to)
    requires TimesFromCells(from, to, cell).from.Some? && TimesFromCells(from, to, cell).to.Some?
    ensures SplitTimeRange(TimesFromCells(from, to, cell).raw) ==
              (TimesFromCells(from, to, cell).from, TimesFromCells(from, to, cell).to)
  {
    var r := TimesFromCells(from, to, cell);
    if IsBlankOrNull(from) && IsBlankOrNull(to) && !IsBlankOrNull(cell) {
      var ft := SplitTimeRange(cell);
      NormalizedIsTimeValue(ft.0);
      NormalizedIsTimeValue(ft.1);
    } else {
      if from.Some? {
        TrimOfTrimmed(from.value);
      }
      if to.Some? {
        TrimOfTrimmed(to.value);
      }
    }
    SplitTimeRangeJoin(r.from.value, r.to.value);
  }

  /** Start and end columns, when present, always yield time values, so the second pass changes nothing. */
  lemma TimesOfIsFirstPass(row: Row, cols: Columns)
    ensures TimesOf(row, cols) ==
              TimesFromCells(
                if cols.from >= 0 then TrimOrNull(NormalizeTimeString(Some(CellText(row, cols.from)))) else None,
                if cols.to >= 0 then TrimOrNull(NormalizeTimeString(Some(CellText(row, cols.to)))) else None,
                OptionalCell(row, cols.time))
  {
    NormalizedIsTimeValue(Some(CellText(row, cols.from)));
    NormalizedIsTimeValue(Some(CellText(row, cols.to)));
    var from := if cols.from >= 0 then TrimOrNull(NormalizeTimeString(Some(CellText(row, cols.from)))) else None;
    var to := if cols.to >= 0 then TrimOrNull(NormalizeTimeString(Some(CellText(row, cols.to)))) else None;
    RecheckNeverFires(from, to, OptionalCell(row, cols.time));
  }

  // ---------------------------------------------------------------
  // The rows of the wanted customer
  // ---------------------------------------------------------------

  /** A row of a weekday sheet whose name matches the wanted customer, with its 1-based row number. */
  datatype Hit = Hit(sheetName: string, rowNumber: int, row: Row, cols: Columns)

  /** The row's name cell is not blank and, trimmed and lower-cased, equals `wanted` (already normalised). */
  predicate NameMatches(row: Row, col: int, wanted: string)
  {
    !IsBlankOrNull(Some(CellText(row, col))) && NormalizedName(CellText(row, col)) == wanted
  }

  /** The hit one row makes, if any; `n` is its 1-based row number. */
  function RowHit(sheetName: string, cols: Columns, wanted: string, row: Option<Row>, n: int): seq<Hit>
  {
    if row.Some? && NameMatches(row.value, cols.name, wanted) then [Hit(sheetName, n, row.value, cols)] else []
  }

  /**
   * The hits of the rows below a header row with 0-based index `headerRow`;
   * `rows[k]` has 1-based row number `headerRow + 2 + k`.
   */
  function RowHits(sheetName: string, cols: Columns, wanted: string, rows: seq<Option<Row>>, headerRow: int): seq<Hit>
  {
    if rows == [] then []
    else RowHits(sheetName, cols, wanted, rows[..|rows| - 1], headerRow) + RowHit(sheetName, cols, wanted, Last(rows), headerRow + 1 + |rows|)
  }

  /** The hits of one weekday sheet: none when it is missing, has no header row or no "name" column. */
  function SheetHits(wb: Workbook, desired: string, wanted: string): seq<Hit>
  {
    match GetSheet(wb, desired)
    case None => []
    case Some(sh) =>
      if sh.header.None? then []
      else
        var cols := ColumnsOf(sh.header.value.cells);
        if cols.name < 0 then [] else RowHits(desired, cols, wanted, sh.body, sh.header.value.rowNum)
  }

  /** The hits of the requested sheets, sheet by sheet in the order requested. */
  function Hits(wb: Workbook, sheetNames: seq<string>, wanted: string): seq<Hit>
  {
    if sheetNames == [] then []
    else Hits(wb, sheetNames[..|sheetNames| - 1], wanted) + SheetHits(wb, Last(sheetNames), wanted)
  }

  // ---------------------------------------------------------------
  // Contact details and bookings of one hit
  // ---------------------------------------------------------------

  datatype Field = Salutation | Title | FirstName | LastName | Email | Address

  /** The contact details gathered so far; `None` where no value has been found yet. */
  datatype Fields = Fields(
    salutation: Option<string>, title: Option<string>, firstName: Option<string>,
    lastName: Option<string>, email: Option<string>, address: Option<string>)
  {
    function Get(k: Field): Option<string>
    {
      match k
      case Salutation => salutation
      case Title => title
      case FirstName => firstName
      case LastName => lastName
      case Email => email
      case Address => address
    }
  }

  const NoFields := Fields(None, None, None, None, None, None)

  /** The value a hit offers for a field, which is taken if the field is still missing. */
  function Candidate(h: Hit, k: Field): Option<string>
  {
    match k
    case Salutation =>
      var s := OptionalCell(h.row, h.cols.salutation);
      if s.Some? && EqualsIgnoreCase("Herrn", s.value) then Some("Herr") else s
    case Title => OptionalCell(h.row, h.cols.title)
    case FirstName => OptionalCell(h.row, h.cols.firstName)
    case LastName => TrimOrNull(Some(CellText(h.row, h.cols.name)))
    case Email =>
      var v := OptionalCell(h.row, h.cols.mail);
      if !IsBlankOrNull(v) then v else None
    case Address =>
      var joined := Joined(" ", [OptionalCell(h.row, h.cols.address), OptionalCell(h.row, h.cols.address2)]);
      if !IsBlankOrNull(joined) then joined else None
  }

  /** A field keeps its first value. */
  function Keep(current: Option<string>, candidate: Option<string>): Option<string>
  {
    if current.Some? then current else candidate
  }

  function Absorb(f: Fields, h: Hit): (r: Fields)
  {
    Fields(
      Keep(f.salutation, Candidate(h, Salutation)),
      Keep(f.title, Candidate(h, Title)),
      Keep(f.firstName, Candidate(h, FirstName)),
      Keep(f.lastName, Candidate(h, LastName)),
      Keep(f.email, Candidate(h, Email)),
      Keep(f.address, Candidate(h, Address)))
  }

  /** The booking one hit adds. */
  function BookingOf(h: Hit): BookingEntry
  {
    var t := TimesOf(h.row, h.cols);
    BookingEntry(
      Some(h.sheetName), h.rowNumber,
      OptionalCell(h.row, h.cols.hall), OptionalCell(h.row, h.cols.court),
      t.from, t.to, t.raw,
      if h.cols.price >= 0 then ParsePriceSafe(Some(CellText(h.row, h.cols.price))) else None)
  }

  /** The state of `readCustomer` between two rows: the contact details and the bookings so far. */
  datatype Acc = Acc(fields: Fields, bookings: seq<BookingEntry>)

  function Step(a: Acc, h: Hit): Acc
  {
    Acc(Absorb(a.fields, h), a.bookings + [BookingOf(h)])
  }

  /** Taking in the hits in order. */
  function StepAll(a: Acc, hs: seq<Hit>): Acc
  {
    if hs == [] then a else Step(StepAll(a, hs[..|hs| - 1]), Last(hs))
  }

  /** The customer the hits describe, with `wanted` as the last name when none is found. */
  function Customer(hs: seq<Hit>, wanted: string): CustomerData
  {
    var a := StepAll(Acc(NoFields, []), hs);
    var f := a.fields;
    CustomerData(
      f.salutation, f.title, f.firstName,
      if f.lastName.None? then Some(wanted) else f.lastName,
      f.email, f.address, a.bookings)
  }

  /** `readCustomer`: the customer whose trimmed, lower-cased name is that of `wanted`. */
  function CustomerOf(wb: Workbook, wanted: string): CustomerData
  {
    Customer(Hits(wb, DefaultSheets, NormalizedName(wanted)), wanted)
  }

  // ---------------------------------------------------------------
  // The loops of readCustomer
  // ---------------------------------------------------------------

  /**
   * `readCustomer` over a workbook: the contact details of the first matching
   * rows and one booking per matching row, the wanted text as last name when
   * no row matches.
   */
  method ReadCustomer(wb: Workbook, wanted: string) returns (c: CustomerData)
    ensures c == CustomerOf(wb, wanted)
  {
    var wantedNorm := Lower(Trim(wanted));
    var a := Acc(NoFields, []);
    for i := 0 to |DefaultSheets|
      invariant a == StepAll(Acc(NoFields, []), Hits(wb, DefaultSheets[..i], wantedNorm))
    {
      ghost var before := a;
      var desired := DefaultSheets[i];
      a := ReadSheet(a, wb, desired, wantedNorm);
      SheetHitsStep(before, a, wb, DefaultSheets, i, desired, wantedNorm);
    }
    assert DefaultSheets[..|DefaultSheets|] == DefaultSheets;
    var lastName := a.fields.lastName;
    if lastName.None? {
      lastName := Some(wanted);
    }
    c := CustomerData(a.fields.salutation, a.fields.title, a.fields.firstName, lastName, a.fields.email, a.fields.address, a.bookings);
  }

  /** One weekday sheet: skipped when it is missing, has no header row or no "name" column. */
  method ReadSheet(a: Acc, wb: Workbook, desired: string, wanted: string) returns (a': Acc)
    ensures a' == StepAll(a, SheetHits(wb, desired, wanted))
  {
    a' := a;
    var sheet := GetSheet(wb, desired);
    if sheet.Some? && sheet.value.header.Some? {
      var header := sheet.value.header.value;
      var cols := FindColumns(header.cells);
      if cols.name >= 0 {
        a' := ReadSheetRows(a, desired, cols, wanted, sheet.value.body, header.rowNum);
      }
    }
  }

  /** The row loop over one sheet whose header row has 0-based index `headerRow`. */
  method ReadSheetRows(a: Acc, sheetName: string, cols: Columns, wanted: string, body: seq<Option<Row>>, headerRow: nat)
    returns (a': Acc)
    ensures a' == StepAll(a, RowHits(sheetName, cols, wanted, body, headerRow))
  {
    a' := a;
    for k := 0 to |body|
      invariant a' == StepAll(a, RowHits(sheetName, cols, wanted, body[..k], headerRow))
    {
      ghost var before := a';
      var n := headerRow + 2 + k;
      a' := ReadRow(a', sheetName, cols, wanted, body[k], n);
      RowHitsStep(a, before, a', sheetName, cols, wanted, body, headerRow, k, n);
    }
    assert body[..|body|] == body;
  }

  /** One row: a row whose name matches fills the still missing contact details and adds a booking. */
  method ReadRow(a: Acc, sheetName: string, cols: Columns, wanted: string, row: Option<Row>, n: int) returns (a': Acc)
    ensures a' == StepAll(a, RowHit(sheetName, cols, wanted, row, n))
  {
    a' := a;
    if row.None? {
      return;
    }
    var r := row.value;
    var rowName := CellText(r, cols.name);
    if IsBlankOrNull(Some(rowName)) || Lower(Trim(rowName)) != wanted {
      return;
    }
    a' := TakeIn(a, Hit(sheetName, n, r, cols));
    StepAllOne(a, Hit(sheetName, n, r, cols));
  }

  /** What a matching row does: fill the still missing contact details and add its booking. */
  method TakeIn(a: Acc, h: Hit) returns (a': Acc)
    ensures a' == Step(a, h)
  {
    var f := a.fields;
    var salutation := TakeField(f.salutation, h, Salutation);
    var title := TakeField(f.title, h, Title);
    var firstName := TakeField(f.firstName, h, FirstName);
    var lastName := TakeField(f.lastName, h, LastName);
    var email := TakeField(f.email, h, Email);
    var address := TakeField(f.address, h, Address);
    a' := Acc(Fields(salutation, title, firstName, lastName, email, address), a.bookings + [BookingOf(h)]);
  }

  /** One contact detail: a missing one takes the matching row's value, if the sheet has that column. */
  method TakeField(current: Option<string>, h: Hit, k: Field) returns (v: Option<string>)
    ensures v == Keep(current, Candidate(h, k))
  {
    v := current;
    if v.Some? {
      return;
    }
    var r := h.row;
    var cols := h.cols;
    match k
    case Salutation =>
      if cols.salutation >= 0 {
        v := TrimOrNull(Some(CellText(r, cols.salutation)));
        if v.Some? && EqualsIgnoreCase("Herrn", v.value) {
          v := Some("Herr");
        }
      }
    case Title =>
      if cols.title >= 0 {
        v := TrimOrNull(Some(CellText(r, cols.title)));
      }
    case FirstName =>
      if cols.firstName >= 0 {
        v := TrimOrNull(Some(CellText(r, cols.firstName)));
      }
    case LastName =>
      v := TrimOrNull(Some(CellText(r, cols.name)));
    case Email =>
      if cols.mail >= 0 {
        var m := TrimOrNull(Some(CellText(r, cols.mail)));
        if !IsBlankOrNull(m) {
          v := m;
        }
      }
    case Address =>
      var a1 := if cols.address >= 0 then TrimOrNull(Some(CellText(r, cols.address))) else None;
      var a2 := if cols.address2 >= 0 then TrimOrNull(Some(CellText(r, cols.address2))) else None;
      var joined := JoinNonBlank(" ", [a1, a2]);
      if !IsBlankOrNull(joined) {
        v := joined;
      }
  }

  lemma StepAllOne(a: Acc, h: Hit)
    ensures StepAll(a, [h]) == Step(a, h)
  {
    assert [h][..0] == [];
  }

  lemma RowHitsNext(sheetName: string, cols: Columns, wanted: string, rows: seq<Option<Row>>, headerRow: int, k: int, n: int)
    requires 0 <= k < |rows| && n == headerRow + 2 + k
    ensures RowHits(sheetName, cols, wanted, rows[..k + 1], headerRow) ==
              RowHits(sheetName, cols, wanted, rows[..k], headerRow) + RowHit(sheetName, cols, wanted, rows[k], n)
  {
    assert rows[..k + 1][..k] == rows[..k];
  }

  lemma RowHitsStep(a: Acc, x: Acc, y: Acc, sheetName: string, cols: Columns, wanted: string, body: seq<Option<Row>>, headerRow: int, k: int, n: int)
    requires 0 <= k < |body| && n == headerRow + 2 + k
    requires x == StepAll(a, RowHits(sheetName, cols, wanted, body[..k], headerRow))
    requires y == StepAll(x, RowHit(sheetName, cols, wanted, body[k], n))
    ensures y == StepAll(a, RowHits(sheetName, cols, wanted, body[..k + 1], headerRow))
  {
    RowHitsNext(sheetName, cols, wanted, body, headerRow, k, n);
    StepAllAppend(a, RowHits(sheetName, cols, wanted, body[..k], headerRow), RowHit(sheetName, cols, wanted, body[k], n));
  }

  /** Reading the rows is taking in their hits. */
  lemma {:induction false} StepAllAppend(a: Acc, xs: seq<Hit>, ys: seq<Hit>)
    ensures StepAll(a, xs + ys) == StepAll(StepAll(a, xs), ys)
    decreases |ys|
  {
    if ys == [] {
      assert xs + ys == xs;
    } else {
      var init := ys[..|ys| - 1];
      assert (xs + ys)[..|xs + ys| - 1] == xs + init;
      StepAllAppend(a, xs, init);
    }
  }

  lemma SheetHitsStep(x: Acc, y: Acc, wb: Workbook, sheetNames: seq<string>, i: int, desired: string, wanted: string)
    requires 0 <= i < |sheetNames| && desired == sheetNames[i]
    requires x == StepAll(Acc(NoFields, []), Hits(wb, sheetNames[..i], wanted))
    requires y == StepAll(x, SheetHits(wb, desired, wanted))
    ensures y == StepAll(Acc(NoFields, []), Hits(wb, sheetNames[..i + 1], wanted))
  {
    assert sheetNames[..i + 1][..i] == sheetNames[..i];
    StepAllAppend(Acc(NoFields, []), Hits(wb, sheetNames[..i], wanted), SheetHits(wb, desired, wanted));
  }

  // ---------------------------------------------------------------
  // What readCustomer returns
  // ---------------------------------------------------------------

  /** The values the hits offer for one contact detail, in order. */
  function Candidates(hs: seq<Hit>, k: Field): (r: seq<Option<string>>)
    ensures |r| == |hs|
  {
    if hs == [] then [] else Candidates(hs[..|hs| - 1], k) + [Candidate(Last(hs), k)]
  }

  lemma {:induction false} CandidatesAt(hs: seq<Hit>, k: Field, i: int)
    requires 0 <= i < |hs|
    ensures Candidates(hs, k)[i] == Candidate(hs[i], k)
    decreases |hs|
  {
    if i < |hs| - 1 {
      CandidatesAt(hs[..|hs| - 1], k, i);
    }
  }

  /** The bookings of the hits, one per hit and in order. */
  function BookingsOf(hs: seq<Hit>): (r: seq<BookingEntry>)
    ensures |r| == |hs|
  {
    if hs == [] then [] else BookingsOf(hs[..|hs| - 1]) + [BookingOf(Last(hs))]
  }

  lemma {:induction false} BookingsOfAt(hs: seq<Hit>, i: int)
    requires 0 <= i < |hs|
    ensures BookingsOf(hs)[i] == BookingOf(hs[i])
    decreases |hs|
  {
    if i < |hs| - 1 {
      BookingsOfAt(hs[..|hs| - 1], i);
    }
  }

  lemma AbsorbGet(f: Fields, h: Hit, k: Field)
    ensures Absorb(f, h).Get(k) == Keep(f.Get(k), Candidate(h, k))
  {
    match k
    case Salutation =>
    case Title =>
    case FirstName =>
    case LastName =>
    case Email =>
    case Address =>
  }

  /** Every contact detail keeps the first value found for it. */
  lemma {:induction false} StepAllFields(a: Acc, hs: seq<Hit>, k: Field)
    ensures StepAll(a, hs).fields.Get(k) == Keep(a.fields.Get(k), FirstSome(Candidates(hs, k)))
    decreases |hs|
  {
    if hs != [] {
      var init := hs[..|hs| - 1];
      StepAllFields(a, init, k);
      FirstSomeStep(Candidates(init, k), Candidate(Last(hs), k));
      AbsorbGet(StepAll(a, init).fields, Last(hs), k);
    }
  }

  /** Each hit adds exactly its own booking, in order. */
  lemma {:induction false} StepAllBookings(a: Acc, hs: seq<Hit>)
    ensures StepAll(a, hs).bookings == a.bookings + BookingsOf(hs)
    decreases |hs|
  {
    if hs == [] {
      assert a.bookings + BookingsOf(hs) == a.bookings;
    } else {
      var init := hs[..|hs| - 1];
      StepAllBookings(a, init);
      assert a.bookings + BookingsOf(init) + [BookingOf(Last(hs))] == a.bookings + (BookingsOf(init) + [BookingOf(Last(hs))]);
    }
  }

  /** Within a sheet, the hits are exactly the matching rows, top to bottom. */
  lemma {:induction false} RowHitsShape(sheetName: string, cols: Columns, wanted: string, rows: seq<Option<Row>>, headerRow: int)
    ensures forall i :: 0 <= i < |RowHits(sheetName, cols, wanted, rows, headerRow)| ==>
              var h := RowHits(sheetName, cols, wanted, rows, headerRow)[i];
              h.sheetName == sheetName && h.cols == cols && NameMatches(h.row, cols.name, wanted) &&
              headerRow + 2 <= h.rowNumber < headerRow + 2 + |rows| && rows[h.rowNumber - headerRow - 2] == Some(h.row)
    ensures forall i, j :: 0 <= i < j < |RowHits(sheetName, cols, wanted, rows, headerRow)| ==>
              RowHits(sheetName, cols, wanted, rows, headerRow)[i].rowNumber < RowHits(sheetName, cols, wanted, rows, headerRow)[j].rowNumber
    decreases |rows|
  {
    if rows != [] {
      var init := rows[..|rows| - 1];
      RowHitsShape(sheetName, cols, wanted, init, headerRow);
      assert forall x :: 0 <= x < |init| ==> rows[x] == init[x];
    }
  }

  /** Every existing row whose name matches is a hit. */
  lemma {:induction false} RowHitsComplete(sheetName: string, cols: Columns, wanted: string, rows: seq<Option<Row>>, headerRow: int, k: int)
    requires 0 <= k < |rows| && rows[k].Some? && NameMatches(rows[k].value, cols.name, wanted)
    ensures Hit(sheetName, headerRow + 2 + k, rows[k].value, cols) in RowHits(sheetName, cols, wanted, rows, headerRow)
    decreases |rows|
  {
    var init := rows[..|rows| - 1];
    if k < |init| {
      RowHitsComplete(sheetName, cols, wanted, init, headerRow, k);
    }
  }

  /** The hits of one sheet carry its requested name, have a "name" column, and their name matches. */
  lemma SheetHitsShape(wb: Workbook, desired: string, wanted: string)
    ensures forall i :: 0 <= i < |SheetHits(wb, desired, wanted)| ==>
              var h := SheetHits(wb, desired, wanted)[i];
              h.sheetName == desired && h.cols.name >= 0 && NameMatches(h.row, h.cols.name, wanted)
  {
    var sh := GetSheet(wb, desired);
    if sh.Some? && sh.value.header.Some? {
      var cols := ColumnsOf(sh.value.header.value.cells);
      if cols.name >= 0 {
        RowHitsShape(desired, cols, wanted, sh.value.body, sh.value.header.value.rowNum);
      }
    }
  }

  /** Every hit comes from a requested sheet with a "name" column, and its name matches. */
  lemma {:induction false} HitsShape(wb: Workbook, sheetNames: seq<string>, wanted: string)
    ensures forall i :: 0 <= i < |Hits(wb, sheetNames, wanted)| ==>
              var h := Hits(wb, sheetNames, wanted)[i];
              h.sheetName in sheetNames && h.cols.name >= 0 && NameMatches(h.row, h.cols.name, wanted)
    decreases |sheetNames|
  {
    if sheetNames != [] {
      var init := sheetNames[..|sheetNames| - 1];
      HitsShape(wb, init, wanted);
      SheetHitsShape(wb, Last(sheetNames), wanted);
      var xs := Hits(wb, init, wanted);
      var ys := SheetHits(wb, Last(sheetNames), wanted);
      assert Hits(wb, sheetNames, wanted) == xs + ys;
      var all: seq<Hit> := xs + ys;
      forall i | 0 <= i < |all|
        ensures all[i].sheetName in sheetNames
      {
        if i < |xs| {
          assert xs[i].sheetName in init;
        }
      }
    }
  }

  /** The value a hit offers is trimmed and never blank, and a salutation is never "Herrn". */
  lemma CandidateShape(h: Hit, k: Field)
    ensures Candidate(h, k).Some? ==> Candidate(h, k).value != [] && !IsBlankOrNull(Candidate(h, k))
    ensures k == Salutation && Candidate(h, k).Some? ==> !EqualsIgnoreCase("Herrn", Candidate(h, k).value)
  {
    var v := Candidate(h, k);
    if v.Some? {
      match k
      case Salutation =>
        var s := OptionalCell(h.row, h.cols.salutation);
        if s.Some? && EqualsIgnoreCase("Herrn", s.value) {
          assert |Lower("Herr")| != |Lower("Herrn")|;
          TrimOfTrimmed("Herr");
        } else {
          TrimOfTrimmed(s.value);
        }
      case Title => TrimOfTrimmed(v.value);
      case FirstName => TrimOfTrimmed(v.value);
      case LastName =>
        TrimOrNullIdempotent(Some(CellText(h.row, h.cols.name)));
      case Email =>
      case Address =>
    }
  }

  /** A hit always offers its trimmed name as the last name. */
  lemma LastNameOffered(h: Hit, wanted: string)
    requires NameMatches(h.row, h.cols.name, wanted)
    ensures Candidate(h, LastName) == Some(Trim(CellText(h.row, h.cols.name)))
  {
  }

  /** A detail taken by `FirstSome` is one a hit offered. */
  lemma FirstSomeOffered(hs: seq<Hit>, k: Field)
    ensures FirstSome(Candidates(hs, k)).Some? ==> exists i :: 0 <= i < |hs| && Candidate(hs[i], k) == FirstSome(Candidates(hs, k))
  {
    FirstSomeIsEarliest(Candidates(hs, k));
    if FirstSome(Candidates(hs, k)).Some? {
      var i :| 0 <= i < |hs| && Candidates(hs, k)[i] == FirstSome(Candidates(hs, k));
      CandidatesAt(hs, k, i);
    }
  }

  /** Contact detail `k` of a customer. */
  function Detail(c: CustomerData, k: Field): Option<string>
  {
    match k
    case Salutation => c.salutation
    case Title => c.title
    case FirstName => c.firstName
    case LastName => c.lastName
    case Email => c.email
    case Address => c.address
  }

  /**
   * The customer `readCustomer` returns: each contact detail other than the
   * last name is the first value the matching rows offer.
   */
  lemma CustomerIsFirstValues(hs: seq<Hit>, wanted: string, k: Field)
    requires k != LastName
    ensures Detail(Customer(hs, wanted), k) == FirstSome(Candidates(hs, k))
  {
    StepAllFields(Acc(NoFields, []), hs, k);
  }

  /** There is one booking per matching row, in sheet and row order. */
  lemma CustomerBookings(hs: seq<Hit>, wanted: string)
    ensures Customer(hs, wanted).bookings == BookingsOf(hs)
  {
    var a := Acc(NoFields, []);
    StepAllBookings(a, hs);
    assert a.bookings + BookingsOf(hs) == BookingsOf(hs);
  }

  /** The last name is the trimmed name of the first matching row, or the wanted text when no row matches. */
  lemma CustomerLastName(hs: seq<Hit>, wanted: string, w: string)
    requires hs != [] ==> NameMatches(hs[0].row, hs[0].cols.name, w)
    ensures Customer(hs, wanted).lastName ==
              if hs == [] then Some(wanted) else Some(Trim(CellText(hs[0].row, hs[0].cols.name)))
  {
    StepAllFields(Acc(NoFields, []), hs, LastName);
    if hs != [] {
      LastNameOffered(hs[0], w);
      CandidatesAt(hs, LastName, 0);
      FirstSomeOfHead(Candidates(hs, LastName));
    }
  }

  /** No matching row: no contact details, no bookings, and the wanted text as last name. */
  lemma CustomerNotFound(wanted: string)
    ensures Customer([], wanted) == CustomerData(None, None, None, Some(wanted), None, None, [])
  {
  }

  /**
   * No contact detail is blank and a salutation is never "Herrn": each is a
   * value some hit offered, and offered values have that shape.
   */
  lemma CustomerDetailsShape(hs: seq<Hit>, wanted: string, k: Field)
    requires k != LastName
    ensures var d := Detail(Customer(hs, wanted), k);
            (d.Some? ==> !IsBlankOrNull(d)) && (k == Salutation && d.Some? ==> !EqualsIgnoreCase("Herrn", d.value))
  {
    CustomerIsFirstValues(hs, wanted, k);
    FirstSomeOffered(hs, k);
    var d := FirstSome(Candidates(hs, k));
    if d.Some? {
      var i :| 0 <= i < |hs| && Candidate(hs[i], k) == d;
      CandidateShape(hs[i], k);
    }
  }

  /** A booking with both a start and an end has a raw time text that splits back into them. */
  lemma BookingTimesSplitBack(h: Hit)
    requires BookingOf(h).timeFrom.Some? && BookingOf(h).timeTo.Some?
    ensures SplitTimeRange(BookingOf(h).timeRaw) == (BookingOf(h).timeFrom, BookingOf(h).timeTo)
  {
    var row := h.row;
    var cols := h.cols;
    var from := if cols.from >= 0 then TrimOrNull(NormalizeTimeString(Some(CellText(row, cols.from)))) else None;
    var to := if cols.to >= 0 then TrimOrNull(NormalizeTimeString(Some(CellText(row, cols.to)))) else None;
    NormalizedIsTimeValue(Some(CellText(row, cols.from)));
    NormalizedIsTimeValue(Some(CellText(row, cols.to)));
    TimesOfIsFirstPass(row, cols);
    RawSplitsBack(from, to, OptionalCell(row, cols.time));
  }
}
