/**
 * The spreadsheet side of the invoice tool (class ExcelReader): header
 * lookup, the cell-text helpers, and the two aggregations over a workbook.
 * A cell is reduced to the text `getCellString` makes of it.
 */
module ExcelReader {
  import opened JavaText
  import opened Sequences

  // ---------------------------------------------------------------
  // Workbook
  // ---------------------------------------------------------------

  /** The text of each cell of a row by column index; `None` where the row has no cell. */
  type Row = seq<Option<string>>

  /** The header row (the first non-empty row of a sheet) and its 0-based row index. */
  datatype Header = Header(rowNum: nat, cells: Row)

  /**
   * A sheet: its name, its header row if it has a non-empty row, and the rows
   * below the header; `body[k]` is the row with 0-based index `rowNum + 1 + k`,
   * `None` where the sheet has no such row.
   */
  datatype Sheet = Sheet(name: string, header: Option<Header>, body: seq<Option<Row>>)

  type Workbook = seq<Sheet>

  /** A sheet name and a 1-based row number. */
  datatype RowRef = RowRef(sheetName: string, rowNumber: int)

  datatype BookingEntry = BookingEntry(
    sheet: Option<string>,
    rowNumber: int,
    hall: Option<string>,
    court: Option<string>,
    timeFrom: Option<string>,
    timeTo: Option<string>,
    timeRaw: Option<string>,
    price: Option<real>)

  datatype CustomerData = CustomerData(
    salutation: Option<string>,
    title: Option<string>,
    firstName: Option<string>,
    lastName: Option<string>,
    email: Option<string>,
    address: Option<string>,
    bookings: seq<BookingEntry>)

  /** The weekday sheets, in the order they are read. */
  const DefaultSheets: seq<string> := ["Mo", "Di", "Mi", "Do", "Fr", "Sa", "So"]

  /** `Workbook.getSheet`: the first sheet whose name equals `name` ignoring case. */
  function GetSheet(wb: Workbook, name: string): (r: Option<Sheet>)
    ensures r.Some? ==> r.value in wb && EqualsIgnoreCase(r.value.name, name)
    ensures r.None? ==> forall i :: 0 <= i < |wb| ==> !EqualsIgnoreCase(wb[i].name, name)
  {
    if wb == [] then None
    else if EqualsIgnoreCase(wb[0].name, name) then Some(wb[0])
    else GetSheet(wb[1..], name)
  }

  /** `getCellString(row.getCell(c))`: a missing cell reads as "". */
  function CellText(row: Row, c: int): string
  {
    if 0 <= c < |row| && row[c].Some? then row[c].value else ""
  }

  // ---------------------------------------------------------------
  // findColumnIndex
  // ---------------------------------------------------------------

  /** The normalised header names looked for: trimmed and lower-cased. */
  function Targets(wanted: seq<string>): set<string>
  {
    set h | h in wanted :: NormalizedName(h)
  }

  predicate HeaderMatch(cell: Option<string>, targets: set<string>)
  {
    cell.Some? && NormalizedName(cell.value) in targets
  }

  /** Which header cells match. */
  function HeaderMatches(cells: Row, targets: set<string>): (bs: seq<bool>)
    ensures |bs| == |cells|
  {
    seq(|cells|, i requires 0 <= i < |cells| => HeaderMatch(cells[i], targets))
  }

  /** The smallest column whose header text matches, or -1. */
  function ColumnIndex(cells: Row, targets: set<string>): (c: int)
    ensures -1 <= c < |cells|
    ensures c >= 0 ==> HeaderMatch(cells[c], targets)
    ensures c >= 0 ==> forall j :: 0 <= j < c ==> !HeaderMatch(cells[j], targets)
    ensures c == -1 ==> forall j :: 0 <= j < |cells| ==> !HeaderMatch(cells[j], targets)
  {
    var bs := HeaderMatches(cells, targets);
    var c := FirstTrue(bs);
    assert forall j :: 0 <= j < |cells| ==> bs[j] == HeaderMatch(cells[j], targets);
    c
  }

  /** The trimmed, lower-cased form in which header texts are compared. */
  function NormalizedName(s: string): string
  {
    Lower(Trim(s))
  }

  /**
   * `findColumnIndex`: the first header cell whose trimmed, lower-cased
   * text is one of the trimmed, lower-cased wanted names.  The result
   * depends on the wanted names only as a set.
   */
  method FindColumnIndex(header: Row, wanted: seq<string>) returns (c: int)
    ensures c == ColumnIndex(header, Targets(wanted))
  {
    var targets: set<string> := {};
    for i := 0 to |wanted|
      invariant targets == Targets(wanted[..i])
    {
      assert wanted[..i + 1] == wanted[..i] + [wanted[i]];
      targets := targets + {NormalizedName(wanted[i])};
    }
    assert wanted[..|wanted|] == wanted;
    c := FirstHeaderMatch(header, targets);
  }

  /** The scan of `findColumnIndex` over the header cells. */
  method FirstHeaderMatch(header: Row, targets: set<string>) returns (c: int)
    ensures c == ColumnIndex(header, targets)
  {
    c := 0;
    while c < |header|
      invariant 0 <= c <= |header|
      invariant forall j :: 0 <= j < c ==> !HeaderMatch(header[j], targets)
    {
      if header[c].Some? && NormalizedName(header[c].value) in targets {
        return;
      }
      c := c + 1;
    }
    c := -1;
  }

  // ---------------------------------------------------------------
  // isBlank / trimOrNull
  // ---------------------------------------------------------------

  /** `trimOrNull`: null for a null or whitespace-only text, the trimmed text otherwise. */
  function TrimOrNull(s: Option<string>): (r: Option<string>)
    ensures r.None? <==> IsBlankOrNull(s)
    ensures r.Some? ==> r.value == Trim(s.value) && r.value != [] && IsTrimmed(r.value)
  {
    TrimShape(OrEmpty(s));
    if IsBlankOrNull(s) then None else Some(Trim(s.value))
  }

  lemma TrimOrNullIdempotent(s: Option<string>)
    ensures TrimOrNull(TrimOrNull(s)) == TrimOrNull(s)
  {
    if TrimOrNull(s).Some? {
      TrimOfTrimmed(TrimOrNull(s).value);
    }
  }

  // ---------------------------------------------------------------
  // normalizeTimeString
  // ---------------------------------------------------------------

  /** `^\d{4}-\d{2}-\d{2}T\d{2}:\d{2}(:\d{2})?$`, the text of a date-formatted cell. */
  predicate IsIsoDateTime(t: string)
  {
    && (|t| == 16 || |t| == 19)
    && AllDigits(t[..4]) && t[4] == '-' && AllDigits(t[5..7]) && t[7] == '-' && AllDigits(t[8..10])
    && t[10] == 'T' && AllDigits(t[11..13]) && t[13] == ':' && AllDigits(t[14..16])
    && (|t| == 19 ==> t[16] == ':' && AllDigits(t[17..19]))
  }

  predicate IsTimeChar(c: char)
  {
    IsDigit(c) || c == ':'
  }

  /** `H:MM:`, what the first five characters of a one-digit-hour `H:MM:SS` are. */
  predicate IsTruncatedSeconds(v: string)
  {
    |v| == 5 && IsDigit(v[0]) && v[1] == ':' && IsDigit(v[2]) && IsDigit(v[3]) && v[4] == ':'
  }

  lemma FirstFiveOfSeconds(t: string)
    requires IsHourMinuteSecond(t)
    ensures IsHourMinute(t[..5]) || IsTruncatedSeconds(t[..5])
  {
  }

  lemma IsoTimeOfDay(t: string)
    requires IsIsoDateTime(t)
    ensures IsHourMinute(t[11..16])
  {
    assert t[11..13][0] == t[11] && t[11..13][1] == t[12];
    assert t[14..16][0] == t[14] && t[14..16][1] == t[15];
  }

  /** The retry on the text reduced to digits and colons. */
  function TimeFromDigitsAndColons(only: string): (r: Option<string>)
    ensures r.Some? ==> IsHourMinute(r.value) || IsTruncatedSeconds(r.value)
  {
    if IsHourMinute(only) then Some(only)
    else if IsHourMinuteSecond(only) then
      FirstFiveOfSeconds(only);
      Some(only[..5])
    else None
  }

  /** `normalizeTimeString` after the blank check, on the trimmed text. */
  function NormalizeTrimmed(t: string): (r: Option<string>)
    ensures r.Some? ==> IsHourMinute(r.value) || IsTruncatedSeconds(r.value)
  {
    if IsIsoDateTime(t) then
      IsoTimeOfDay(t);
      Some(t[11..16])
    else if IsHourMinuteSecond(t) then
      FirstFiveOfSeconds(t);
      Some(t[..5])
    else if IsHourMinute(t) then Some(t)
    else TimeFromDigitsAndColons(Filter(t, IsTimeChar))
  }

  /**
   * `normalizeTimeString`: null for blank text; otherwise the time of day
   * of an ISO date-time, the first five characters of an `H:MM:SS` form, an
   * `H:MM` form unchanged, or the same forms once everything but digits and
   * colons is removed; null when none of these fits.
   */
  function NormalizeTimeString(s: Option<string>): (r: Option<string>)
    ensures IsBlankOrNull(s) ==> r.None?
    ensures r.Some? ==> IsHourMinute(r.value) || IsTruncatedSeconds(r.value)
  {
    if IsBlankOrNull(s) then None else NormalizeTrimmed(Trim(s.value))
  }

  lemma HourMinuteIsNoOtherForm(v: string)
    requires IsHourMinute(v)
    ensures !IsIsoDateTime(v) && !IsHourMinuteSecond(v)
  {
    if |v| >= 3 { assert |v[..|v| - 3]| < 4; }
  }

  lemma NormalizeTrimmedKeepsHourMinute(v: string)
    requires IsHourMinute(v)
    ensures NormalizeTrimmed(v) == Some(v)
  {
    HourMinuteIsNoOtherForm(v);
  }

  /** An `H:MM`/`HH:MM` text comes back unchanged. */
  lemma NormalizeKeepsHourMinute(v: string)
    requires IsHourMinute(v)
    ensures NormalizeTimeString(Some(v)) == Some(v)
  {
    HourMinuteIsTrimmed(v);
    NormalizeTrimmedKeepsHourMinute(v);
  }

  /** So normalising twice is normalising once, whenever the result is an `H:MM`/`HH:MM` text. */
  lemma NormalizeIdempotentOnHourMinute(s: Option<string>)
    requires NormalizeTimeString(s).Some? && IsHourMinute(NormalizeTimeString(s).value)
    ensures NormalizeTimeString(NormalizeTimeString(s)) == NormalizeTimeString(s)
  {
    NormalizeKeepsHourMinute(NormalizeTimeString(s).value);
  }

  lemma FilterTimeCharsOfTimeChars(s: string)
    requires forall i :: 0 <= i < |s| ==> IsTimeChar(s[i])
    ensures Filter(s, IsTimeChar) == s
    decreases |s|
  {
    if s != [] {
      FilterTimeCharsOfTimeChars(s[1..]);
    }
  }

  /** A one-digit hour with seconds keeps its trailing colon ... */
  lemma NormalizeOneDigitHourSeconds()
    ensures NormalizeTimeString(Some("9:30:00")) == Some("9:30:")
  {
    var a := "9:30:00";
    assert a[..4] == "9:30" && IsHourMinute("9:30");
    assert IsHourMinuteSecond(a);
    assert !IsIsoDateTime(a);
    TrimOfTrimmed(a);
    assert a[..5] == "9:30:";
    assert NormalizeTrimmed(a) == Some("9:30:");
  }

  /** ... and that result is not accepted a second time. */
  lemma NormalizeTruncatedSecondsFails()
    ensures NormalizeTimeString(Some("9:30:")) == None
  {
    var b := "9:30:";
    TrimOfTrimmed(b);
    assert !IsHourMinuteSecond(b) by { assert b[..2] == "9:"; }
    assert !IsHourMinute(b) && !IsIsoDateTime(b);
    FilterTimeCharsOfTimeChars(b);
    assert TimeFromDigitsAndColons(b) == None;
    assert NormalizeTrimmed(b) == None;
  }

  /** A date-time cell gives its time of day, characters 11 to 16 of the trimmed text. */
  lemma NormalizeIsoDateTime(v: string)
    requires IsIsoDateTime(Trim(v))
    ensures NormalizeTimeString(Some(v)) == Some(Trim(v)[11..16])
  {
  }

  lemma SecondsAreNoDateTime(t: string)
    requires IsHourMinuteSecond(t)
    ensures !IsIsoDateTime(t) && !IsHourMinute(t) && |t| > 5
  {
  }

  /** An `H:MM:SS`/`HH:MM:SS` text gives its first five characters. */
  lemma NormalizeSeconds(v: string)
    requires IsHourMinuteSecond(Trim(v))
    ensures NormalizeTimeString(Some(v)) == Some(Trim(v)[..5])
  {
    SecondsAreNoDateTime(Trim(v));
  }

  /**
   * Text of none of the three forms is retried on its digits and colons:
   * a clock time there is the result, a time with seconds gives its first
   * five characters, anything else gives null.
   */
  lemma NormalizeRetry(v: string, only: string)
    requires !IsIsoDateTime(Trim(v)) && !IsHourMinuteSecond(Trim(v)) && !IsHourMinute(Trim(v))
    requires only == Filter(Trim(v), IsTimeChar)
    ensures IsHourMinute(only) ==> NormalizeTimeString(Some(v)) == Some(only)
    ensures IsHourMinuteSecond(only) ==> NormalizeTimeString(Some(v)) == Some(only[..5])
    ensures !IsHourMinute(only) && !IsHourMinuteSecond(only) ==> NormalizeTimeString(Some(v)) == None
  {
    if IsHourMinuteSecond(only) {
      SecondsAreNoDateTime(only);
    }
  }

  /** So a clock time followed by a word is read: `"9:30 Uhr"` gives `"9:30"`. */
  lemma NormalizeTimeWithWord()
    ensures NormalizeTimeString(Some("9:30 Uhr")) == Some("9:30")
  {
    var v := "9:30 Uhr";
    TrimOfTrimmed(v);
    assert !IsHourMinuteSecond(v) by { assert v[5] != ':'; }
    assert v == "9:30" + " Uhr";
    TimeCharsBeforeWord("9:30", " Uhr");
    NormalizeRetry(v, "9:30");
  }

  lemma TimeCharsBeforeWord(t: string, w: string)
    requires forall i :: 0 <= i < |t| ==> IsTimeChar(t[i])
    requires forall i :: 0 <= i < |w| ==> !IsTimeChar(w[i])
    ensures Filter(t + w, IsTimeChar) == t
  {
    NoTimeCharsInWord(w);
    FilterTimeCharsOfTimeChars(t);
    FilterAppend(t, w, IsTimeChar);
  }

  lemma {:induction false} NoTimeCharsInWord(w: string)
    requires forall i :: 0 <= i < |w| ==> !IsTimeChar(w[i])
    ensures Filter(w, IsTimeChar) == []
    decreases |w|
  {
    if w != [] {
      NoTimeCharsInWord(w[1..]);
    }
  }

  lemma {:induction false} FilterAppend(x: string, y: string, keep: char -> bool)
    ensures Filter(x + y, keep) == Filter(x, keep) + Filter(y, keep)
    decreases |x|
  {
    if x == [] {
      assert x + y == y;
    } else {
      assert (x + y)[0] == x[0] && (x + y)[1..] == x[1..] + y;
      FilterAppend(x[1..], y, keep);
    }
  }

  // ---------------------------------------------------------------
  // splitTimeRange
  // ---------------------------------------------------------------

  const EnDash: char := '\U{2013}'
  const EmDash: char := '\U{2014}'

  /** En and em dashes read as '-', then the text is trimmed. */
  function DashNormalized(s: string): string
  {
    Trim(ReplaceChar(ReplaceChar(s, EnDash, '-'), EmDash, '-'))
  }

  function NullIfEmpty(t: string): (r: Option<string>)
    ensures r.None? <==> t == []
  {
    if t == [] then None else Some(t)
  }

  /**
   * `splitTimeRange`: the trimmed text before and after the first dash
   * separator, each null when missing or empty.
   */
  function SplitTimeRange(raw: Option<string>): (r: (Option<string>, Option<string>))
    ensures IsBlankOrNull(raw) ==> r == (None, None)
    ensures r.0.Some? ==> r.0.value != [] && IsTrimmed(r.0.value)
    ensures r.1.Some? ==> r.1.value != [] && IsTrimmed(r.1.value)
  {
    if IsBlankOrNull(raw) then (None, None)
    else
      var parts := SplitAroundDash(DashNormalized(raw.value));
      var from := if |parts| > 0 then TrimShape(parts[0]); NullIfEmpty(Trim(parts[0])) else None;
      var to := if |parts| > 1 then TrimShape(parts[1]); NullIfEmpty(Trim(parts[1])) else None;
      (from, to)
  }

  /** Text without any kind of dash. */
  predicate NoDash(s: string)
  {
    '-' !in s && EnDash !in s && EmDash !in s
  }

  /** The range text `from + " - " + to` the reader itself builds splits back into its two ends. */
  lemma SplitTimeRangeJoin(f: string, t: string)
    requires f != [] && t != [] && IsTrimmed(f) && IsTrimmed(t) && NoDash(f) && NoDash(t)
    ensures SplitTimeRange(Some(f + " - " + t)) == (Some(f), Some(t))
  {
    var s := f + " - " + t;
    assert s[0] == f[0];
    TrimOfTrimmed(s);
    TrimShape(s);
    assert EnDash !in s && EmDash !in s;
    ReplaceCharAbsent(s, EnDash, '-');
    ReplaceCharAbsent(s, EmDash, '-');
    assert DashNormalized(s) == s;
    RegexSpaceIsTrimmable(f[|f| - 1]);
    RegexSpaceIsTrimmable(t[0]);
    SplitAroundDashJoin(f, t);
    TrimOfTrimmed(f);
    TrimOfTrimmed(t);
  }

  predicate IsDashChar(d: char)
  {
    d == '-' || d == EnDash || d == EmDash
  }

  /** An en or em dash between two dash-free ends reads as a hyphen. */
  lemma DashesNormalized(f: string, t: string, d: char)
    requires f != [] && t != [] && IsTrimmed(f) && IsTrimmed(t) && NoDash(f) && NoDash(t) && IsDashChar(d)
    ensures DashNormalized(f + " " + [d] + " " + t) == f + " - " + t
  {
    var s := f + " " + [d] + " " + t;
    var j := f + " - " + t;
    var r := ReplaceChar(ReplaceChar(s, EnDash, '-'), EmDash, '-');
    forall i | 0 <= i < |s|
      ensures r[i] == j[i]
    {
      if i < |f| {
        assert s[i] == f[i] && j[i] == f[i];
      } else if i >= |f| + 3 {
        assert s[i] == t[i - |f| - 3] && j[i] == t[i - |f| - 3];
      }
    }
    assert r == j;
    assert j[0] == f[0] && j[|j| - 1] == t[|t| - 1];
    TrimOfTrimmed(j);
  }

  /** A range written with an en or em dash splits like one written with a hyphen. */
  lemma SplitTimeRangeDashes(f: string, t: string, d: char)
    requires f != [] && t != [] && IsTrimmed(f) && IsTrimmed(t) && NoDash(f) && NoDash(t) && IsDashChar(d)
    ensures SplitTimeRange(Some(f + " " + [d] + " " + t)) == (Some(f), Some(t))
  {
    var s := f + " " + [d] + " " + t;
    assert s[0] == f[0];
    TrimOfTrimmed(s);
    TrimShape(s);
    DashesNormalized(f, t, d);
    RegexSpaceIsTrimmable(f[|f| - 1]);
    RegexSpaceIsTrimmable(t[0]);
    SplitAroundDashJoin(f, t);
    TrimOfTrimmed(f);
    TrimOfTrimmed(t);
  }

  // ---------------------------------------------------------------
  // parsePriceSafe
  // ---------------------------------------------------------------

  predicate IsNotRegexSpace(c: char)
  {
    !IsRegexSpace(c)
  }

  const Euro: string := "\U{20AC}"

  /**
   * The text `parsePriceSafe` hands to `Double.parseDouble`: trimmed, the
   * euro sign and "EUR" removed, all whitespace removed, every '.' removed
   * (as a thousands separator) and every ',' turned into '.'.
   */
  function PriceText(raw: string): string
  {
    var s1 := Replace(Trim(raw), Euro, "");
    var s2 := Replace(s1, "EUR", "");
    var s3 := Filter(s2, IsNotRegexSpace);
    var s4 := Replace(s3, ".", "");
    ReplaceChar(s4, ',', '.')
  }

  function Pow10(n: nat): (r: nat)
    ensures r >= 1
  {
    if n == 0 then 1 else 10 * Pow10(n - 1)
  }

  /** Digits with at most one '.', and at least one digit. */
  predicate IsMantissa(m: string)
  {
    if '.' in m then
      var i := IndexOf(m, '.');
      AllDigits(m[..i]) && AllDigits(m[i + 1..]) && |m| >= 2
    else AllDigits(m) && |m| >= 1
  }

  function MantissaValue(m: string): real
    requires IsMantissa(m)
  {
    if '.' in m then
      var i := IndexOf(m, '.');
      (DigitsValue(m[..i] + m[i + 1..]) as real) / (Pow10(|m| - i - 1) as real)
    else DigitsValue(m) as real
  }

  /** An exponent: an optional sign and at least one digit. */
  function ExponentValue(e: string): Option<int>
  {
    if e != [] && (e[0] == '+' || e[0] == '-') then
      if e[1..] != [] && AllDigits(e[1..]) then
        var d: int := DigitsValue(e[1..]);
        Some(if e[0] == '-' then -d else d)
      else None
    else if e != [] && AllDigits(e) then Some(DigitsValue(e))
    else None
  }

  function Scale(x: real, e: int): real
  {
    if e >= 0 then x * (Pow10(e) as real) else x / (Pow10(-e) as real)
  }

  predicate IsExponentMark(c: char) { c == 'e' || c == 'E' }

  function IndexOfExponent(s: string): (i: nat)
    ensures i <= |s|
    ensures i < |s| ==> IsExponentMark(s[i])
    ensures forall j :: 0 <= j < i ==> !IsExponentMark(s[j])
  {
    if s == [] || IsExponentMark(s[0]) then 0 else 1 + IndexOfExponent(s[1..])
  }

  /** The text after an optional leading sign. */
  function Unsigned(t: string): (r: string)
    ensures |r| <= |t|
  {
    if t != [] && (t[0] == '+' || t[0] == '-') then t[1..] else t
  }

  /** The text without an optional trailing f/F/d/D type suffix. */
  function WithoutTypeSuffix(u: string): (r: string)
    ensures |r| <= |u|
  {
    if u != [] && u[|u| - 1] in "fFdD" then u[..|u| - 1] else u
  }

  /** The value of an unsigned mantissa with an optional exponent. */
  function UnsignedValue(v: string): Option<real>
  {
    var i := IndexOfExponent(v);
    var mant := v[..i];
    var exp := if i < |v| then ExponentValue(v[i + 1..]) else Some(0);
    if IsMantissa(mant) && exp.Some? then Some(Scale(MantissaValue(mant), exp.value)) else None
  }

  /**
   * `Double.parseDouble` on decimal text, as an exact number: trimmed, an
   * optional sign, digits with an optional '.', an optional exponent and an
   * optional f/F/d/D suffix.
   */
  function ParseDouble(s: string): Option<real>
  {
    var t := Trim(s);
    match UnsignedValue(WithoutTypeSuffix(Unsigned(t)))
    case None => None
    case Some(x) => Some(if t != [] && t[0] == '-' then -x else x)
  }

  /** `parsePriceSafe`: null for blank text, else the number in the cleaned text, or null. */
  function ParsePriceSafe(raw: Option<string>): (r: Option<real>)
    ensures IsBlankOrNull(raw) ==> r.None?
  {
    if IsBlankOrNull(raw) then None else ParseDouble(PriceText(raw.value))
  }

  lemma {:induction false} ReplaceOneCharAppend(x: string, y: string, c: char, rep: string)
    ensures Replace(x + y, [c], rep) == Replace(x, [c], rep) + Replace(y, [c], rep)
    decreases |x|
  {
    if x == [] {
      assert x + y == y;
    } else {
      assert (x + y)[..1] == x[..1];
      assert HasPrefix(x + y, [c]) == HasPrefix(x, [c]);
      assert (x + y)[1..] == x[1..] + y;
      ReplaceOneCharAppend(x[1..], y, c, rep);
    }
  }

  lemma {:induction false} FilterKeepsAll(s: string, keep: char -> bool)
    requires forall i :: 0 <= i < |s| ==> keep(s[i])
    ensures Filter(s, keep) == s
    decreases |s|
  {
    if s != [] {
      FilterKeepsAll(s[1..], keep);
    }
  }

  /** Text made of digits, dots and commas only. */
  predicate IsNumberText(s: string)
  {
    forall i :: 0 <= i < |s| ==> IsDigit(s[i]) || s[i] == '.' || s[i] == ','
  }

  lemma NumberTextLacks(s: string, c: char)
    requires IsNumberText(s) && !IsDigit(c) && c != '.' && c != ','
    ensures c !in s
  {
  }

  lemma NumberTextHasNoSpace(s: string)
    requires IsNumberText(s)
    ensures forall i :: 0 <= i < |s| ==> IsNotRegexSpace(s[i])
  {
  }

  /** Text of digits, dots and commas goes through the cleaning with only '.' removed and ',' made '.'. */
  lemma PriceTextOfNumber(s: string)
    requires s != [] && IsNumberText(s)
    ensures PriceText(s) == ReplaceChar(Replace(s, ".", ""), ',', '.')
  {
    assert !IsTrimmable(s[0]) && !IsTrimmable(s[|s| - 1]);
    TrimOfTrimmed(s);
    NumberTextLacks(s, Euro[0]);
    ReplaceAbsent(s, Euro, "");
    NumberTextLacks(s, 'E');
    ReplaceAbsent(s, "EUR", "");
    NumberTextHasNoSpace(s);
    FilterKeepsAll(s, IsNotRegexSpace);
  }

  /** Text before the pattern's first character is copied as it stands. */
  lemma {:induction false} ReplaceAfterAbsent(x: string, y: string, pat: string, rep: string)
    requires pat != [] && pat[0] !in x
    ensures Replace(x + y, pat, rep) == x + Replace(y, pat, rep)
    decreases |x|
  {
    if x == [] {
      assert x + y == y;
    } else {
      assert (x + y)[0] == x[0] && (x + y)[1..] == x[1..] + y;
      ReplaceAfterAbsent(x[1..], y, pat, rep);
    }
  }

  lemma {:induction false} FilterDropsSpace(n: string)
    requires IsNumberText(n)
    ensures Filter(n + " ", IsNotRegexSpace) == n
    decreases |n|
  {
    if n == [] {
      assert n + " " == " ";
    } else {
      assert (n + " ")[0] == n[0] && (n + " ")[1..] == n[1..] + " ";
      FilterDropsSpace(n[1..]);
    }
  }

  lemma ReplaceWholeEuro()
    ensures Replace(Euro, Euro, "") == ""
  {
    assert HasPrefix(Euro, Euro) && Euro[|Euro|..] == [];
  }

  lemma ReplaceSpacedEur()
    ensures Replace(" EUR", "EUR", "") == " "
  {
    var e := " EUR";
    assert e[..3] != "EUR" by { assert e[..3][0] == ' '; }
    assert e[1..] == "EUR";
    assert HasPrefix("EUR", "EUR") && "EUR"[3..] == [];
  }

  /** A trailing `" €"` is cleaned away: the number before it is read alone. */
  lemma PriceTextDropsEuroSign(n: string)
    requires n != [] && IsNumberText(n)
    ensures PriceText(n + " " + Euro) == PriceText(n)
  {
    var raw := n + " " + Euro;
    assert raw[0] == n[0] && raw[|raw| - 1] == Euro[0];
    assert !IsTrimmable(n[0]);
    TrimOfTrimmed(raw);
    NumberTextLacks(n, Euro[0]);
    NumberTextLacks(n, 'E');
    ReplaceAfterAbsent(n + " ", Euro, Euro, "");
    ReplaceWholeEuro();
    assert Replace(raw, Euro, "") == n + " ";
    ReplaceAbsent(n + " ", "EUR", "");
    FilterDropsSpace(n);
    PriceTextOfNumber(n);
  }

  /** A trailing `" EUR"` is cleaned away just as well. */
  lemma PriceTextDropsEur(n: string)
    requires n != [] && IsNumberText(n)
    ensures PriceText(n + " EUR") == PriceText(n)
  {
    var raw := n + " EUR";
    assert raw[0] == n[0] && raw[|raw| - 1] == 'R';
    assert !IsTrimmable(n[0]);
    TrimOfTrimmed(raw);
    NumberTextLacks(n, Euro[0]);
    NumberTextLacks(n, 'E');
    ReplaceAbsent(raw, Euro, "");
    ReplaceAfterAbsent(n, " EUR", "EUR", "");
    ReplaceSpacedEur();
    assert Replace(raw, "EUR", "") == n + " ";
    FilterDropsSpace(n);
    PriceTextOfNumber(n);
  }

  /** The price text of digits, a thousands '.', digits, a decimal ',' and digits. */
  lemma PriceTextOfGrouped(a: string, b: string, c: string)
    requires AllDigits(a) && AllDigits(b) && AllDigits(c)
    ensures PriceText(a + "." + b + "," + c) == (a + b) + "." + c
  {
    var n := a + "." + b + "," + c;
    assert IsNumberText(n);
    PriceTextOfNumber(n);
    ReplaceOneCharAppend(a + "." + b, "," + c, '.', "");
    DropDotBetweenDigits(a, b);
    assert n == (a + "." + b) + ("," + c);
    ReplaceAbsent("," + c, ".", "");
    assert Replace(n, ".", "") == (a + b) + "," + c;
    CommaBetweenDigitsToDot(a + b, c);
  }

  /**
   * A German price with a thousands dot, a decimal comma and the euro sign:
   * `"1.234,50 €"` is 1234.50.
   */
  lemma PriceWithEuroSign(a: string, b: string, c: string)
    requires a != [] && b != [] && c != [] && AllDigits(a) && AllDigits(b) && AllDigits(c)
    ensures ParsePriceSafe(Some(a + "." + b + "," + c + " " + Euro))
              == Some((DigitsValue(a + b + c) as real) / (Pow10(|c|) as real))
  {
    var n := a + "." + b + "," + c;
    var raw := n + " " + Euro;
    assert raw[0] == a[0] && !IsTrimmable(a[0]);
    TrimOfTrimmed(raw);
    assert IsNumberText(n);
    PriceTextDropsEuroSign(n);
    PriceTextOfGrouped(a, b, c);
    ParseDoubleOfDecimal(a + b, c);
  }

  /** The same price written with "EUR". */
  lemma PriceWithEur(a: string, b: string, c: string)
    requires a != [] && b != [] && c != [] && AllDigits(a) && AllDigits(b) && AllDigits(c)
    ensures ParsePriceSafe(Some(a + "." + b + "," + c + " EUR"))
              == Some((DigitsValue(a + b + c) as real) / (Pow10(|c|) as real))
  {
    var n := a + "." + b + "," + c;
    var raw := n + " EUR";
    assert raw[0] == a[0] && !IsTrimmable(a[0]);
    TrimOfTrimmed(raw);
    assert IsNumberText(n);
    PriceTextDropsEur(n);
    PriceTextOfGrouped(a, b, c);
    ParseDoubleOfDecimal(a + b, c);
  }

  lemma {:induction false} ReplaceDotInDigits(a: string)
    requires AllDigits(a)
    ensures Replace(a, ".", "") == a
  {
    ReplaceAbsent(a, ".", "");
  }

  lemma IndexOfExponentAbsent(s: string)
    requires forall i :: 0 <= i < |s| ==> !IsExponentMark(s[i])
    ensures IndexOfExponent(s) == |s|
  {
    if s != [] {
      IndexOfExponentAbsent(s[1..]);
    }
  }

  /** Text that starts and ends with a digit has no sign and no type suffix to strip. */
  lemma DigitBoundedIsBare(t: string)
    requires t != [] && IsDigit(t[0]) && IsDigit(t[|t| - 1])
    ensures WithoutTypeSuffix(Unsigned(t)) == t
  {
    assert !(t[|t| - 1] in "fFdD");
  }

  lemma UnsignedValueOfDigits(d: string)
    requires d != [] && AllDigits(d)
    ensures UnsignedValue(d) == Some(DigitsValue(d) as real)
  {
    assert '.' !in d;
    UnsignedValueOfMantissa(d);
  }

  lemma ParseDoubleOfDigits(d: string)
    requires d != [] && AllDigits(d)
    ensures ParseDouble(d) == Some(DigitsValue(d) as real)
  {
    TrimOfTrimmed(d);
    DigitBoundedIsBare(d);
    UnsignedValueOfDigits(d);
  }

  lemma DotIndexOfDecimal(a: string, b: string)
    requires AllDigits(a)
    ensures '.' in a + "." + b && IndexOf(a + "." + b, '.') == |a|
  {
    var t := a + "." + b;
    assert t[|a|] == '.';
    assert t[..|a|] == a;
  }

  lemma MantissaOfDecimal(a: string, b: string)
    requires a != [] && b != [] && AllDigits(a) && AllDigits(b)
    ensures IsMantissa(a + "." + b)
    ensures MantissaValue(a + "." + b) == (DigitsValue(a + b) as real) / (Pow10(|b|) as real)
  {
    var t := a + "." + b;
    DotIndexOfDecimal(a, b);
    assert t[..|a|] == a && t[|a| + 1..] == b;
  }

  /** Without an exponent the value is the mantissa's. */
  lemma UnsignedValueOfMantissa(m: string)
    requires IsMantissa(m) && forall i :: 0 <= i < |m| ==> !IsExponentMark(m[i])
    ensures UnsignedValue(m) == Some(MantissaValue(m))
  {
    IndexOfExponentAbsent(m);
    assert m[..IndexOfExponent(m)] == m;
    ScaleByZero(MantissaValue(m));
  }

  lemma ScaleByZero(x: real)
    ensures Scale(x, 0) == x
  {
    assert Pow10(0) == 1;
  }

  lemma UnsignedValueOfDecimal(a: string, b: string)
    requires a != [] && b != [] && AllDigits(a) && AllDigits(b)
    ensures UnsignedValue(a + "." + b) == Some((DigitsValue(a + b) as real) / (Pow10(|b|) as real))
  {
    DigitsAroundMark(a, '.', b);
    MantissaOfDecimal(a, b);
    UnsignedValueOfMantissa(a + "." + b);
  }

  /** `Double.parseDouble` of digits, '.', digits. */
  lemma ParseDoubleOfDecimal(a: string, b: string)
    requires a != [] && b != [] && AllDigits(a) && AllDigits(b)
    ensures ParseDouble(a + "." + b) == Some((DigitsValue(a + b) as real) / (Pow10(|b|) as real))
  {
    var t := a + "." + b;
    assert t[0] == a[0] && t[|t| - 1] == b[|b| - 1];
    TrimOfTrimmed(t);
    DigitBoundedIsBare(t);
    UnsignedValueOfDecimal(a, b);
  }

  /** A price of plain digits is that whole number. */
  lemma PriceOfDigits(d: string)
    requires d != [] && AllDigits(d)
    ensures ParsePriceSafe(Some(d)) == Some(DigitsValue(d) as real)
  {
    TrimOfTrimmed(d);
    assert !IsBlankOrNull(Some(d));
    PriceTextOfNumber(d);
    ReplaceDotInDigits(d);
    assert ',' !in d;
    ReplaceCharAbsent(d, ',', '.');
    ParseDoubleOfDigits(d);
  }

  lemma DigitsAroundMark(a: string, m: char, b: string)
    requires AllDigits(a) && AllDigits(b) && (m == '.' || m == ',')
    ensures IsNumberText(a + [m] + b)
  {
  }

  /** Removing '.' from digits, a '.', digits leaves the digits. */
  lemma DropDotBetweenDigits(a: string, b: string)
    requires AllDigits(a) && AllDigits(b)
    ensures Replace(a + "." + b, ".", "") == a + b
  {
    ReplaceOneCharAppend(a + ".", b, '.', "");
    ReplaceOneCharAppend(a, ".", '.', "");
    ReplaceDotInDigits(a);
    ReplaceDotInDigits(b);
    assert Replace(".", ".", "") == "";
  }

  /** Removing '.' from digits, a ',', digits changes nothing. */
  lemma KeepCommaBetweenDigits(a: string, b: string)
    requires AllDigits(a) && AllDigits(b)
    ensures Replace(a + "," + b, ".", "") == a + "," + b
  {
    assert '.' !in a + "," + b by {
      forall i | 0 <= i < |a + "," + b| ensures (a + "," + b)[i] != '.' {
        if i < |a| { assert (a + "," + b)[i] == a[i]; }
        else if i > |a| { assert (a + "," + b)[i] == b[i - |a| - 1]; }
      }
    }
    ReplaceAbsent(a + "," + b, ".", "");
  }

  /** On non-blank trimmed text the price is the number in its cleaned text. */
  lemma PriceOfTrimmed(s: string)
    requires s != [] && IsTrimmed(s)
    ensures ParsePriceSafe(Some(s)) == ParseDouble(PriceText(s))
  {
    TrimOfTrimmed(s);
  }

  lemma PriceTextOfDot(a: string, b: string)
    requires a != [] && b != [] && AllDigits(a) && AllDigits(b)
    ensures PriceText(a + "." + b) == a + b
  {
    var s := a + "." + b;
    assert s[0] == a[0] && s[|s| - 1] == b[|b| - 1];
    DigitsAroundMark(a, '.', b);
    PriceTextOfNumber(s);
    DropDotBetweenDigits(a, b);
    assert ',' !in a + b;
    ReplaceCharAbsent(a + b, ',', '.');
  }

  lemma PriceTextOfComma(a: string, b: string)
    requires a != [] && b != [] && AllDigits(a) && AllDigits(b)
    ensures PriceText(a + "," + b) == a + "." + b
  {
    var s := a + "," + b;
    assert s[0] == a[0] && s[|s| - 1] == b[|b| - 1];
    DigitsAroundMark(a, ',', b);
    PriceTextOfNumber(s);
    KeepCommaBetweenDigits(a, b);
    CommaBetweenDigitsToDot(a, b);
  }

  lemma CommaBetweenDigitsToDot(a: string, b: string)
    requires AllDigits(a) && AllDigits(b)
    ensures ReplaceChar(a + "," + b, ',', '.') == a + "." + b
  {
    var s := a + "," + b;
    var r := ReplaceChar(s, ',', '.');
    forall i | 0 <= i < |s| ensures r[i] == (a + "." + b)[i] {
      if i < |a| {
        assert s[i] == a[i];
      } else if i > |a| {
        assert s[i] == b[i - |a| - 1];
      }
    }
  }

  /**
   * A '.' is taken as a thousands separator and dropped, whatever follows it:
   * "290.00" is the price 29000.
   */
  lemma PriceDotIsDropped(a: string, b: string)
    requires a != [] && b != [] && AllDigits(a) && AllDigits(b)
    ensures ParsePriceSafe(Some(a + "." + b)) == Some(DigitsValue(a + b) as real)
  {
    var s := a + "." + b;
    assert s[0] == a[0] && s[|s| - 1] == b[|b| - 1];
    PriceOfTrimmed(s);
    PriceTextOfDot(a, b);
    ParseDoubleOfDigits(a + b);
  }

  /** A ',' is the decimal separator: "290,00" is the price 290. */
  lemma PriceCommaIsDecimal(a: string, b: string)
    requires a != [] && b != [] && AllDigits(a) && AllDigits(b)
    ensures ParsePriceSafe(Some(a + "," + b)) == Some((DigitsValue(a + b) as real) / (Pow10(|b|) as real))
  {
    var s := a + "," + b;
    assert s[0] == a[0] && s[|s| - 1] == b[|b| - 1];
    PriceOfTrimmed(s);
    PriceTextOfComma(a, b);
    ParseDoubleOfDecimal(a, b);
  }

  lemma PriceTextOfWord()
    ensures PriceText("abc") == "abc"
  {
    var w := "abc";
    TrimOfTrimmed(w);
    assert Euro[0] !in w && 'E' !in w && '.' !in w && ',' !in w;
    ReplaceAbsent(w, Euro, "");
    ReplaceAbsent(w, "EUR", "");
    FilterKeepsAll(w, IsNotRegexSpace);
    ReplaceAbsent(w, ".", "");
    ReplaceCharAbsent(w, ',', '.');
  }

  lemma ParseDoubleOfWord()
    ensures ParseDouble("abc") == None
  {
    var w := "abc";
    TrimOfTrimmed(w);
    assert WithoutTypeSuffix(Unsigned(w)) == w;
    IndexOfExponentAbsent(w);
    assert w[..3] == w;
    assert !AllDigits(w) && '.' !in w;
  }

  /** Text with no digit is no price. */
  lemma PriceOfWord()
    ensures ParsePriceSafe(Some("abc")) == None
  {
    PriceOfTrimmed("abc");
    PriceTextOfWord();
    ParseDoubleOfWord();
  }

  // ---------------------------------------------------------------
  // joinNonBlank
  // ---------------------------------------------------------------

  /** The trimmed text of each part that is neither null nor `isBlank()`, in order. */
  function NonBlankTrimmed(parts: seq<Option<string>>): (r: seq<string>)
    ensures |r| <= |parts|
  {
    if parts == [] then []
    else
      var p := parts[|parts| - 1];
      NonBlankTrimmed(parts[..|parts| - 1]) + (if p.Some? && !IsBlank(p.value) then [Trim(p.value)] else [])
  }

  /** The list without its leading empty strings. */
  function DropLeadingEmpty(ps: seq<string>): (r: seq<string>)
    ensures r == [] || r[0] != []
    ensures |r| <= |ps| && r == ps[|ps| - |r|..]
  {
    if ps != [] && ps[0] == [] then DropLeadingEmpty(ps[1..]) else ps
  }

  /** The strings of `ps` with `sep` between neighbours. */
  function JoinWith(ps: seq<string>, sep: string): string
  {
    if ps == [] then [] else if |ps| == 1 then ps[0] else JoinWith(ps[..|ps| - 1], sep) + sep + Last(ps)
  }

  /**
   * What `joinNonBlank` returns: null when no part is left, else the
   * trimmed parts joined by `sep`.  A part that is not blank in the sense of
   * `isBlank()` but trims to "" (control characters only) counts once the
   * result is non-empty: it then adds a separator and nothing else.
   */
  function Joined(sep: string, parts: seq<Option<string>>): Option<string>
  {
    var ps := DropLeadingEmpty(NonBlankTrimmed(parts));
    if ps == [] then None else Some(JoinWith(ps, sep))
  }

  lemma DropLeadingEmptyAppend(ps: seq<string>, x: string)
    ensures DropLeadingEmpty(ps + [x]) ==
              if DropLeadingEmpty(ps) == [] then (if x == [] then [] else [x]) else DropLeadingEmpty(ps) + [x]
  {
    if ps != [] {
      assert (ps + [x])[1..] == ps[1..] + [x];
      if ps[0] == [] {
        DropLeadingEmptyAppend(ps[1..], x);
      }
    }
  }

  lemma JoinWithAppend(ps: seq<string>, x: string, sep: string)
    requires ps != []
    ensures JoinWith(ps + [x], sep) == JoinWith(ps, sep) + sep + x
  {
    assert (ps + [x])[..|ps|] == ps;
  }

  lemma JoinWithNonEmpty(ps: seq<string>, sep: string)
    requires ps != [] && ps[0] != []
    ensures JoinWith(ps, sep) != []
  {
    if |ps| > 1 {
      assert ps[..|ps| - 1][0] == ps[0];
      JoinWithNonEmpty(ps[..|ps| - 1], sep);
    }
  }

  /** The builder's text after the parts seen so far: the joined text, or "" while nothing is kept. */
  function JoinedText(sep: string, parts: seq<Option<string>>): string
  {
    var ps := DropLeadingEmpty(NonBlankTrimmed(parts));
    if ps == [] then "" else JoinWith(ps, sep)
  }

  lemma JoinedTextEmpty(sep: string, parts: seq<Option<string>>)
    ensures JoinedText(sep, parts) == [] <==> Joined(sep, parts).None?
    ensures Joined(sep, parts).Some? ==> Joined(sep, parts).value == JoinedText(sep, parts)
  {
    var ps := DropLeadingEmpty(NonBlankTrimmed(parts));
    if ps != [] {
      JoinWithNonEmpty(ps, sep);
    }
  }

  /** One loop step of `joinNonBlank`: a null or blank part is skipped, another is appended after a separator once the text is non-empty. */
  function AppendPart(sb: string, sep: string, p: Option<string>): string
  {
    if p.None? || IsBlank(p.value) then sb
    else if sb == [] then Trim(p.value)
    else sb + sep + Trim(p.value)
  }

  lemma JoinedTextStep(sep: string, parts: seq<Option<string>>, p: Option<string>)
    ensures JoinedText(sep, parts + [p]) == AppendPart(JoinedText(sep, parts), sep, p)
  {
    var before := NonBlankTrimmed(parts);
    assert (parts + [p])[..|parts|] == parts;
    if p.Some? && !IsBlank(p.value) {
      var t := Trim(p.value);
      assert NonBlankTrimmed(parts + [p]) == before + [t];
      DropLeadingEmptyAppend(before, t);
      JoinedTextEmpty(sep, parts);
      if DropLeadingEmpty(before) != [] {
        JoinWithAppend(DropLeadingEmpty(before), t, sep);
      }
    } else {
      assert NonBlankTrimmed(parts + [p]) == before;
    }
  }

  /** The body of the loop in `joinNonBlank`. */
  method AppendNonBlank(sb: string, sep: string, p: Option<string>) returns (r: string)
    ensures r == AppendPart(sb, sep, p)
  {
    r := sb;
    if p.Some? && !IsBlank(p.value) {
      if |r| > 0 {
        r := r + sep;
      }
      r := r + Trim(p.value);
    }
  }

  /** `joinNonBlank(sep, parts...)`. */
  method JoinNonBlank(sep: string, parts: seq<Option<string>>) returns (r: Option<string>)
    ensures r == Joined(sep, parts)
  {
    var sb: string := "";
    ghost var done: seq<Option<string>> := [];
    var rest := parts;
    while rest != []
      invariant done + rest == parts
      invariant sb == JoinedText(sep, done)
    {
      var p := rest[0];
      sb := AppendNonBlank(sb, sep, p);
      JoinedTextStep(sep, done, p);
      assert done + [p] + rest[1..] == parts by {
        assert rest == [p] + rest[1..];
      }
      done := done + [p];
      rest := rest[1..];
    }
    assert done == parts;
    r := if |sb| == 0 then None else Some(sb);
    JoinedTextEmpty(sep, parts);
  }

  /** When every kept part trims to something, the result is those parts joined, or null when there are none. */
  lemma JoinedOfTrimmedParts(sep: string, parts: seq<Option<string>>)
    requires forall i :: 0 <= i < |parts| && parts[i].Some? && !IsBlank(parts[i].value) ==> Trim(parts[i].value) != []
    ensures Joined(sep, parts) == if NonBlankTrimmed(parts) == [] then None else Some(JoinWith(NonBlankTrimmed(parts), sep))
  {
    NonBlankTrimmedNonEmpty(parts);
    var ps := NonBlankTrimmed(parts);
    if ps != [] {
      assert ps[0] != [];
    }
  }

  lemma {:induction false} NonBlankTrimmedNonEmpty(parts: seq<Option<string>>)
    requires forall i :: 0 <= i < |parts| && parts[i].Some? && !IsBlank(parts[i].value) ==> Trim(parts[i].value) != []
    ensures forall j :: 0 <= j < |NonBlankTrimmed(parts)| ==> NonBlankTrimmed(parts)[j] != []
  {
    if parts != [] {
      NonBlankTrimmedNonEmpty(parts[..|parts| - 1]);
    }
  }

  // ---------------------------------------------------------------
  // groupRowsByCustomer
  // ---------------------------------------------------------------

  const NameHeaders: seq<string> := ["name"]

  /** The trimmed name a row carries in column `col`; none for a missing row or a blank name. */
  function RowName(row: Option<Row>, col: int): (r: Option<string>)
    ensures r.Some? ==> r.value != [] && IsTrimmed(r.value)
    ensures r.None? <==> row.None? || IsBlankOrNull(Some(CellText(row.value, col)))
  {
    if row.None? then None else TrimOrNull(Some(CellText(row.value, col)))
  }

  /** The names of the rows below a header, row by row. */
  function RowNames(rows: seq<Option<Row>>, col: int): (r: seq<Option<string>>)
    ensures |r| == |rows|
  {
    if rows == [] then [] else RowNames(rows[..|rows| - 1], col) + [RowName(Last(rows), col)]
  }

  lemma {:induction false} RowNamesAt(rows: seq<Option<Row>>, col: int, k: int)
    requires 0 <= k < |rows|
    ensures RowNames(rows, col)[k] == RowName(rows[k], col)
    decreases |rows|
  {
    if k < |rows| - 1 {
      RowNamesAt(rows[..|rows| - 1], col, k);
    }
  }

  lemma RowNamesTrimmed(rows: seq<Option<Row>>, col: int)
    ensures forall k :: 0 <= k < |rows| && RowNames(rows, col)[k].Some? ==>
              RowNames(rows, col)[k].value != [] && IsTrimmed(RowNames(rows, col)[k].value)
  {
    forall k | 0 <= k < |rows| && RowNames(rows, col)[k].Some?
      ensures RowNames(rows, col)[k].value != [] && IsTrimmed(RowNames(rows, col)[k].value)
    {
      RowNamesAt(rows, col, k);
    }
  }

  /** What one row adds: its name and its 1-based row number `n`, if it has a name. */
  function NamePair(sheetName: string, name: Option<string>, n: int): seq<(string, RowRef)>
  {
    if name.None? then [] else [(name.value, RowRef(sheetName, n))]
  }

  /** What rows with these names add; `names[k]` belongs to 1-based row number `first + k`. */
  function NamePairs(sheetName: string, names: seq<Option<string>>, first: int): seq<(string, RowRef)>
  {
    if names == [] then []
    else NamePairs(sheetName, names[..|names| - 1], first) + NamePair(sheetName, Last(names), first + |names| - 1)
  }

  /** What one requested sheet adds: nothing when it is missing, has no header row or no "name" column. */
  function SheetPairs(wb: Workbook, desired: string): seq<(string, RowRef)>
  {
    match GetSheet(wb, desired)
    case None => []
    case Some(sh) =>
      if sh.header.None? then []
      else
        var col := ColumnIndex(sh.header.value.cells, Targets(NameHeaders));
        if col < 0 then [] else NamePairs(desired, RowNames(sh.body, col), sh.header.value.rowNum + 2)
  }

  /** The (name, row) pairs `groupRowsByCustomer` files, sheet by sheet in the order requested. */
  function CustomerRowPairs(wb: Workbook, sheetNames: seq<string>): seq<(string, RowRef)>
  {
    if sheetNames == [] then []
    else CustomerRowPairs(wb, sheetNames[..|sheetNames| - 1]) + SheetPairs(wb, Last(sheetNames))
  }

  /** A LinkedHashMap from customer name to that customer's rows: its key order and its map. */
  type Groups = (seq<string>, map<string, seq<RowRef>>)

  /** Filing one row under its name, if it has one. */
  function FileName(g: Groups, desired: string, name: Option<string>, n: int): Groups
  {
    if name.None? then g else AddTo(g.0, g.1, name.value, RowRef(desired, n))
  }

  /** Filing the rows with these names in turn; `names[k]` belongs to 1-based row number `first + k`. */
  function FileNames(g: Groups, desired: string, names: seq<Option<string>>, first: int): Groups
  {
    if names == [] then g
    else FileName(FileNames(g, desired, names[..|names| - 1], first), desired, Last(names), first + |names| - 1)
  }

  /** Filing the rows of one requested sheet. */
  function FileSheet(g: Groups, wb: Workbook, desired: string): Groups
  {
    match GetSheet(wb, desired)
    case None => g
    case Some(sh) =>
      if sh.header.None? then g
      else
        var col := ColumnIndex(sh.header.value.cells, Targets(NameHeaders));
        if col < 0 then g else FileNames(g, desired, RowNames(sh.body, col), sh.header.value.rowNum + 2)
  }

  /** Filing the rows of the requested sheets in order, starting from an empty map. */
  function FileSheets(wb: Workbook, sheetNames: seq<string>): Groups
  {
    if sheetNames == [] then ([], map[])
    else FileSheet(FileSheets(wb, sheetNames[..|sheetNames| - 1]), wb, Last(sheetNames))
  }

  /**
   * `groupRowsByCustomer`: the LinkedHashMap from trimmed customer name to
   * the rows that carry it, as the key order `keys` and the map `m`.
   */
  method GroupRowsByCustomer(wb: Workbook, sheetNames: seq<string>) returns (keys: seq<string>, m: map<string, seq<RowRef>>)
    ensures Represents(keys, m, CustomerRowPairs(wb, sheetNames))
  {
    keys, m := [], map[];
    for i := 0 to |sheetNames|
      invariant (keys, m) == FileSheets(wb, sheetNames[..i])
    {
      var desired := sheetNames[i];
      assert sheetNames[..i + 1][..i] == sheetNames[..i];
      var sheet := GetSheet(wb, desired);
      if sheet.Some? && sheet.value.header.Some? {
        var header := sheet.value.header.value;
        var nameCol := FindColumnIndex(header.cells, NameHeaders);
        if nameCol >= 0 {
          keys, m := AddSheetRows(keys, m, desired, sheet.value.body, nameCol, header.rowNum);
        }
      }
    }
    assert sheetNames[..|sheetNames|] == sheetNames;
    FileSheetsRepresents(wb, sheetNames);
  }

  /** The row loop of `groupRowsByCustomer` over one sheet whose header row has index `headerRow`. */
  method AddSheetRows(keys: seq<string>, m: map<string, seq<RowRef>>,
                      desired: string, body: seq<Option<Row>>, nameCol: int, headerRow: nat)
    returns (keys': seq<string>, m': map<string, seq<RowRef>>)
    ensures (keys', m') == FileNames((keys, m), desired, RowNames(body, nameCol), headerRow + 2)
  {
    keys', m' := keys, m;
    ghost var names := RowNames(body, nameCol);
    assert names[..0] == [];
    for k := 0 to |body|
      invariant (keys', m') == FileNames((keys, m), desired, names[..k], headerRow + 2)
    {
      var name := ReadName(body[k], nameCol);
      RowNamesAt(body, nameCol, k);
      keys', m' := AddName(keys', m', desired, name, headerRow + 2 + k);
      assert names[..k + 1][..k] == names[..k];
    }
    assert names[..|body|] == names;
  }

  /** The name cell of one row of that loop: a missing row or a blank cell gives no name. */
  method ReadName(row: Option<Row>, nameCol: int) returns (name: Option<string>)
    ensures name == RowName(row, nameCol)
  {
    name := None;
    if row.Some? {
      var customerName := CellText(row.value, nameCol);
      if !IsBlankOrNull(Some(customerName)) {
        name := Some(Trim(customerName));
      }
    }
  }

  /** One row of that loop, with 1-based row number `n`: a row with a name is filed under it. */
  method AddName(keys: seq<string>, m: map<string, seq<RowRef>>, desired: string, name: Option<string>, n: int)
    returns (keys': seq<string>, m': map<string, seq<RowRef>>)
    ensures (keys', m') == FileName((keys, m), desired, name, n)
  {
    keys', m' := keys, m;
    if name.Some? {
      keys', m' := ComputeIfAbsentAdd(keys, m, name.value, RowRef(desired, n));
    }
  }

  /** Filing rows is filing their (name, row) pairs in turn. */
  lemma {:induction false} FileNamesIsAddAll(g: Groups, desired: string, names: seq<Option<string>>, first: int)
    ensures FileNames(g, desired, names, first) == AddAll(g.0, g.1, NamePairs(desired, names, first))
    decreases |names|
  {
    if names != [] {
      var init := names[..|names| - 1];
      var name := Last(names);
      FileNamesIsAddAll(g, desired, init, first);
      AddAllAppend(g.0, g.1, NamePairs(desired, init, first), NamePair(desired, name, first + |init|));
      var h := AddAll(g.0, g.1, NamePairs(desired, init, first));
      if name.Some? {
        assert NamePair(desired, name, first + |init|)[..0] == [];
      }
    }
  }

  /** Filing rows keeps the map in step with the stream of (name, row) pairs. */
  lemma FileNamesRepresents(g: Groups, ps: seq<(string, RowRef)>, desired: string, names: seq<Option<string>>, first: int)
    requires Represents(g.0, g.1, ps)
    ensures Represents(FileNames(g, desired, names, first).0, FileNames(g, desired, names, first).1, ps + NamePairs(desired, names, first))
  {
    FileNamesIsAddAll(g, desired, names, first);
    AddAllRepresents(g.0, g.1, ps, NamePairs(desired, names, first));
  }

  lemma FileSheetIsAddAll(g: Groups, wb: Workbook, desired: string)
    ensures FileSheet(g, wb, desired) == AddAll(g.0, g.1, SheetPairs(wb, desired))
  {
    var sh := GetSheet(wb, desired);
    if sh.Some? && sh.value.header.Some? {
      var col := ColumnIndex(sh.value.header.value.cells, Targets(NameHeaders));
      if col >= 0 {
        FileNamesIsAddAll(g, desired, RowNames(sh.value.body, col), sh.value.header.value.rowNum + 2);
      }
    }
  }

  lemma {:induction false} FileSheetsIsAddAll(wb: Workbook, sheetNames: seq<string>)
    ensures FileSheets(wb, sheetNames) == AddAll([], map[], CustomerRowPairs(wb, sheetNames))
    decreases |sheetNames|
  {
    if sheetNames != [] {
      var init := sheetNames[..|sheetNames| - 1];
      FileSheetsIsAddAll(wb, init);
      FileSheetIsAddAll(FileSheets(wb, init), wb, Last(sheetNames));
      AddAllAppend([], map[], CustomerRowPairs(wb, init), SheetPairs(wb, Last(sheetNames)));
    }
  }

  /** The map `groupRowsByCustomer` builds is the one the stream of (name, row) pairs describes. */
  lemma FileSheetsRepresents(wb: Workbook, sheetNames: seq<string>)
    ensures Represents(FileSheets(wb, sheetNames).0, FileSheets(wb, sheetNames).1, CustomerRowPairs(wb, sheetNames))
  {
    FileSheetsIsAddAll(wb, sheetNames);
    var empty: seq<(string, RowRef)> := [];
    AddAllRepresents([], map[], empty, CustomerRowPairs(wb, sheetNames));
    assert empty + CustomerRowPairs(wb, sheetNames) == CustomerRowPairs(wb, sheetNames);
  }

  /** A row is filed exactly when it has a name, under that name and its 1-based number. */
  lemma {:induction false} NamePairsMembers(sheetName: string, names: seq<Option<string>>, first: int, key: string, n: int)
    ensures (key, RowRef(sheetName, n)) in NamePairs(sheetName, names, first) <==>
              first <= n < first + |names| && names[n - first] == Some(key)
    decreases |names|
  {
    if names != [] {
      var init, last := names[..|names| - 1], first + |names| - 1;
      NamePairsMembers(sheetName, init, first, key, n);
      assert NamePairs(sheetName, names, first) == NamePairs(sheetName, init, first) + NamePair(sheetName, Last(names), last);
      NamePairMember(sheetName, Last(names), last, key, n);
      if first <= n < first + |init| {
        assert names[n - first] == init[n - first];
      } else if n == last {
        assert names[n - first] == Last(names);
      }
    }
  }

  lemma NamePairMember(sheetName: string, name: Option<string>, r: int, key: string, n: int)
    ensures (key, RowRef(sheetName, n)) in NamePair(sheetName, name, r) <==> n == r && name == Some(key)
  {
  }

  /** A row of a sheet is filed exactly when it exists and its name cell is not blank, under the trimmed name. */
  lemma RowFiled(sheetName: string, rows: seq<Option<Row>>, col: int, first: int, key: string, n: int)
    ensures (key, RowRef(sheetName, n)) in NamePairs(sheetName, RowNames(rows, col), first) <==>
              first <= n < first + |rows| && rows[n - first].Some? &&
              !IsBlankOrNull(Some(CellText(rows[n - first].value, col))) && Trim(CellText(rows[n - first].value, col)) == key
  {
    NamePairsMembers(sheetName, RowNames(rows, col), first, key, n);
    if first <= n < first + |rows| {
      RowNamesAt(rows, col, n - first);
    }
  }

  /** Within a sheet the rows are filed top to bottom, under trimmed non-empty names. */
  lemma {:induction false} NamePairsAscending(sheetName: string, names: seq<Option<string>>, first: int)
    requires forall k :: 0 <= k < |names| && names[k].Some? ==> names[k].value != [] && IsTrimmed(names[k].value)
    ensures forall i :: 0 <= i < |NamePairs(sheetName, names, first)| ==>
              var p := NamePairs(sheetName, names, first)[i];
              first <= p.1.rowNumber < first + |names| && p.1.sheetName == sheetName && p.0 != [] && IsTrimmed(p.0)
    ensures forall i, j :: 0 <= i < j < |NamePairs(sheetName, names, first)| ==>
              NamePairs(sheetName, names, first)[i].1.rowNumber < NamePairs(sheetName, names, first)[j].1.rowNumber
    decreases |names|
  {
    if names != [] {
      NamePairsAscending(sheetName, names[..|names| - 1], first);
    }
  }

  /** Every filed name is trimmed and non-empty, comes from a requested sheet, and has a row number of at least 2 (the header takes a row). */
  lemma {:induction false} CustomerRowPairsShape(wb: Workbook, sheetNames: seq<string>)
    ensures forall i :: 0 <= i < |CustomerRowPairs(wb, sheetNames)| ==>
              var p := CustomerRowPairs(wb, sheetNames)[i];
              p.0 != [] && IsTrimmed(p.0) && p.1.sheetName in sheetNames && p.1.rowNumber >= 2
    decreases |sheetNames|
  {
    if sheetNames != [] {
      var init := sheetNames[..|sheetNames| - 1];
      CustomerRowPairsShape(wb, init);
      var desired := Last(sheetNames);
      var sh := GetSheet(wb, desired);
      if sh.Some? && sh.value.header.Some? {
        var col := ColumnIndex(sh.value.header.value.cells, Targets(NameHeaders));
        if col >= 0 {
          RowNamesTrimmed(sh.value.body, col);
          NamePairsAscending(desired, RowNames(sh.value.body, col), sh.value.header.value.rowNum + 2);
        }
      }
      var sp := SheetPairs(wb, desired);
      assert forall i :: 0 <= i < |sp| ==> sp[i].1.sheetName == desired && sp[i].0 != [] && IsTrimmed(sp[i].0) && sp[i].1.rowNumber >= 2;
    }
  }
}
