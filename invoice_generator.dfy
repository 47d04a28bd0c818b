/**
 * The invoice side (class InvoiceGenerator): the clock-time helpers, the
 * postcode split of the address, the 30-minute blocks built from a
 * customer's bookings, price and totals, and the text-level placeholder
 * substitution in paragraphs and cells.  A document paragraph is reduced to
 * the texts of its runs.
 */
module InvoiceGenerator {
  import opened JavaText
  import opened Sequences
  import opened ExcelReader
  import Placeholders

  /** Length of one booking slot, in minutes. */
  const SlotMinutes: int := 30

  // ---------------------------------------------------------------
  // prefer, cleanHm, splitTimeRange, fromRaw, toRaw
  // ---------------------------------------------------------------

  /** `prefer(a, b)`: `a` unless it is null or blank, else `b`. */
  function Prefer(a: Option<string>, b: Option<string>): Option<string>
  {
    if a.Some? && !IsBlank(a.value) then a else b
  }

  /**
   * `cleanHm`: a trimmed `H:MM`/`HH:MM` text as it is, a text with seconds cut
   * to its first five characters, anything else null.
   */
  function CleanHm(s: Option<string>): Option<string>
  {
    if s.None? then None
    else
      var t := Trim(s.value);
      if IsHourMinuteSecond(t) then Some(t[..5])
      else if IsHourMinute(t) then Some(t)
      else None
  }

  /**
   * The generator's own `splitTimeRange`: dashes normalised, split around the
   * first dash separator, each end through `cleanHm`; a null text gives two nulls.
   */
  function SplitRange(raw: Option<string>): (Option<string>, Option<string>)
  {
    if raw.None? then (None, None)
    else
      var parts := SplitAroundDash(DashNormalized(raw.value));
      (if |parts| > 0 then CleanHm(Some(parts[0])) else None,
       if |parts| > 1 then CleanHm(Some(parts[1])) else None)
  }

  /** `fromRaw`: the left end of a time range text. */
  function FromRaw(raw: Option<string>): Option<string>
  {
    if raw.None? then None else SplitRange(raw).0
  }

  /** `toRaw`: the right end of a time range text. */
  function ToRaw(raw: Option<string>): Option<string>
  {
    if raw.None? then None else SplitRange(raw).1
  }

  // ---------------------------------------------------------------
  // parseHmToMinutes, formatMinutesAsHHmm
  // ---------------------------------------------------------------

  /**
   * `parseHmToMinutes`: `h * 60 + m` for a trimmed `H:MM`/`HH:MM` text, -1 for
   * null, blank or anything else.  Hours and minutes are not range-checked.
   */
  function ParseHmToMinutes(hm: Option<string>): int
  {
    if hm.None? || IsBlank(hm.value) then -1
    else
      var s := Trim(hm.value);
      if !IsHourMinute(s) then -1 else HourOf(s) * 60 + MinuteOf(s)
  }

  /** `formatMinutesAsHHmm`: `""` for a negative count, else `%02d:%02d` of hours and minutes. */
  function FormatMinutesAsHHmm(minutes: int): string
  {
    if minutes < 0 then "" else Pad2(minutes / 60) + ":" + Pad2(minutes % 60)
  }

  /** A text whose trimmed form is a clock time has a digit, so it is not blank. */
  lemma HourMinuteNotBlank(s: string)
    requires IsHourMinute(Trim(s))
    ensures !IsBlank(s)
  {
    TrimStartShape(s);
    TrimEndShape(TrimStart(s));
    var k := |s| - |TrimStart(s)|;
    assert Trim(s)[0] == s[k];
  }

  /**
   * The minutes are defined exactly for texts whose trimmed form has one or
   * two digits, a colon and two digits; no range check on either number.
   */
  lemma ParseHmShape(hm: Option<string>)
    ensures ParseHmToMinutes(hm) >= -1
    ensures ParseHmToMinutes(hm) >= 0 <==> hm.Some? && IsHourMinute(Trim(hm.value))
    ensures ParseHmToMinutes(hm) >= 0 ==>
              ParseHmToMinutes(hm) == HourOf(Trim(hm.value)) * 60 + MinuteOf(Trim(hm.value))
    ensures ParseHmToMinutes(hm) <= 99 * 60 + 99
  {
    if hm.Some? && IsHourMinute(Trim(hm.value)) {
      HourMinuteNotBlank(hm.value);
      var s := Trim(hm.value);
      HourBound(s);
    }
  }

  /** Neither hours nor minutes are range-checked: `"7:75"` is 495 minutes. */
  lemma ParseHmNoRangeCheck()
    ensures ParseHmToMinutes(Some("7:75")) == 495
  {
    var s := "7:75";
    TrimOfTrimmed(s);
    assert s[..1] == "7" && "7"[..0] == [];
  }

  lemma DecimalStringLong(n: nat)
    requires n >= 100
    ensures |DecimalString(n)| >= 3
  {
    assert |DecimalString(n / 10)| >= 2;
  }

  /** The two digits of a two-character zero-padded number. */
  lemma Pad2Digits(n: nat)
    requires n < 100
    ensures Pad2(n) == [DigitChar(n / 10), DigitChar(n % 10)]
  {
    if n >= 10 {
      assert DecimalString(n / 10) == [DigitChar(n / 10)];
    }
  }

  lemma OneDigitValue(p: string)
    requires |p| == 1 && AllDigits(p)
    ensures DigitsValue(p) == DigitValue(p[0])
  {
    assert p[..0] == [];
  }

  /** One or two digits, zero-padded back to two: the digits themselves, or `0` and the digit. */
  lemma Pad2OfDigits(p: string)
    requires 1 <= |p| <= 2 && AllDigits(p)
    ensures DigitsValue(p) < 100
    ensures Pad2(DigitsValue(p)) == if |p| == 2 then p else "0" + p
  {
    if |p| == 2 {
      Pad2OfTwoDigits(p);
    } else {
      Pad2OfOneDigit(p);
    }
  }

  lemma Pad2OfTwoDigits(p: string)
    requires |p| == 2 && AllDigits(p)
    ensures DigitsValue(p) < 100 && Pad2(DigitsValue(p)) == p
  {
    var a, b := DigitValue(p[0]), DigitValue(p[1]);
    TwoDigitsValue(p);
    TensAndUnits(a, b);
    Pad2Digits(a * 10 + b);
    DigitCharOfValue(p[0]);
    DigitCharOfValue(p[1]);
    assert p == [p[0], p[1]];
  }

  lemma Pad2OfOneDigit(p: string)
    requires |p| == 1 && AllDigits(p)
    ensures DigitsValue(p) < 10 && Pad2(DigitsValue(p)) == "0" + p
  {
    OneDigitValue(p);
    Pad2Digits(DigitValue(p[0]));
    DigitCharOfValue(p[0]);
    assert DigitChar(0) == '0';
    assert "0" + p == ['0', p[0]];
  }

  lemma TensAndUnits(a: nat, b: nat)
    requires a < 10 && b < 10
    ensures (a * 10 + b) / 10 == a && (a * 10 + b) % 10 == b
  {
  }

  lemma DigitCharOfValue(c: char)
    requires IsDigit(c)
    ensures DigitChar(DigitValue(c)) == c
  {
  }

  /** The hour of a clock-time text has at most two digits. */
  lemma HourBound(t: string)
    requires IsHourMinute(t)
    ensures HourOf(t) <= 99
  {
    Pad2OfDigits(t[..|t| - 3]);
  }

  lemma MinutesOfClock(h: int, mi: int)
    requires h >= 0 && 0 <= mi < 60
    ensures (h * 60 + mi) / 60 == h && (h * 60 + mi) % 60 == mi
  {
  }

  /** The text formatted from `m` minutes, when `m` is below 100 hours: `HH:MM`. */
  lemma FormatShape(m: int)
    requires 0 <= m < 6000
    ensures var t := FormatMinutesAsHHmm(m);
            |t| == 5 && IsHourMinute(t) && HourOf(t) == m / 60 && MinuteOf(t) == m % 60
  {
    var t := FormatMinutesAsHHmm(m);
    var h := Pad2(m / 60);
    var mm := Pad2(m % 60);
    assert t == h + ":" + mm;
    assert t[..2] == h;
    TwoDigitsValue(mm);
    assert t[3] == mm[0] && t[4] == mm[1];
  }

  /**
   * Round trip: parsing the formatted text gives back exactly the minute counts
   * below 100 hours; a negative count formats to `""` and a count of 100 hours
   * or more to a three-digit hour, and both parse to -1.
   */
  lemma ParseFormatRoundTrip(m: int)
    ensures ParseHmToMinutes(Some(FormatMinutesAsHHmm(m))) == if 0 <= m < 6000 then m else -1
  {
    var t := FormatMinutesAsHHmm(m);
    if 0 <= m < 6000 {
      FormatShape(m);
      HourMinuteIsTrimmed(t);
    } else if m >= 6000 {
      DecimalStringLong(m / 60);
      var h := Pad2(m / 60);
      assert IsTrimmed(t) by {
        assert t == h + ":" + Pad2(m % 60);
        assert t[0] == h[0];
        assert t[|t| - 1] == Pad2(m % 60)[|Pad2(m % 60)| - 1];
      }
      TrimOfTrimmed(t);
      assert |t| >= 6;
    }
  }

  /**
   * The other way round: a clock time with minutes below 60 comes back from
   * parsing and formatting zero-padded to `HH:MM`.
   */
  lemma FormatParseRoundTrip(t: string)
    requires IsHourMinute(t) && MinuteOf(t) < 60
    ensures FormatMinutesAsHHmm(ParseHmToMinutes(Some(t))) == if |t| == 5 then t else "0" + t
  {
    var hs := t[..|t| - 3];
    var ms := t[|t| - 2..];
    FormattedClock(t, ParseHmToMinutes(Some(t)), ms);
    HourDigits(t, hs);
    Pad2OfDigits(hs);
    ClockConcat(t, hs, ms, Pad2(HourOf(t)));
  }

  /** Formatting the minutes of a clock time: its padded hour, a colon and its minute digits. */
  lemma FormattedClock(t: string, m: int, ms: string)
    requires IsHourMinute(t) && MinuteOf(t) < 60
    requires m == ParseHmToMinutes(Some(t)) && ms == t[|t| - 2..]
    ensures FormatMinutesAsHHmm(m) == Pad2(HourOf(t)) + ":" + ms
  {
    ParseClockTime(t);
    MinutesOfClock(HourOf(t), MinuteOf(t));
    MinuteText(t, ms);
  }

  /** Putting a clock time back together from its padded hour. */
  lemma ClockConcat(t: string, hs: string, ms: string, p: string)
    requires |t| >= 3 && hs == t[..|t| - 3] && ms == t[|t| - 2..] && t[|t| - 3] == ':'
    requires p == if |hs| == 2 then hs else "0" + hs
    ensures p + ":" + ms == if |t| == 5 then t else "0" + t
  {
    assert t == hs + ":" + ms;
    if |hs| != 2 {
      assert ("0" + hs) + ":" + ms == "0" + (hs + ":" + ms);
    }
  }

  /** The hour part of a clock time is one or two digits. */
  lemma HourDigits(t: string, hs: string)
    requires IsHourMinute(t) && hs == t[..|t| - 3]
    ensures 1 <= |hs| <= 2 && AllDigits(hs)
  {
    if |t| == 4 {
      assert hs == [t[0]];
    } else {
      assert hs == [t[0], t[1]];
    }
  }

  /** The minutes of a clock time, zero-padded, are its last two characters. */
  lemma MinuteText(t: string, ms: string)
    requires IsHourMinute(t) && ms == t[|t| - 2..]
    ensures Pad2(MinuteOf(t)) == ms
  {
    TwoDigitsValue(ms);
    Pad2OfTwoDigits(ms);
  }

  // ---------------------------------------------------------------
  // cleanHm and splitTimeRange, as properties
  // ---------------------------------------------------------------

  /**
   * `cleanHm` keeps a clock time, nulls what is neither a clock time nor one
   * with seconds, and cuts seconds off: for a two-digit hour that leaves a
   * clock time, for a one-digit hour it leaves `H:MM:`, which no longer parses.
   */
  lemma CleanHmShape(s: Option<string>)
    ensures CleanHm(s).Some? <==>
              s.Some? && (IsHourMinute(Trim(s.value)) || IsHourMinuteSecond(Trim(s.value)))
    ensures s.Some? && IsHourMinute(Trim(s.value)) ==> CleanHm(s) == Some(Trim(s.value))
    ensures s.Some? && IsHourMinuteSecond(Trim(s.value)) && |Trim(s.value)| == 8 ==>
              CleanHm(s) == Some(Trim(s.value)[..5]) && IsHourMinute(CleanHm(s).value)
    ensures s.Some? && IsHourMinuteSecond(Trim(s.value)) && |Trim(s.value)| == 7 ==>
              ParseHmToMinutes(CleanHm(s)) == -1
  {
    if s.Some? && IsHourMinuteSecond(Trim(s.value)) {
      var t := Trim(s.value);
      var c := t[..5];
      assert !IsHourMinute(t);
      if |t| == 8 {
        assert c == t[..|t| - 3];
      } else {
        assert c[..4] == t[..4];
        TrimOfTrimmed(c);
        assert !IsHourMinute(c);
      }
    }
  }

  /** The range text `f + " - " + t` of two clock times splits back into `f` and `t`. */
  lemma SplitRangeJoin(f: string, t: string)
    requires IsHourMinute(f) && IsHourMinute(t)
    ensures SplitRange(Some(f + " - " + t)) == (Some(f), Some(t))
    ensures FromRaw(Some(f + " - " + t)) == Some(f) && ToRaw(Some(f + " - " + t)) == Some(t)
  {
    JoinedRangeNormalized(f, t);
    assert NoDash(f) && NoDash(t);
    SplitAroundDashJoin(f, t);
    CleanHmOfClockTime(f);
    CleanHmOfClockTime(t);
  }

  /** `fromRaw` and `toRaw` read an en or em dash as a hyphen too. */
  lemma SplitRangeDashes(f: string, t: string, d: char)
    requires IsHourMinute(f) && IsHourMinute(t) && IsDashChar(d)
    ensures SplitRange(Some(f + " " + [d] + " " + t)) == (Some(f), Some(t))
    ensures FromRaw(Some(f + " " + [d] + " " + t)) == Some(f) && ToRaw(Some(f + " " + [d] + " " + t)) == Some(t)
  {
    HourMinuteIsTrimmed(f);
    HourMinuteIsTrimmed(t);
    assert NoDash(f) && NoDash(t);
    DashesNormalized(f, t, d);
    SplitAroundDashJoin(f, t);
    CleanHmOfClockTime(f);
    CleanHmOfClockTime(t);
  }

  /** Dash normalisation leaves `f + " - " + t` of two clock times alone. */
  lemma JoinedRangeNormalized(f: string, t: string)
    requires IsHourMinute(f) && IsHourMinute(t)
    ensures DashNormalized(f + " - " + t) == f + " - " + t
  {
    var s := f + " - " + t;
    assert NoDash(f) && NoDash(t);
    assert s[0] == f[0] && s[|s| - 1] == t[|t| - 1];
    TrimOfTrimmed(s);
    assert EnDash !in s && EmDash !in s;
    ReplaceCharAbsent(s, EnDash, '-');
    ReplaceCharAbsent(s, EmDash, '-');
  }

  /** `cleanHm` keeps a clock time as it is. */
  lemma CleanHmOfClockTime(f: string)
    requires IsHourMinute(f)
    ensures CleanHm(Some(f)) == Some(f)
  {
    HourMinuteIsTrimmed(f);
    assert !IsHourMinuteSecond(f);
  }

  // ---------------------------------------------------------------
  // Address and postcode: (?i)(?:D\s*-\s*)?(\d{5})
  // ---------------------------------------------------------------

  /** Five ASCII digits start at `i`. */
  predicate FiveDigitsAt(t: string, i: int)
  {
    0 <= i && i + 5 <= |t| && forall k :: i <= k < i + 5 ==> IsDigit(t[k])
  }

  /** The end of the run of `\s` characters from `i` on. */
  function SkipRegexSpace(t: string, i: nat): (j: nat)
    requires i <= |t|
    ensures i <= j <= |t| && (j == |t| || !IsRegexSpace(t[j]))
    ensures forall k :: i <= k < j ==> IsRegexSpace(t[k])
    decreases |t| - i
  {
    if i < |t| && IsRegexSpace(t[i]) then SkipRegexSpace(t, i + 1) else i
  }

  /**
   * Where group 1 starts when the postcode pattern is tried at `p`.  Neither
   * `\s*` can give back a character that would let `-` or a digit match, so
   * the greedy reading is the only one; a failed `D`-prefix leaves only `\d{5}`
   * at `p`, which a `D` cannot start.
   */
  function PostcodeMatchAt(t: string, p: nat): (m: Option<nat>)
    requires p <= |t|
    ensures m.Some? ==> p <= m.value && FiveDigitsAt(t, m.value)
  {
    if p < |t| && (t[p] == 'D' || t[p] == 'd') then
      var q := SkipRegexSpace(t, p + 1);
      if q < |t| && t[q] == '-' then
        var r := SkipRegexSpace(t, q + 1);
        if FiveDigitsAt(t, r) then Some(r) else None
      else None
    else if FiveDigitsAt(t, p) then Some(p)
    else None
  }

  /** `Matcher.find()` from `p` on, reporting `start(1)` of the leftmost match. */
  function FindPostcode(t: string, p: nat): (m: Option<nat>)
    requires p <= |t|
    ensures m.Some? ==> p <= m.value && FiveDigitsAt(t, m.value)
    decreases |t| - p
  {
    var m := PostcodeMatchAt(t, p);
    if m.Some? then m else if p == |t| then None else FindPostcode(t, p + 1)
  }

  /**
   * The optional `D-` prefix never moves group 1: it starts at the first run of
   * five digits, and the pattern finds nothing exactly when there is none.
   */
  lemma {:induction false} FindPostcodeIsFirstFiveDigits(t: string, p: nat)
    requires p <= |t|
    ensures FindPostcode(t, p).None? <==> forall i :: p <= i ==> !FiveDigitsAt(t, i)
    ensures FindPostcode(t, p).Some? ==>
              var i := FindPostcode(t, p).value;
              p <= i && FiveDigitsAt(t, i) && forall j :: p <= j < i ==> !FiveDigitsAt(t, j)
    decreases |t| - p
  {
    var m := PostcodeMatchAt(t, p);
    if m.Some? {
      var r := m.value;
      forall j | p <= j < r ensures !FiveDigitsAt(t, j) {
        assert !IsDigit(t[j]);
      }
    } else {
      assert !FiveDigitsAt(t, p);
      if p < |t| {
        FindPostcodeIsFirstFiveDigits(t, p + 1);
      }
    }
  }

  /**
   * The postcode split of `generate`: the address is trimmed; from the first
   * run of five digits on it is the postcode-and-city part, the trimmed text
   * before it is the address.  Without such a run nothing changes.
   */
  function SplitAddress(address: Option<string>): (Option<string>, Option<string>)
  {
    if address.None? then (None, None)
    else
      var t := Trim(address.value);
      var idx := FindPostcode(t, 0);
      if idx.None? then (address, None)
      else (Some(Trim(t[..idx.value])), Some(Trim(t[idx.value..])))
  }

  lemma {:induction false} TrimKeepsLeadingDigits(u: string)
    requires FiveDigitsAt(u, 0)
    ensures |Trim(u)| >= 5 && Trim(u)[..5] == u[..5]
  {
    assert TrimStart(u) == u;
    TrimEndShape(u);
    assert !IsTrimmable(u[4]);
  }

  /**
   * Postcode and city begin with the first five digits of the trimmed
   * address, and the address keeps the text before them; without five digits
   * in a row the address is returned as it came, untrimmed, with no postcode.
   */
  lemma SplitAddressShape(address: Option<string>)
    ensures address.None? ==> SplitAddress(address) == (None, None)
    ensures address.Some? && (forall i :: !FiveDigitsAt(Trim(address.value), i)) ==>
              SplitAddress(address) == (address, None)
    ensures address.Some? && (exists i :: FiveDigitsAt(Trim(address.value), i)) ==>
              var t := Trim(address.value);
              var r := SplitAddress(address);
              exists i :: FiveDigitsAt(t, i) && (forall j :: 0 <= j < i ==> !FiveDigitsAt(t, j)) &&
                r.0 == Some(Trim(t[..i])) && r.1 == Some(Trim(t[i..])) && |r.1.value| >= 5 && r.1.value[..5] == t[i..i + 5]
  {
    if address.Some? {
      FindPostcodeIsFirstFiveDigits(Trim(address.value), 0);
      if FindPostcode(Trim(address.value), 0).Some? {
        SplitAddressFound(address);
      }
    }
  }

  lemma SplitAddressFound(address: Option<string>)
    requires address.Some? && FindPostcode(Trim(address.value), 0).Some?
    ensures var t := Trim(address.value);
            var r := SplitAddress(address);
            exists i :: FiveDigitsAt(t, i) && (forall j :: 0 <= j < i ==> !FiveDigitsAt(t, j)) &&
              r.0 == Some(Trim(t[..i])) && r.1 == Some(Trim(t[i..])) && |r.1.value| >= 5 && r.1.value[..5] == t[i..i + 5]
  {
    var t := Trim(address.value);
    FindPostcodeIsFirstFiveDigits(t, 0);
    var i := FindPostcode(t, 0).value;
    PostcodePart(address, t, i);
    var r := SplitAddress(address);
    assert FiveDigitsAt(t, i) && (forall j :: 0 <= j < i ==> !FiveDigitsAt(t, j)) &&
      r.0 == Some(Trim(t[..i])) && r.1 == Some(Trim(t[i..])) && |r.1.value| >= 5 && r.1.value[..5] == t[i..i + 5];
  }

  /** The two parts once the first five digits are found at `i`. */
  lemma PostcodePart(address: Option<string>, t: string, i: nat)
    requires address.Some? && t == Trim(address.value) && i <= |t|
    requires FindPostcode(t, 0) == Some(i)
    ensures SplitAddress(address) == (Some(Trim(t[..i])), Some(Trim(t[i..])))
    ensures |Trim(t[i..])| >= 5 && Trim(t[i..])[..5] == t[i..i + 5]
  {
    var u := t[i..];
    assert FiveDigitsAt(t, i);
    assert FiveDigitsAt(u, 0) by {
      forall k | 0 <= k < 5 ensures IsDigit(u[k]) {
        assert u[k] == t[i + k];
      }
    }
    TrimKeepsLeadingDigits(u);
    assert u[..5] == t[i..i + 5];
  }

  /** A `D-` in front of the postcode stays with the address part. */
  lemma CountryPrefixStaysInAddress(a: string, d: string, rest: string)
    requires forall k :: 0 <= k < |a| ==> !IsDigit(a[k])
    requires |d| == 5 && AllDigits(d)
    requires IsTrimmed(a + "D-" + d + rest)
    ensures SplitAddress(Some(a + "D-" + d + rest)) ==
              (Some(Trim(a + "D-")), Some(Trim(d + rest)))
  {
    var t := a + "D-" + d + rest;
    TrimOfTrimmed(t);
    var i := |a| + 2;
    assert FiveDigitsAt(t, i) by {
      forall k | i <= k < i + 5 ensures IsDigit(t[k]) {
        assert t[k] == d[k - i];
      }
    }
    forall j | 0 <= j < i ensures !FiveDigitsAt(t, j) {
      assert !IsDigit(t[j]);
    }
    FindPostcodeIsFirstFiveDigits(t, 0);
    assert t[..i] == a + "D-";
    assert t[i..] == d + rest;
  }

  // ---------------------------------------------------------------
  // Which bookings contribute a start, and under which key
  // ---------------------------------------------------------------

  /** The start text of a booking: its from-time unless blank, else the left end of its range text. */
  function EffectiveStart(b: BookingEntry): Option<string>
  {
    Prefer(b.timeFrom, FromRaw(b.timeRaw))
  }

  /** The start minute a booking files under its key; none when its start text is missing or does not parse. */
  function StartOf(b: BookingEntry): Option<int>
  {
    var from := EffectiveStart(b);
    if from.None? || IsBlank(from.value) then None
    else
      var m := ParseHmToMinutes(from);
      if m < 0 then None else Some(m)
  }

  /**
   * A booking contributes exactly when its start text (the from-time if not
   * blank, else the cleaned left end of the range text) is a clock time once
   * trimmed; it contributes the parsed minutes.  The blank check in front of
   * the parse never decides anything: a booking it skips parses to -1 anyway.
   */
  lemma StartOfShape(b: BookingEntry)
    ensures b.timeFrom.Some? && !IsBlank(b.timeFrom.value) ==> EffectiveStart(b) == b.timeFrom
    ensures !(b.timeFrom.Some? && !IsBlank(b.timeFrom.value)) ==> EffectiveStart(b) == FromRaw(b.timeRaw)
    ensures StartOf(b).Some? <==>
              EffectiveStart(b).Some? && IsHourMinute(Trim(EffectiveStart(b).value))
    ensures StartOf(b).Some? ==> StartOf(b).value == ParseHmToMinutes(EffectiveStart(b)) >= 0
    ensures StartOf(b).None? ==> ParseHmToMinutes(EffectiveStart(b)) == -1
  {
    ParseHmShape(EffectiveStart(b));
  }

  /** Without a from-time, a range text `f - t` of clock times contributes the minutes of `f`. */
  lemma StartFromRange(b: BookingEntry, f: string, t: string)
    requires b.timeFrom.None? && b.timeRaw == Some(f + " - " + t)
    requires IsHourMinute(f) && IsHourMinute(t)
    ensures StartOf(b) == Some(HourOf(f) * 60 + MinuteOf(f))
  {
    SplitRangeJoin(f, t);
    assert EffectiveStart(b) == Some(f);
    StartOfClockTime(b, f);
  }

  lemma StartOfClockTime(b: BookingEntry, f: string)
    requires EffectiveStart(b) == Some(f) && IsHourMinute(f)
    ensures StartOf(b) == Some(HourOf(f) * 60 + MinuteOf(f))
  {
    HourMinuteIsTrimmed(f);
    ParseClockTime(f);
  }

  /** `parseHmToMinutes` of a clock time is its hours times 60 plus its minutes. */
  lemma ParseClockTime(f: string)
    requires IsHourMinute(f)
    ensures ParseHmToMinutes(Some(f)) == HourOf(f) * 60 + MinuteOf(f)
  {
    HourMinuteIsTrimmed(f);
  }

  /** `nz(sheet) + "|" + nz(hall) + "|" + nz(court)`. */
  function KeyOf(b: BookingEntry): string
  {
    OrEmpty(b.sheet) + "|" + OrEmpty(b.hall) + "|" + OrEmpty(b.court)
  }

  /** `key.split("\\|", -1)` read back into sheet, hall and court, `""` for a missing part. */
  function KeyParts(key: string): (string, string, string)
  {
    var parts := SplitOn(key, '|');
    (parts[0], if |parts| > 1 then parts[1] else "", if |parts| > 2 then parts[2] else "")
  }

  /** Names without `|` come back out of the key unchanged. */
  lemma KeyPartsOfKey(b: BookingEntry)
    requires '|' !in OrEmpty(b.sheet) && '|' !in OrEmpty(b.hall) && '|' !in OrEmpty(b.court)
    ensures KeyParts(KeyOf(b)) == (OrEmpty(b.sheet), OrEmpty(b.hall), OrEmpty(b.court))
  {
    var sheet, hall, court := OrEmpty(b.sheet), OrEmpty(b.hall), OrEmpty(b.court);
    assert KeyOf(b) == sheet + ['|'] + (hall + ['|'] + court);
    SplitOnTwo(sheet, '|', hall + ['|'] + court);
    SplitOnTwo(hall, '|', court);
  }

  /** A `|` inside a name is not escaped: two different bookings can share one key. */
  lemma KeyCollision(b1: BookingEntry, b2: BookingEntry, x: string, y: string, z: string)
    requires b1.sheet == Some(x + "|" + y) && b1.hall == Some(z)
    requires b2.sheet == Some(x) && b2.hall == Some(y + "|" + z)
    requires b1.court == b2.court
    ensures KeyOf(b1) == KeyOf(b2)
  {
    assert x + "|" + y + "|" + z == x + "|" + (y + "|" + z);
  }

  /** The `(key, start)` pairs filed into `startsByKey`, one per contributing booking, in list order. */
  function StartPairs(bs: seq<BookingEntry>): seq<(string, int)>
  {
    if bs == [] then []
    else
      var b := Last(bs);
      StartPairs(bs[..|bs| - 1]) + (if StartOf(b).Some? then [(KeyOf(b), StartOf(b).value)] else [])
  }

  lemma StartPairsStep(bs: seq<BookingEntry>, i: nat)
    requires i < |bs|
    ensures StartPairs(bs[..i + 1]) ==
              StartPairs(bs[..i]) + (if StartOf(bs[i]).Some? then [(KeyOf(bs[i]), StartOf(bs[i]).value)] else [])
  {
    assert bs[..i + 1][..i] == bs[..i];
  }

  /** A pair is filed exactly when some booking has that key and contributes that start. */
  lemma StartPairsMembers(bs: seq<BookingEntry>, k: string, m: int)
    ensures (k, m) in StartPairs(bs) <==>
              exists i :: 0 <= i < |bs| && KeyOf(bs[i]) == k && StartOf(bs[i]) == Some(m)
  {
    if (k, m) in StartPairs(bs) {
      StartPairsSound(bs, k, m);
    } else if exists i :: 0 <= i < |bs| && KeyOf(bs[i]) == k && StartOf(bs[i]) == Some(m) {
      var i :| 0 <= i < |bs| && KeyOf(bs[i]) == k && StartOf(bs[i]) == Some(m);
      StartPairsComplete(bs, k, m, i);
    }
  }

  lemma {:induction false} StartPairsSound(bs: seq<BookingEntry>, k: string, m: int)
    requires (k, m) in StartPairs(bs)
    ensures exists i :: 0 <= i < |bs| && KeyOf(bs[i]) == k && StartOf(bs[i]) == Some(m)
  {
    var init, b := bs[..|bs| - 1], Last(bs);
    var tail := if StartOf(b).Some? then [(KeyOf(b), StartOf(b).value)] else [];
    assert StartPairs(bs) == StartPairs(init) + tail;
    if (k, m) in StartPairs(init) {
      StartPairsSound(init, k, m);
      var i :| 0 <= i < |init| && KeyOf(init[i]) == k && StartOf(init[i]) == Some(m);
      assert bs[i] == init[i];
    } else {
      assert (k, m) in tail;
      assert bs[|bs| - 1] == b;
    }
  }

  lemma {:induction false} StartPairsComplete(bs: seq<BookingEntry>, k: string, m: int, i: nat)
    requires i < |bs| && KeyOf(bs[i]) == k && StartOf(bs[i]) == Some(m)
    ensures (k, m) in StartPairs(bs)
  {
    var init, b := bs[..|bs| - 1], Last(bs);
    var tail := if StartOf(b).Some? then [(KeyOf(b), StartOf(b).value)] else [];
    assert StartPairs(bs) == StartPairs(init) + tail;
    if i < |init| {
      assert init[i] == bs[i];
      StartPairsComplete(init, k, m, i);
    } else {
      assert b == bs[i];
      assert tail == [(k, m)];
    }
  }

  /** Nothing is filed exactly when no booking contributes. */
  lemma {:induction false} StartPairsEmpty(bs: seq<BookingEntry>)
    ensures StartPairs(bs) == [] <==> forall i :: 0 <= i < |bs| ==> StartOf(bs[i]).None?
  {
    if bs != [] {
      var init := bs[..|bs| - 1];
      StartPairsEmpty(init);
      assert forall i :: 0 <= i < |init| ==> init[i] == bs[i];
    }
  }

  /** Every filed start is a non-negative minute count. */
  lemma {:induction false} StartPairsNonNegative(bs: seq<BookingEntry>)
    ensures forall i :: 0 <= i < |StartPairs(bs)| ==> StartPairs(bs)[i].1 >= 0
  {
    if bs != [] {
      StartPairsNonNegative(bs[..|bs| - 1]);
      StartOfShape(Last(bs));
    }
  }

  // ---------------------------------------------------------------
  // Blocks
  // ---------------------------------------------------------------

  /** One invoice line: where, from when to when (`HH:mm`), and how many 30-minute units. */
  datatype Block = Block(
    sheet: string,
    hall: string,
    court: string,
    start: Option<string>,
    end: Option<string>,
    units30: int)

  /** A start continues the current block when it is the previous start plus one slot. */
  predicate Consecutive(a: int, b: int)
  {
    b == a + SlotMinutes
  }

  /** The natural order `Collections.sort` uses on `Integer`. */
  predicate IntLe(a: int, b: int)
  {
    a <= b
  }

  lemma IntLeTotal()
    ensures Total(IntLe)
  {
  }

  /** `new Block(...)` for the segment from `segStart` to `last`. */
  function SegmentBlock(sheet: string, hall: string, court: string, segStart: int, last: int): Block
  {
    Block(sheet, hall, court,
          Some(FormatMinutesAsHHmm(segStart)),
          Some(FormatMinutesAsHHmm(last + SlotMinutes)),
          (last - segStart + SlotMinutes) / SlotMinutes)
  }

  /** The block of a run of starts: from its first start to one slot past its last. */
  function BlockOf(sheet: string, hall: string, court: string, run: seq<int>): Block
    requires run != []
  {
    SegmentBlock(sheet, hall, court, run[0], Last(run))
  }

  /** The blocks of consecutive runs, in order. */
  function RunBlocks(sheet: string, hall: string, court: string, runs: seq<seq<int>>): seq<Block>
    requires forall i :: 0 <= i < |runs| ==> runs[i] != []
  {
    if runs == [] then []
    else RunBlocks(sheet, hall, court, runs[..|runs| - 1]) + [BlockOf(sheet, hall, court, Last(runs))]
  }

  /** One key's starts, sorted and cut into maximal runs of consecutive starts. */
  function Runs(starts: seq<int>): (r: seq<seq<int>>)
    ensures forall i :: 0 <= i < |r| ==> r[i] != []
  {
    ChunkBy(Sort(starts, IntLe), Consecutive)
  }

  /** The blocks one key contributes. */
  function KeyBlocks(key: string, starts: seq<int>): seq<Block>
  {
    var (sheet, hall, court) := KeyParts(key);
    RunBlocks(sheet, hall, court, Runs(starts))
  }

  /** The blocks of `keys`, key after key, each from the starts filed under it. */
  function GroupedBlocks(ps: seq<(string, int)>, keys: seq<string>): seq<Block>
  {
    if keys == [] then []
    else GroupedBlocks(ps, keys[..|keys| - 1]) + KeyBlocks(Last(keys), GroupOf(ps, Last(keys)))
  }

  /**
   * The single block made when no block formed but there are bookings: the
   * first booking's place and cleaned times, and its duration in units if both
   * ends parse, at least one.
   */
  function FallbackBlock(a: BookingEntry): Block
  {
    var from := EffectiveStart(a);
    var to := Prefer(a.timeTo, ToRaw(a.timeRaw));
    var fm := ParseHmToMinutes(from);
    var tm := ParseHmToMinutes(to);
    var units := if fm >= 0 && tm > fm then (tm - fm) / SlotMinutes else 0;
    Block(OrEmpty(a.sheet), OrEmpty(a.hall), OrEmpty(a.court), CleanHm(from), CleanHm(to),
          if units > 1 then units else 1)
  }

  /** The invoice lines `generate` builds from the bookings (step 3). */
  function Blocks(bookings: seq<BookingEntry>): seq<Block>
  {
    var ps := StartPairs(bookings);
    var bs := GroupedBlocks(ps, GroupKeys(ps));
    if bs == [] && bookings != [] then [FallbackBlock(bookings[0])] else bs
  }

  /** Sum of the units of `blocks` (`totalUnits30`). */
  function UnitsTotal(blocks: seq<Block>): int
  {
    if blocks == [] then 0 else UnitsTotal(blocks[..|blocks| - 1]) + Last(blocks).units30
  }

  // ---------------------------------------------------------------
  // Block properties
  // ---------------------------------------------------------------

  lemma UnitsTotalAppend(a: seq<Block>, b: seq<Block>)
    ensures UnitsTotal(a + b) == UnitsTotal(a) + UnitsTotal(b)
    decreases |b|
  {
    if b == [] {
      assert a + b == a;
    } else {
      var init := b[..|b| - 1];
      UnitsTotalAppend(a, init);
      assert (a + b)[..|a + b| - 1] == a + init;
    }
  }

  /** A run of consecutive starts spans one slot per start. */
  lemma {:induction false} ConsecutiveRunSpan(run: seq<int>)
    requires run != []
    requires forall j :: 0 <= j < |run| - 1 ==> Consecutive(run[j], run[j + 1])
    ensures Last(run) == run[0] + 30 * (|run| - 1)
  {
    if |run| > 1 {
      var init := run[..|run| - 1];
      ConsecutiveRunSpan(init);
      assert Consecutive(run[|run| - 2], run[|run| - 1]);
    }
  }

  /** The block of a run of consecutive starts counts one unit per start and ends one slot per start later. */
  lemma ConsecutiveRunBlock(sheet: string, hall: string, court: string, run: seq<int>)
    requires run != []
    requires forall j :: 0 <= j < |run| - 1 ==> Consecutive(run[j], run[j + 1])
    ensures BlockOf(sheet, hall, court, run).units30 == |run|
    ensures Last(run) + SlotMinutes == run[0] + 30 * |run|
  {
    ConsecutiveRunSpan(run);
  }

  /** Over runs of consecutive starts, the units add up to the number of starts. */
  lemma {:induction false} RunBlocksUnits(sheet: string, hall: string, court: string, runs: seq<seq<int>>)
    requires forall i :: 0 <= i < |runs| ==> runs[i] != []
    requires RunsLinked(runs, Consecutive)
    ensures UnitsTotal(RunBlocks(sheet, hall, court, runs)) == |Flatten(runs)|
  {
    if runs != [] {
      var init := runs[..|runs| - 1];
      var run := Last(runs);
      assert runs == init + [run];
      assert RunsLinked(init, Consecutive) by {
        forall i, j | 0 <= i < |init| && 0 <= j < |init[i]| - 1 ensures Consecutive(init[i][j], init[i][j + 1]) {
          assert init[i] == runs[i];
        }
      }
      RunBlocksUnits(sheet, hall, court, init);
      ConsecutiveRunBlock(sheet, hall, court, run);
      UnitsTotalAppend(RunBlocks(sheet, hall, court, init), [BlockOf(sheet, hall, court, run)]);
      FlattenAppend(init, run);
    }
  }

  /** The `i`-th block of a key is the block of its `i`-th run. */
  lemma {:induction false} RunBlocksAt(sheet: string, hall: string, court: string, runs: seq<seq<int>>, i: nat)
    requires forall k :: 0 <= k < |runs| ==> runs[k] != []
    requires i < |runs|
    ensures |RunBlocks(sheet, hall, court, runs)| == |runs|
    ensures RunBlocks(sheet, hall, court, runs)[i] == BlockOf(sheet, hall, court, runs[i])
  {
    var init := runs[..|runs| - 1];
    var blocks := RunBlocks(sheet, hall, court, runs);
    RunBlocksLength(sheet, hall, court, runs);
    RunBlocksLength(sheet, hall, court, init);
    assert blocks == RunBlocks(sheet, hall, court, init) + [BlockOf(sheet, hall, court, Last(runs))];
    if i < |init| {
      RunBlocksAt(sheet, hall, court, init, i);
      assert runs[i] == init[i];
    }
  }

  lemma {:induction false} RunBlocksLength(sheet: string, hall: string, court: string, runs: seq<seq<int>>)
    requires forall k :: 0 <= k < |runs| ==> runs[k] != []
    ensures |RunBlocks(sheet, hall, court, runs)| == |runs|
  {
    if runs != [] {
      RunBlocksLength(sheet, hall, court, runs[..|runs| - 1]);
    }
  }

  /**
   * One key's runs hold exactly its starts in ascending order; inside a run
   * each start is the previous plus 30 minutes; each run ends no later than
   * the next begins, and the next does not begin one slot after it (else the
   * two would be one run).
   */
  lemma KeyRunsShape(starts: seq<int>)
    ensures var runs := Runs(starts);
            && Flatten(runs) == Sort(starts, IntLe)
            && Sorted(Flatten(runs), IntLe)
            && multiset(Flatten(runs)) == multiset(starts)
            && RunsLinked(runs, Consecutive)
            && (forall i :: 0 <= i < |runs| - 1 ==>
                  Last(runs[i]) <= runs[i + 1][0] && runs[i + 1][0] != Last(runs[i]) + SlotMinutes)
  {
    var sorted := Sort(starts, IntLe);
    var runs := Runs(starts);
    IntLeTotal();
    SortSorted(starts, IntLe);
    ChunkByLinked(sorted, Consecutive);
    ChunkBySeparated(sorted, Consecutive);
    ChunkByBoundaries(sorted, Consecutive, IntLe);
    assert forall i :: 0 <= i < |runs| - 1 ==> IntLe(Last(runs[i]), runs[i + 1][0]);
  }

  /**
   * One key's blocks: one per run, each spanning `[first, last + 30)` and
   * counting one unit per start, so the units add up to the number of starts.
   */
  lemma KeyBlocksShape(key: string, starts: seq<int>)
    ensures var runs := Runs(starts);
            && |KeyBlocks(key, starts)| == |runs|
            && (forall i :: 0 <= i < |runs| ==>
                  var b := KeyBlocks(key, starts)[i];
                  b.units30 == |runs[i]| && b.start == Some(FormatMinutesAsHHmm(runs[i][0])) &&
                  b.end == Some(FormatMinutesAsHHmm(runs[i][0] + 30 * |runs[i]|)))
            && UnitsTotal(KeyBlocks(key, starts)) == |starts|
  {
    var runs := Runs(starts);
    var (sheet, hall, court) := KeyParts(key);
    KeyRunsShape(starts);
    RunBlocksUnits(sheet, hall, court, runs);
    if runs != [] {
      RunBlocksAt(sheet, hall, court, runs, 0);
    }
    assert KeyBlocks(key, starts) == RunBlocks(sheet, hall, court, runs);
    forall i | 0 <= i < |runs|
      ensures var b := KeyBlocks(key, starts)[i];
              b.units30 == |runs[i]| && b.start == Some(FormatMinutesAsHHmm(runs[i][0])) &&
              b.end == Some(FormatMinutesAsHHmm(runs[i][0] + 30 * |runs[i]|))
    {
      RunBlocksAt(sheet, hall, court, runs, i);
      assert forall j :: 0 <= j < |runs[i]| - 1 ==> Consecutive(runs[i][j], runs[i][j + 1]);
      ConsecutiveRunBlock(sheet, hall, court, runs[i]);
    }
  }

  /** Two starts a whole number of slots apart, the first earlier. */
  predicate EarlierOnGrid(a: int, b: int)
  {
    a < b && (b - a) % SlotMinutes == 0
  }

  /**
   * When a key's starts are distinct and all on the half-hour grid, its blocks
   * neither overlap nor touch: each begins more than one slot after the
   * previous one's last start, i.e. after that block's end.
   */
  lemma KeyRunsDisjointOnGrid(starts: seq<int>)
    requires Distinct(starts)
    requires forall x :: x in starts ==> x % SlotMinutes == 0
    ensures var runs := Runs(starts);
            forall i :: 0 <= i < |runs| - 1 ==> Last(runs[i]) + SlotMinutes < runs[i + 1][0]
  {
    var sorted := Sort(starts, IntLe);
    var runs := Runs(starts);
    SortedOnGrid(starts);
    ChunkByBoundaries(sorted, Consecutive, EarlierOnGrid);
    ChunkBySeparated(sorted, Consecutive);
    forall i | 0 <= i < |runs| - 1 ensures Last(runs[i]) + SlotMinutes < runs[i + 1][0] {
      assert EarlierOnGrid(Last(runs[i]), runs[i + 1][0]);
      assert !Consecutive(Last(runs[i]), runs[i + 1][0]);
    }
  }

  lemma SortedOnGrid(starts: seq<int>)
    requires Distinct(starts)
    requires forall x :: x in starts ==> x % SlotMinutes == 0
    ensures Sorted(Sort(starts, IntLe), EarlierOnGrid)
  {
    var sorted := Sort(starts, IntLe);
    IntLeTotal();
    SortSorted(starts, IntLe);
    DistinctPermutation(starts, sorted);
    forall i | 0 <= i < |sorted| - 1 ensures EarlierOnGrid(sorted[i], sorted[i + 1]) {
      assert sorted[i] in multiset(starts) && sorted[i + 1] in multiset(starts);
      assert sorted[i] in starts && sorted[i + 1] in starts;
      assert IntLe(sorted[i], sorted[i + 1]);
      GridDifference(sorted[i], sorted[i + 1]);
    }
  }

  lemma GridDifference(a: int, b: int)
    requires a % SlotMinutes == 0 && b % SlotMinutes == 0
    ensures (b - a) % SlotMinutes == 0
  {
    var x, y := a / SlotMinutes, b / SlotMinutes;
    assert b - a == SlotMinutes * (y - x);
  }

  /** A start filed twice opens a second block: the same block comes out twice. */
  lemma DuplicateStartRepeatsBlock(key: string, m: int)
    ensures var (sheet, hall, court) := KeyParts(key);
            var b := BlockOf(sheet, hall, court, [m]);
            KeyBlocks(key, [m, m]) == [b, b]
  {
    DuplicateStartRuns(m);
    var (sheet, hall, court) := KeyParts(key);
    var b := BlockOf(sheet, hall, court, [m]);
    assert [[m], [m]][..1] == [[m]];
    assert RunBlocks(sheet, hall, court, [[m]]) == [b];
  }

  lemma DuplicateStartRuns(m: int)
    ensures Runs([m, m]) == [[m], [m]]
  {
    assert [m, m][..1] == [m];
    assert Sort([m], IntLe) == [m];
    assert Insert(m, [m], IntLe) == [m, m];
    assert Sort([m, m], IntLe) == [m, m];
    assert ChunkBy([m], Consecutive) == [[m]];
  }

  /** Over any list of keys, the units add up to the number of starts filed under them. */
  lemma {:induction false} GroupedBlocksUnits(ps: seq<(string, int)>, keys: seq<string>)
    ensures UnitsTotal(GroupedBlocks(ps, keys)) == GroupSizes(ps, keys)
  {
    if keys != [] {
      var init := keys[..|keys| - 1];
      GroupedBlocksUnits(ps, init);
      KeyBlocksShape(Last(keys), GroupOf(ps, Last(keys)));
      UnitsTotalAppend(GroupedBlocks(ps, init), KeyBlocks(Last(keys), GroupOf(ps, Last(keys))));
    }
  }

  /**
   * The invoice lines: none exactly when there are no bookings.  When some
   * booking contributes a start, the lines are the grouped blocks and their
   * units add up to the number of contributing bookings.  Otherwise the single
   * fallback line is built from the first booking, and its unit count is always
   * 1: that booking's start did not parse, so its duration is never computed.
   */
  lemma BlocksShape(bookings: seq<BookingEntry>)
    ensures Blocks(bookings) == [] <==> bookings == []
    ensures StartPairs(bookings) != [] ==>
              Blocks(bookings) == GroupedBlocks(StartPairs(bookings), GroupKeys(StartPairs(bookings))) &&
              UnitsTotal(Blocks(bookings)) == |StartPairs(bookings)|
    ensures StartPairs(bookings) == [] && bookings != [] ==>
              Blocks(bookings) == [FallbackBlock(bookings[0])] && FallbackBlock(bookings[0]).units30 == 1
    ensures bookings == [] ==> StartPairs(bookings) == []
  {
    var ps := StartPairs(bookings);
    GroupedBlocksUnits(ps, GroupKeys(ps));
    GroupSizesTotal(ps);
    if ps == [] && bookings != [] {
      StartPairsEmpty(bookings);
      StartOfShape(bookings[0]);
    }
  }

  /**
   * The keys of the blocks come in the order their first contributing booking
   * appears, each once, and they are exactly the keys of contributing bookings.
   */
  lemma BlockKeysFirstEncounter(bookings: seq<BookingEntry>)
    ensures var ps := StartPairs(bookings);
            var keys := GroupKeys(ps);
            && Distinct(keys)
            && (forall k :: k in keys <==> k in KeysOf(ps))
            && (forall i, j :: 0 <= i < j < |keys| ==>
                  FirstIndex(KeysOf(ps), keys[i]) < FirstIndex(KeysOf(ps), keys[j]))
            && (forall k :: k in keys <==>
                  exists i :: 0 <= i < |bookings| && KeyOf(bookings[i]) == k && StartOf(bookings[i]).Some?)
  {
    var ps := StartPairs(bookings);
    GroupKeysAreFirstEncounters(ps);
    forall k ensures k in KeysOf(ps) <==>
                     exists i :: 0 <= i < |bookings| && KeyOf(bookings[i]) == k && StartOf(bookings[i]).Some?
    {
      if k in KeysOf(ps) {
        var n :| 0 <= n < |ps| && KeysOf(ps)[n] == k;
        StartPairsMembers(bookings, k, ps[n].1);
      }
      if exists i :: 0 <= i < |bookings| && KeyOf(bookings[i]) == k && StartOf(bookings[i]).Some? {
        var i :| 0 <= i < |bookings| && KeyOf(bookings[i]) == k && StartOf(bookings[i]).Some?;
        StartPairsMembers(bookings, k, StartOf(bookings[i]).value);
        var n :| 0 <= n < |ps| && ps[n] == (k, StartOf(bookings[i]).value);
        assert KeysOf(ps)[n] == k;
      }
    }
  }

  // ---------------------------------------------------------------
  // Building the blocks (the loops of `generate`, step 3)
  // ---------------------------------------------------------------

  /** The map `startsByKey` after the loop over the bookings. */
  method CollectStarts(bookings: seq<BookingEntry>) returns (keys: seq<string>, startsByKey: map<string, seq<int>>)
    ensures (keys, startsByKey) == AddAll([], map[], StartPairs(bookings))
  {
    keys, startsByKey := [], map[];
    var i := 0;
    while i < |bookings|
      invariant 0 <= i <= |bookings|
      invariant (keys, startsByKey) == AddAll([], map[], StartPairs(bookings[..i]))
    {
      ghost var before := (keys, startsByKey);
      keys, startsByKey := FileStart(keys, startsByKey, bookings[i]);
      CollectStartsStep(bookings, i, before, (keys, startsByKey));
      i := i + 1;
    }
    assert bookings[..i] == bookings;
  }

  /** One pass of the loop over the bookings: file the booking's start, if it has one. */
  method FileStart(keys: seq<string>, startsByKey: map<string, seq<int>>, b: BookingEntry)
    returns (keys': seq<string>, startsByKey': map<string, seq<int>>)
    ensures (keys', startsByKey') ==
              if StartOf(b).Some? then AddTo(keys, startsByKey, KeyOf(b), StartOf(b).value)
              else (keys, startsByKey)
  {
    keys', startsByKey' := keys, startsByKey;
    var from := Prefer(b.timeFrom, FromRaw(b.timeRaw));
    if from.None? || IsBlank(from.value) {
      return;
    }
    var m := ParseHmToMinutes(from);
    if m < 0 {
      return;
    }
    keys', startsByKey' := ComputeIfAbsentAdd(keys, startsByKey, KeyOf(b), m);
  }

  lemma CollectStartsStep(bookings: seq<BookingEntry>, i: nat,
                          before: (seq<string>, map<string, seq<int>>), after: (seq<string>, map<string, seq<int>>))
    requires i < |bookings|
    requires before == AddAll([], map[], StartPairs(bookings[..i]))
    requires after == if StartOf(bookings[i]).Some? then AddTo(before.0, before.1, KeyOf(bookings[i]), StartOf(bookings[i]).value)
                      else before
    ensures after == AddAll([], map[], StartPairs(bookings[..i + 1]))
  {
    StartPairsStep(bookings, i);
    var done := StartPairs(bookings[..i]);
    if StartOf(bookings[i]).Some? {
      var p := (KeyOf(bookings[i]), StartOf(bookings[i]).value);
      assert (done + [p])[..|done|] == done;
    } else {
      assert done + [] == done;
    }
  }

  // ---------------------------------------------------------------
  // Price per unit and totals (steps 2 and 4 of `generate`)
  // ---------------------------------------------------------------

  /** The bookings' prices, in list order. */
  function Prices(bookings: seq<BookingEntry>): (r: seq<Option<real>>)
    ensures |r| == |bookings|
    ensures forall i :: 0 <= i < |r| ==> r[i] == bookings[i].price
  {
    seq(|bookings|, i requires 0 <= i < |bookings| => bookings[i].price)
  }

  /** The loop of step 2: the price of the first booking that has one. */
  method PricePerUnit(bookings: seq<BookingEntry>) returns (price: Option<real>)
    ensures price == FirstSome(Prices(bookings))
  {
    price := None;
    var i := 0;
    while i < |bookings|
      invariant 0 <= i <= |bookings|
      invariant price.None? ==> forall j :: 0 <= j < i ==> bookings[j].price.None?
      invariant price.Some? ==> price == FirstSome(Prices(bookings))
    {
      if bookings[i].price.Some? {
        price := bookings[i].price;
        FirstSomeAt(Prices(bookings), i);
        break;
      }
      i := i + 1;
    }
    if price.None? {
      FirstSomeIsEarliest(Prices(bookings));
    }
  }

  /**
   * Steps 2 to 4 up to the net amount: either the gross is null and
   * `brutto / 1.19` throws, or the price per unit, the total units and the gross.
   */
  datatype Amounts =
    | GrossUnboxesNull
    | Amounts(pricePerUnit: real, totalUnits30: int, brutto: real)

  /** `pricePerUnit * totalUnits30`, exactly. */
  function Gross(pricePerUnit: real, totalUnits30: int): real
  {
    pricePerUnit * totalUnits30 as real
  }

  function InvoiceAmounts(bookings: seq<BookingEntry>): Amounts
  {
    var price := FirstSome(Prices(bookings));
    if price.None? then GrossUnboxesNull
    else
      var units := UnitsTotal(Blocks(bookings));
      Amounts(price.value, units, Gross(price.value, units))
  }

  /** Price, blocks and totals as `generate` computes them, in its order. */
  method ComputeAmounts(bookings: seq<BookingEntry>) returns (r: Amounts)
    ensures r == InvoiceAmounts(bookings)
  {
    var price := PricePerUnit(bookings);
    var blocks := BuildBlocks(bookings);
    var totalUnits30 := UnitsTotal(blocks);
    if price.None? {
      r := GrossUnboxesNull;
    } else {
      r := Amounts(price.value, totalUnits30, Gross(price.value, totalUnits30));
    }
  }

  /** `generate` fails at the net amount exactly when no booking has a price. */
  lemma NullGrossIffNoPrice(bookings: seq<BookingEntry>)
    ensures InvoiceAmounts(bookings).GrossUnboxesNull? <==> forall i :: 0 <= i < |bookings| ==> bookings[i].price.None?
  {
    FirstSomeIsEarliest(Prices(bookings));
  }

  /**
   * With a price, the price per unit is the first booking's price in list
   * order, the total units count one per contributing booking (or 1 for the
   * fallback line), and the gross is price times units.
   */
  lemma AmountsShape(bookings: seq<BookingEntry>)
    ensures var a := InvoiceAmounts(bookings);
            a.Amounts? ==>
              && (exists i :: 0 <= i < |bookings| && bookings[i].price == Some(a.pricePerUnit) &&
                    forall j :: 0 <= j < i ==> bookings[j].price.None?)
              && a.totalUnits30 == (if StartPairs(bookings) != [] then |StartPairs(bookings)| else 1)
              && a.brutto == Gross(a.pricePerUnit, a.totalUnits30)
  {
    var prices := Prices(bookings);
    FirstSomeIsEarliest(prices);
    if FirstSome(prices).Some? {
      var i :| 0 <= i < |prices| && prices[i] == FirstSome(prices) && forall j :: 0 <= j < i ==> prices[j].None?;
      assert bookings[i].price == FirstSome(prices);
      TotalUnits(bookings);
    }
  }

  /** The units of a non-empty booking list: one per contributing booking, or the fallback's 1. */
  lemma TotalUnits(bookings: seq<BookingEntry>)
    requires bookings != []
    ensures UnitsTotal(Blocks(bookings)) == if StartPairs(bookings) != [] then |StartPairs(bookings)| else 1
  {
    BlocksShape(bookings);
    if StartPairs(bookings) == [] {
      assert UnitsTotal([FallbackBlock(bookings[0])]) == FallbackBlock(bookings[0]).units30;
    }
  }

  /**
   * Step 3 of `generate`: file the starts by key, turn each key's sorted starts
   * into blocks, and fall back to one block for the first booking when none formed.
   */
  method BuildBlocks(bookings: seq<BookingEntry>) returns (blocks: seq<Block>)
    ensures blocks == Blocks(bookings)
  {
    var keys, startsByKey := CollectStarts(bookings);
    ghost var ps := StartPairs(bookings);
    CollectedGroups(bookings, keys, startsByKey);
    blocks := [];
    var j := 0;
    while j < |keys|
      invariant 0 <= j <= |keys|
      invariant blocks == GroupedBlocks(ps, keys[..j])
    {
      var key := keys[j];
      var (sheet, hall, court) := KeyParts(key);
      var starts := Sort(startsByKey[key], IntLe);
      KeyStartsNonNegative(ps, key);
      ghost var before := blocks;
      blocks := AppendKeyBlocks(blocks, sheet, hall, court, starts);
      GroupedBlocksStep(ps, keys, j, before, blocks);
      j := j + 1;
    }
    assert keys[..j] == keys;
    if blocks == [] && bookings != [] {
      blocks := [FallbackBlock(bookings[0])];
    }
  }

  /** The filed keys and lists are the first-encounter keys and the per-key starts. */
  lemma CollectedGroups(bookings: seq<BookingEntry>, keys: seq<string>, startsByKey: map<string, seq<int>>)
    requires (keys, startsByKey) == AddAll([], map[], StartPairs(bookings))
    ensures keys == GroupKeys(StartPairs(bookings))
    ensures forall k :: k in keys ==> k in startsByKey && startsByKey[k] == GroupOf(StartPairs(bookings), k)
    ensures forall i :: 0 <= i < |StartPairs(bookings)| ==> StartPairs(bookings)[i].1 >= 0
  {
    var ps := StartPairs(bookings);
    AddAllRepresents([], map[], [], ps);
    assert [] + ps == ps;
    GroupMapIsGroupOf(ps);
    GroupKeysAreFirstEncounters(ps);
    StartPairsNonNegative(bookings);
  }

  /** Appending one key's blocks extends the grouped blocks by that key. */
  lemma GroupedBlocksStep(ps: seq<(string, int)>, keys: seq<string>, j: nat, before: seq<Block>, after: seq<Block>)
    requires j < |keys|
    requires before == GroupedBlocks(ps, keys[..j])
    requires after == before + RunBlocks(KeyParts(keys[j]).0, KeyParts(keys[j]).1, KeyParts(keys[j]).2,
                                         ChunkBy(Sort(GroupOf(ps, keys[j]), IntLe), Consecutive))
    ensures after == GroupedBlocks(ps, keys[..j + 1])
  {
    assert keys[..j + 1][..j] == keys[..j];
  }

  /** The sorted starts of one key are all non-negative, so they can be cut into runs. */
  lemma KeyStartsNonNegative(ps: seq<(string, int)>, key: string)
    requires forall i :: 0 <= i < |ps| ==> ps[i].1 >= 0
    ensures forall i :: 0 <= i < |Sort(GroupOf(ps, key), IntLe)| ==> Sort(GroupOf(ps, key), IntLe)[i] >= 0
  {
    var sorted := Sort(GroupOf(ps, key), IntLe);
    forall i | 0 <= i < |sorted|
      ensures sorted[i] >= 0
    {
      assert sorted[i] in multiset(sorted);
      GroupOfMembers(ps, key, sorted[i]);
    }
  }

  /**
   * The `segStart`/`last` loop over one key's sorted starts: appends one block
   * per maximal run of starts 30 minutes apart.
   */
  method AppendKeyBlocks(blocks: seq<Block>, sheet: string, hall: string, court: string, starts: seq<int>)
    returns (blocks': seq<Block>)
    requires forall i :: 0 <= i < |starts| ==> starts[i] >= 0
    ensures blocks' == blocks + RunBlocks(sheet, hall, court, ChunkBy(starts, Consecutive))
  {
    blocks' := blocks;
    var segStart, last := -1, -1;
    ghost var closed: seq<seq<int>>, open: seq<int> := [], [];
    var i := 0;
    while i < |starts|
      invariant 0 <= i <= |starts|
      invariant SegmentState(blocks, sheet, hall, court, starts[..i], blocks', segStart, last, closed, open)
    {
      var s := starts[i];
      ghost var done := starts[..i];
      i := i + 1;
      assert starts[..i] == done + [s];
      blocks', segStart, last, closed, open := AdvanceSegment(blocks, sheet, hall, court, done, blocks', segStart, last, closed, open, s);
    }
    assert starts[..i] == starts;
    if segStart >= 0 {
      ghost var prefix := blocks';
      blocks' := blocks' + [SegmentBlock(sheet, hall, court, segStart, last)];
      ClosedBlocksStep(blocks, prefix, blocks', sheet, hall, court, closed, open);
    }
  }

  /**
   * What the loop of AppendKeyBlocks keeps after reading the starts `done`:
   * the runs of `done` are the closed runs and the open run from `segStart` to
   * `last`, and the blocks of the closed runs have been appended.
   */
  ghost predicate SegmentState(blocks: seq<Block>, sheet: string, hall: string, court: string, done: seq<int>,
                               blocks': seq<Block>, segStart: int, last: int, closed: seq<seq<int>>, open: seq<int>)
  {
    if done == [] then segStart < 0 && blocks' == blocks
    else
      segStart >= 0 && open != [] && segStart == open[0] && last == Last(open)
      && (forall k :: 0 <= k < |closed| ==> closed[k] != [])
      && ChunkBy(done, Consecutive) == closed + [open]
      && blocks' == blocks + RunBlocks(sheet, hall, court, closed)
  }

  /** One iteration of the loop of AppendKeyBlocks: extend the open run, or close it and open a new one at `s`. */
  method AdvanceSegment(blocks: seq<Block>, sheet: string, hall: string, court: string, ghost done: seq<int>,
                        blocks': seq<Block>, segStart: int, last: int, ghost closed: seq<seq<int>>, ghost open: seq<int>, s: int)
    returns (blocks'': seq<Block>, segStart': int, last': int, ghost closed': seq<seq<int>>, ghost open': seq<int>)
    requires s >= 0
    requires SegmentState(blocks, sheet, hall, court, done, blocks', segStart, last, closed, open)
    ensures SegmentState(blocks, sheet, hall, court, done + [s], blocks'', segStart', last', closed', open')
  {
    if segStart < 0 {
      blocks'', segStart', last' := blocks', s, s;
      closed', open' := [], [s];
      OpenFirstSegment(blocks, sheet, hall, court, done, blocks', segStart, last, closed, open, s);
    } else if s == last + SlotMinutes {
      blocks'', segStart', last' := blocks', segStart, s;
      closed', open' := closed, open + [s];
      ExtendSegment(blocks, sheet, hall, court, done, blocks', segStart, last, closed, open, s);
    } else {
      blocks'' := blocks' + [SegmentBlock(sheet, hall, court, segStart, last)];
      segStart', last' := s, s;
      closed', open' := closed + [open], [s];
      CloseSegment(blocks, sheet, hall, court, done, blocks', segStart, last, closed, open, s, blocks'');
    }
  }

  /** The first start opens the first run. */
  lemma OpenFirstSegment(blocks: seq<Block>, sheet: string, hall: string, court: string, done: seq<int>,
                         blocks': seq<Block>, segStart: int, last: int, closed: seq<seq<int>>, open: seq<int>, s: int)
    requires s >= 0 && segStart < 0
    requires SegmentState(blocks, sheet, hall, court, done, blocks', segStart, last, closed, open)
    ensures SegmentState(blocks, sheet, hall, court, done + [s], blocks', s, s, [], [s])
  {
    SegmentStep(done, s, closed, open);
  }

  /** A start 30 minutes after the last one extends the open run. */
  lemma ExtendSegment(blocks: seq<Block>, sheet: string, hall: string, court: string, done: seq<int>,
                      blocks': seq<Block>, segStart: int, last: int, closed: seq<seq<int>>, open: seq<int>, s: int)
    requires s >= 0 && segStart >= 0 && s == last + SlotMinutes
    requires SegmentState(blocks, sheet, hall, court, done, blocks', segStart, last, closed, open)
    ensures SegmentState(blocks, sheet, hall, court, done + [s], blocks', segStart, s, closed, open + [s])
  {
    SegmentStep(done, s, closed, open);
  }

  /** Any other start closes the open run, appends its block and opens `[s]`. */
  lemma CloseSegment(blocks: seq<Block>, sheet: string, hall: string, court: string, done: seq<int>,
                     blocks': seq<Block>, segStart: int, last: int, closed: seq<seq<int>>, open: seq<int>, s: int,
                     blocks'': seq<Block>)
    requires s >= 0 && segStart >= 0 && s != last + SlotMinutes
    requires SegmentState(blocks, sheet, hall, court, done, blocks', segStart, last, closed, open)
    requires blocks'' == blocks' + [SegmentBlock(sheet, hall, court, segStart, last)]
    ensures SegmentState(blocks, sheet, hall, court, done + [s], blocks'', s, s, closed + [open], [s])
  {
    SegmentStep(done, s, closed, open);
    ClosedBlocksStep(blocks, blocks', blocks'', sheet, hall, court, closed, open);
    var closed' := closed + [open];
    forall k | 0 <= k < |closed'|
      ensures closed'[k] != []
    {
      if k < |closed| {
        assert closed'[k] == closed[k];
      }
    }
    SegmentStateOf(blocks, sheet, hall, court, done + [s], blocks'', s, closed', [s]);
  }

  /** The loop state once the runs and the blocks of the closed runs are known. */
  lemma SegmentStateOf(blocks: seq<Block>, sheet: string, hall: string, court: string, done: seq<int>,
                       blocks': seq<Block>, s: int, closed: seq<seq<int>>, open: seq<int>)
    requires done != [] && s >= 0 && open == [s]
    requires forall k :: 0 <= k < |closed| ==> closed[k] != []
    requires ChunkBy(done, Consecutive) == closed + [open]
    requires blocks' == blocks + RunBlocks(sheet, hall, court, closed)
    ensures SegmentState(blocks, sheet, hall, court, done, blocks', s, s, closed, open)
  {
  }

  /** The runs after one more start: the open run grows, or it closes and `[s]` opens. */
  lemma SegmentStep(done: seq<int>, s: int, closed: seq<seq<int>>, open: seq<int>)
    requires ChunkBy(done, Consecutive) == if done == [] then [] else closed + [open]
    requires done != [] ==> open != []
    ensures done == [] ==> ChunkBy(done + [s], Consecutive) == [[s]]
    ensures done != [] && Consecutive(Last(open), s) ==> ChunkBy(done + [s], Consecutive) == closed + [open + [s]]
    ensures done != [] && !Consecutive(Last(open), s) ==> ChunkBy(done + [s], Consecutive) == (closed + [open]) + [[s]]
  {
    ChunkByStep(done, s, Consecutive);
    if done != [] {
      assert (closed + [open])[..|closed|] == closed;
    }
  }

  /** Closing the open run appends its block. */
  lemma ClosedBlocksStep(blocks: seq<Block>, prefix: seq<Block>, blocks': seq<Block>, sheet: string, hall: string, court: string,
                         closed: seq<seq<int>>, open: seq<int>)
    requires forall i :: 0 <= i < |closed| ==> closed[i] != []
    requires open != []
    requires prefix == blocks + RunBlocks(sheet, hall, court, closed)
    requires blocks' == prefix + [SegmentBlock(sheet, hall, court, open[0], Last(open))]
    ensures blocks' == blocks + RunBlocks(sheet, hall, court, closed + [open])
  {
    RunBlocksSnoc(sheet, hall, court, closed, open);
  }

  /** One more run adds its block at the end. */
  lemma RunBlocksSnoc(sheet: string, hall: string, court: string, closed: seq<seq<int>>, run: seq<int>)
    requires forall i :: 0 <= i < |closed| ==> closed[i] != []
    requires run != []
    ensures RunBlocks(sheet, hall, court, closed + [run]) ==
              RunBlocks(sheet, hall, court, closed) + [BlockOf(sheet, hall, court, run)]
  {
    assert (closed + [run])[..|closed|] == closed;
  }

  // ---------------------------------------------------------------
  // The description cell of an invoice line (fillRowWithBlock)
  // ---------------------------------------------------------------

  /** A literal, then the placeholder `{{k}}`, then the rest of the template. */
  function Segment(a: string, k: string, rest: string): string
  {
    a + "{{" + k + "}}" + rest
  }

  /** The description template `{{spieltag}} Platz {{platz}} von {{startzeit}} bis {{endzeit}} Uhr`. */
  const DescTemplate: string :=
    Segment("", "spieltag", Segment(" Platz ", "platz", Segment(" von ", "startzeit", Segment(" bis ", "endzeit", " Uhr"))))

  /** The local variables of the description: absent times become empty. */
  function DescVars(b: Block): map<string, string>
  {
    map["spieltag" := b.sheet, "platz" := b.court, "startzeit" := OrEmpty(b.start), "endzeit" := OrEmpty(b.end)]
  }

  /** The description written out directly, used when the cell has no placeholder. */
  function DescFallback(b: Block): string
  {
    b.sheet + " Platz " + b.court + " von " + OrEmpty(b.start) + " bis " + OrEmpty(b.end) + " Uhr"
  }

  /** Filling the template gives exactly the fallback text, whatever the block's values contain. */
  lemma DescriptionText(b: Block)
    ensures Placeholders.Substitute(DescTemplate, 0, DescVars(b)) == DescFallback(b)
  {
    var vars := DescVars(b);
    var t4 := " Uhr";
    var t3 := Segment(" bis ", "endzeit", t4);
    var t2 := Segment(" von ", "startzeit", t3);
    var t1 := Segment(" Platz ", "platz", t2);
    KeysAndLiterals();
    var v1, v2, v3, v4 := Placeholders.Substitute(t1, 0, vars), Placeholders.Substitute(t2, 0, vars),
                          Placeholders.Substitute(t3, 0, vars), Placeholders.Substitute(t4, 0, vars);
    LiteralStep("", "spieltag", t1, vars);
    LiteralStep(" Platz ", "platz", t2, vars);
    LiteralStep(" von ", "startzeit", t3, vars);
    LiteralStep(" bis ", "endzeit", t4, vars);
    Placeholders.NoBraceNoPlaceholder(t4, 0, vars);
    assert v4 == t4;
    FallbackParts(b, v1, v2, v3, v4);
  }

  /** The keys of the template are keys of the pattern, and its literals hold no `{`. */
  lemma KeysAndLiterals()
    ensures Placeholders.IsKey("spieltag") && Placeholders.IsKey("platz")
    ensures Placeholders.IsKey("startzeit") && Placeholders.IsKey("endzeit")
    ensures '{' !in " Uhr" && '{' !in " Platz " && '{' !in " von " && '{' !in " bis " && '{' !in ""
  {
  }

  /** The fallback text assembled from the pieces the substitution produces. */
  lemma FallbackParts(b: Block, v1: string, v2: string, v3: string, v4: string)
    requires v4 == " Uhr"
    requires v3 == " bis " + OrEmpty(b.end) + v4
    requires v2 == " von " + OrEmpty(b.start) + v3
    requires v1 == " Platz " + b.court + v2
    ensures "" + b.sheet + v1 == DescFallback(b)
  {
  }

  /** A brace-free literal followed by a placeholder: the literal is kept and the placeholder replaced. */
  lemma LiteralStep(a: string, k: string, b: string, vars: map<string, string>)
    requires '{' !in a && Placeholders.IsKey(k)
    ensures Placeholders.Substitute(Segment(a, k, b), 0, vars) ==
              a + Placeholders.Lookup(vars, k) + Placeholders.Substitute(b, 0, vars)
  {
    Placeholders.NoBraceNoPlaceholder(a, 0, vars);
    Placeholders.SubstituteSplice(a, k, b, vars);
  }

  /**
   * Writing the description into the first cell of a row: with a placeholder
   * in the cell the template is filled, otherwise the fallback text is
   * scanned for placeholders as well; both give the fallback text when the
   * block's values hold no `{`.
   */
  method FillDescription(cell: Placeholders.Cell, b: Block)
    modifies cell
    ensures |cell.paragraphs| == 1
    ensures Placeholders.Concat(cell.paragraphs[0].runs) ==
              if Contains(old(cell.Text()), "{{") then DescFallback(b)
              else Placeholders.Substitute(DescFallback(b), 0, DescVars(b))
    ensures '{' !in DescFallback(b) ==> Placeholders.Concat(cell.paragraphs[0].runs) == DescFallback(b)
  {
    ghost var before := cell.Text();
    cell.SetCellFromTemplate(DescTemplate, DescVars(b), DescFallback(b));
    if Contains(before, "{{") {
      Placeholders.SubstituteRunsText(DescTemplate, 0, DescVars(b), Placeholders.InCell);
      DescriptionText(b);
    } else {
      Placeholders.SubstituteRunsText(DescFallback(b), 0, DescVars(b), Placeholders.InCell);
    }
    if '{' !in DescFallback(b) {
      Placeholders.NoBraceNoPlaceholder(DescFallback(b), 0, DescVars(b));
    }
  }
}
