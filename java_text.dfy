/**
 * The small part of java.lang.String and java.util.regex that the invoice
 * code relies on, over Dafny strings.  A Java `null` string is `None`.
 */
module JavaText {

  datatype Option<T> = None | Some(value: T)

  /** Java `s == null ? "" : s` (`nz` / `orEmpty` in the source). */
  function OrEmpty(s: Option<string>): string
  {
    if s.Some? then s.value else ""
  }

  function Last<T>(s: seq<T>): T
    requires |s| > 0
  {
    s[|s| - 1]
  }

  // ---------------------------------------------------------------
  // Character classes
  // ---------------------------------------------------------------

  /** Characters removed by `String.trim()`: every code point up to U+0020. */
  predicate IsTrimmable(c: char) { c <= ' ' }

  /** `Character.isWhitespace`, which `String.isBlank()` uses. */
  predicate IsWhitespace(c: char)
  {
    ('\U{0009}' <= c <= '\U{000D}') || ('\U{001C}' <= c <= ' ') || c == '\U{1680}'
    || ('\U{2000}' <= c <= '\U{2006}') || ('\U{2008}' <= c <= '\U{200A}')
    || c == '\U{2028}' || c == '\U{2029}' || c == '\U{205F}' || c == '\U{3000}'
  }

  /** The regex class `\s` (no UNICODE_CHARACTER_CLASS flag). */
  predicate IsRegexSpace(c: char)
  {
    c == ' ' || c == '\t' || c == '\n' || c == '\U{000B}' || c == '\U{000C}' || c == '\r'
  }

  /** The regex class `\d`. */
  predicate IsDigit(c: char) { '0' <= c <= '9' }

  /** Characters that the regex `.` does not match. */
  predicate IsLineTerminator(c: char)
  {
    c == '\n' || c == '\r' || c == '\U{0085}' || c == '\U{2028}' || c == '\U{2029}'
  }

  lemma RegexSpaceIsTrimmable(c: char)
    ensures IsRegexSpace(c) ==> IsTrimmable(c) && IsWhitespace(c)
  {
  }

  predicate AllDigits(s: string)
  {
    forall i :: 0 <= i < |s| ==> IsDigit(s[i])
  }

  function DigitValue(c: char): nat
    requires IsDigit(c)
  {
    (c as int) - ('0' as int)
  }

  /** `Integer.parseInt` on a string of ASCII digits. */
  function DigitsValue(s: string): nat
    requires AllDigits(s)
  {
    if s == [] then 0 else 10 * DigitsValue(s[..|s| - 1]) + DigitValue(s[|s| - 1])
  }

  function DigitChar(d: nat): (c: char)
    requires d < 10
    ensures IsDigit(c) && DigitValue(c) == d
  {
    (('0' as int) + d) as char
  }

  /** `Integer.toString` of a non-negative number. */
  function DecimalString(n: nat): (r: string)
    ensures |r| >= 1 && AllDigits(r) && DigitsValue(r) == n
    ensures n < 10 ==> |r| == 1
    ensures 10 <= n < 100 ==> |r| == 2
  {
    if n < 10 then [DigitChar(n)]
    else
      var p := DecimalString(n / 10);
      var r := p + [DigitChar(n % 10)];
      assert r[..|r| - 1] == p;
      r
  }

  /** The value of a two-digit text, digit by digit. */
  lemma TwoDigitsValue(p: string)
    requires |p| == 2 && AllDigits(p)
    ensures DigitsValue(p) == DigitValue(p[0]) * 10 + DigitValue(p[1])
  {
    var q := p[..1];
    assert q[..0] == [] && q[0] == p[0];
    assert DigitsValue(q) == DigitValue(p[0]);
  }

  /** `String.format("%02d", n)` for a non-negative number. */
  function Pad2(n: nat): (r: string)
    ensures AllDigits(r) && DigitsValue(r) == n
    ensures n < 100 ==> |r| == 2
    ensures |r| >= 2
  {
    if n < 10 then
      var d := DecimalString(n);
      assert DigitsValue("0") == 0;
      assert ("0" + d)[..1] == "0";
      "0" + d
    else DecimalString(n)
  }

  // ---------------------------------------------------------------
  // trim, isBlank, isEmpty
  // ---------------------------------------------------------------

  function TrimStart(s: string): string
  {
    if s != [] && IsTrimmable(s[0]) then TrimStart(s[1..]) else s
  }

  function TrimEnd(s: string): string
  {
    if s != [] && IsTrimmable(s[|s| - 1]) then TrimEnd(s[..|s| - 1]) else s
  }

  /** `TrimStart` drops a prefix of trimmable chars and stops at the first other one. */
  lemma {:induction false} TrimStartShape(s: string)
    ensures |TrimStart(s)| <= |s| && TrimStart(s) == s[|s| - |TrimStart(s)|..]
    ensures TrimStart(s) == [] || !IsTrimmable(TrimStart(s)[0])
    ensures forall i :: 0 <= i < |s| - |TrimStart(s)| ==> IsTrimmable(s[i])
    decreases |s|
  {
    if s != [] && IsTrimmable(s[0]) {
      TrimStartShape(s[1..]);
    }
  }

  /** `TrimEnd` drops a suffix of trimmable chars and stops at the last other one. */
  lemma {:induction false} TrimEndShape(s: string)
    ensures |TrimEnd(s)| <= |s| && TrimEnd(s) == s[..|TrimEnd(s)|]
    ensures TrimEnd(s) == [] || !IsTrimmable(TrimEnd(s)[|TrimEnd(s)| - 1])
    ensures forall i :: |TrimEnd(s)| <= i < |s| ==> IsTrimmable(s[i])
    decreases |s|
  {
    if s != [] && IsTrimmable(s[|s| - 1]) {
      TrimEndShape(s[..|s| - 1]);
    }
  }

  /** A string `trim()` leaves alone: empty, or no trimmable char at either end. */
  predicate IsTrimmed(s: string)
  {
    s == [] || (!IsTrimmable(s[0]) && !IsTrimmable(s[|s| - 1]))
  }

  /** `String.trim()`. */
  function Trim(s: string): string
  {
    TrimEnd(TrimStart(s))
  }

  lemma {:induction false} TrimShape(s: string)
    ensures IsTrimmed(Trim(s))
    ensures |Trim(s)| <= |s|
    ensures Trim(s) == [] <==> forall i :: 0 <= i < |s| ==> IsTrimmable(s[i])
  {
    var t := TrimStart(s);
    var r := TrimEnd(t);
    TrimStartShape(s);
    TrimEndShape(t);
    var a := |s| - |t|;
    assert r == s[a..a + |r|];
    if r == [] {
      assert t == [];
    } else {
      assert r[0] == t[0];
    }
  }

  lemma TrimOfTrimmed(s: string)
    requires IsTrimmed(s)
    ensures Trim(s) == s
  {
  }

  lemma TrimIdempotent(s: string)
    ensures Trim(Trim(s)) == Trim(s)
  {
    TrimShape(s);
    TrimOfTrimmed(Trim(s));
  }

  /** ExcelReader's `isBlank` and ExcelReaderOld's `!notBlank`: null, or `trim()` is empty. */
  predicate IsBlankOrNull(s: Option<string>)
  {
    s.None? || Trim(s.value) == []
  }

  /** `String.isBlank()`: every char is whitespace in the sense of Character.isWhitespace. */
  predicate IsBlank(s: string)
  {
    forall i :: 0 <= i < |s| ==> IsWhitespace(s[i])
  }

  // ---------------------------------------------------------------
  // Case
  // ---------------------------------------------------------------

  function LowerChar(c: char): char
  {
    if 'A' <= c <= 'Z' then ((c as int) + 32) as char else c
  }

  /** `toLowerCase(Locale.ROOT)`, for the ASCII letters. */
  function Lower(s: string): string
  {
    seq(|s|, i requires 0 <= i < |s| => LowerChar(s[i]))
  }

  /** `String.equalsIgnoreCase`, for the ASCII letters. */
  predicate EqualsIgnoreCase(a: string, b: string)
  {
    Lower(a) == Lower(b)
  }

  // ---------------------------------------------------------------
  // Searching and literal replacement
  // ---------------------------------------------------------------

  predicate HasPrefix(s: string, p: string)
  {
    |p| <= |s| && s[..|p|] == p
  }

  /** `String.contains`. */
  predicate Contains(s: string, p: string)
    decreases |s|
  {
    HasPrefix(s, p) || (s != [] && Contains(s[1..], p))
  }

  /** `String.replace(CharSequence, CharSequence)`: non-overlapping, left to right. */
  function Replace(s: string, pat: string, rep: string): string
    requires pat != []
    decreases |s|
  {
    if s == [] then []
    else if HasPrefix(s, pat) then rep + Replace(s[|pat|..], pat, rep)
    else [s[0]] + Replace(s[1..], pat, rep)
  }

  lemma {:induction false} ReplaceAbsent(s: string, pat: string, rep: string)
    requires pat != [] && pat[0] !in s
    ensures Replace(s, pat, rep) == s
    decreases |s|
  {
    if s != [] {
      assert !HasPrefix(s, pat) by { assert s[0] != pat[0]; }
      ReplaceAbsent(s[1..], pat, rep);
    }
  }

  /** `String.replace(char, char)`. */
  function ReplaceChar(s: string, a: char, b: char): (r: string)
    ensures |r| == |s|
    ensures forall i :: 0 <= i < |s| ==> r[i] == if s[i] == a then b else s[i]
  {
    seq(|s|, i requires 0 <= i < |s| => if s[i] == a then b else s[i])
  }

  lemma ReplaceCharAbsent(s: string, a: char, b: char)
    requires a !in s
    ensures ReplaceChar(s, a, b) == s
  {
  }

  /** The chars of `s` that satisfy `keep`, in order. */
  function Filter(s: string, keep: char -> bool): (r: string)
    ensures |r| <= |s|
    ensures forall i :: 0 <= i < |r| ==> keep(r[i])
  {
    if s == [] then [] else (if keep(s[0]) then [s[0]] else []) + Filter(s[1..], keep)
  }

  // ---------------------------------------------------------------
  // String.split on one literal char, all pieces kept (limit -1)
  // ---------------------------------------------------------------

  function IndexOf(s: string, c: char): (i: nat)
    requires c in s
    ensures i < |s| && s[i] == c && c !in s[..i]
  {
    if s[0] == c then 0 else 1 + IndexOf(s[1..], c)
  }

  /** The pieces of `s` between occurrences of `c`; `key.split("\\|", -1)` for `c == '|'`. */
  function SplitOn(s: string, c: char): (r: seq<string>)
    ensures |r| >= 1
    decreases |s|
  {
    if c !in s then [s]
    else
      var i := IndexOf(s, c);
      [s[..i]] + SplitOn(s[i + 1..], c)
  }

  lemma SplitOnTwo(a: string, c: char, b: string)
    requires c !in a
    ensures SplitOn(a + [c] + b, c) == [a] + SplitOn(b, c)
  {
    var s := a + [c] + b;
    assert s[|a|] == c;
    assert c in s;
    var i := IndexOf(s, c);
    assert i == |a|;
    assert s[..i] == a && s[i + 1..] == b;
  }

  // ---------------------------------------------------------------
  // The clock-time patterns `\d{1,2}:\d{2}` and `\d{1,2}:\d{2}:\d{2}`
  // ---------------------------------------------------------------

  /** `t.matches("\\d{1,2}:\\d{2}")`: one or two digits, a colon, two digits. */
  predicate IsHourMinute(t: string)
  {
    || (|t| == 4 && IsDigit(t[0]) && t[1] == ':' && IsDigit(t[2]) && IsDigit(t[3]))
    || (|t| == 5 && IsDigit(t[0]) && IsDigit(t[1]) && t[2] == ':' && IsDigit(t[3]) && IsDigit(t[4]))
  }

  /** `t.matches("\\d{1,2}:\\d{2}:\\d{2}")`. */
  predicate IsHourMinuteSecond(t: string)
  {
    |t| >= 3 && IsHourMinute(t[..|t| - 3]) && t[|t| - 3] == ':' && IsDigit(t[|t| - 2]) && IsDigit(t[|t| - 1])
  }

  /** The number before the colon of an `H:MM`/`HH:MM` text. */
  function HourOf(t: string): nat
    requires IsHourMinute(t)
  {
    DigitsValue(t[..|t| - 3])
  }

  /** The number after the colon of an `H:MM`/`HH:MM` text. */
  function MinuteOf(t: string): (m: nat)
    requires IsHourMinute(t)
    ensures m < 100
  {
    DigitValue(t[|t| - 2]) * 10 + DigitValue(t[|t| - 1])
  }

  /** An `H:MM`/`HH:MM` text has nothing `trim()` or `isBlank()` would see. */
  lemma HourMinuteIsTrimmed(t: string)
    requires IsHourMinute(t)
    ensures IsTrimmed(t) && Trim(t) == t && !IsBlank(t)
  {
    TrimOfTrimmed(t);
    assert !IsWhitespace(t[0]);
  }

  // ---------------------------------------------------------------
  // String.split("\\s*-\\s*")
  // ---------------------------------------------------------------

  function StripSpaceStart(s: string): string
  {
    if s != [] && IsRegexSpace(s[0]) then StripSpaceStart(s[1..]) else s
  }

  function StripSpaceEnd(s: string): string
  {
    if s != [] && IsRegexSpace(s[|s| - 1]) then StripSpaceEnd(s[..|s| - 1]) else s
  }

  /** Stripping the trailing blanks leaves a prefix that does not end in a blank. */
  lemma {:induction false} StripSpaceEndShape(s: string)
    ensures |StripSpaceEnd(s)| <= |s| && StripSpaceEnd(s) == s[..|StripSpaceEnd(s)|]
    ensures StripSpaceEnd(s) == [] || !IsRegexSpace(StripSpaceEnd(s)[|StripSpaceEnd(s)| - 1])
    decreases |s|
  {
    if s != [] && IsRegexSpace(s[|s| - 1]) {
      StripSpaceEndShape(s[..|s| - 1]);
    }
  }

  /**
   * The text between the separator matches: the pieces between the dashes,
   * without the `\s*` each match absorbs on both sides of its dash.
   */
  function DashPieces(s: string): (r: seq<string>)
    ensures |r| == |SplitOn(s, '-')|
  {
    var ps := SplitOn(s, '-');
    seq(|ps|, i requires 0 <= i < |ps| =>
      var a := if i > 0 then StripSpaceStart(ps[i]) else ps[i];
      if i < |ps| - 1 then StripSpaceEnd(a) else a)
  }

  /** `split` with limit 0 drops the trailing empty strings. */
  function DropTrailingEmpty(ps: seq<string>): (r: seq<string>)
    ensures |r| <= |ps| && r == ps[..|r|]
    ensures r == [] || Last(r) != []
  {
    if ps != [] && ps[|ps| - 1] == [] then DropTrailingEmpty(ps[..|ps| - 1]) else ps
  }

  /** `s.split("\\s*-\\s*")`; without any dash the result is `[s]` itself. */
  function SplitAroundDash(s: string): seq<string>
  {
    if '-' !in s then [s] else DropTrailingEmpty(DashPieces(s))
  }

  /** `f + " - " + t` splits back into `f` and `t`. */
  lemma SplitAroundDashJoin(f: string, t: string)
    requires f != [] && t != [] && '-' !in f && '-' !in t
    requires !IsRegexSpace(f[|f| - 1]) && !IsRegexSpace(t[0])
    ensures SplitAroundDash(f + " - " + t) == [f, t]
  {
    var s := f + " - " + t;
    assert s == (f + " ") + ['-'] + (" " + t);
    assert '-' !in f + " " && '-' !in " " + t;
    SplitOnTwo(f + " ", '-', " " + t);
    assert SplitOn(" " + t, '-') == [" " + t];
    assert s[|f| + 1] == '-';
    assert StripSpaceEnd(f + " ") == f by {
      assert (f + " ")[..|f|] == f;
    }
    assert StripSpaceStart(" " + t) == t by {
      assert (" " + t)[1..] == t;
    }
    assert DashPieces(s) == [f, t];
  }


  // ---------------------------------------------------------------
  // String.compareTo
  // ---------------------------------------------------------------

  /** `String.compareTo`: the difference of the first differing chars, else of the lengths. */
  function CompareTo(a: string, b: string): int
  {
    if a == [] || b == [] then |a| - |b|
    else if a[0] != b[0] then (a[0] as int) - (b[0] as int)
    else CompareTo(a[1..], b[1..])
  }

  lemma {:induction false} CompareToZero(a: string, b: string)
    ensures CompareTo(a, b) == 0 <==> a == b
  {
    if a != [] && b != [] && a[0] == b[0] {
      CompareToZero(a[1..], b[1..]);
      assert a == [a[0]] + a[1..] && b == [b[0]] + b[1..];
    }
  }

  lemma {:induction false} CompareToAntisymmetric(a: string, b: string)
    ensures CompareTo(a, b) < 0 <==> CompareTo(b, a) > 0
  {
    if a != [] && b != [] && a[0] == b[0] {
      CompareToAntisymmetric(a[1..], b[1..]);
    }
  }

  lemma {:induction false} CompareToTransitive(a: string, b: string, c: string)
    requires CompareTo(a, b) < 0 && CompareTo(b, c) < 0
    ensures CompareTo(a, c) < 0
  {
    if a != [] && b != [] && c != [] && a[0] == b[0] && b[0] == c[0] {
      CompareToTransitive(a[1..], b[1..], c[1..]);
    }
  }
}
