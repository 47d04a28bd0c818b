/**
 * The legacy spreadsheet reader: 30-minute clock times, the compression of a
 * day's sorted slots into blocks per (hall, court, tariff), the carry-forward
 * of customer fields from row to row, the joining of two address halves, and
 * the weekday order.
 */
module ExcelReaderOld {
  import opened JavaText
  import opened Sequences

  // ---------------------------------------------------------------
  // LocalTime and parseTime30
  // ---------------------------------------------------------------

  const MinutesPerDay: int := 1440

  /** A `LocalTime` at minute precision: the minute of the day. */
  type MinuteOfDay = m: int | 0 <= m < MinutesPerDay

  /** `LocalTime.plusMinutes`: wraps around midnight. */
  function PlusMinutes(t: MinuteOfDay, d: int): MinuteOfDay
  {
    (t + d) % MinutesPerDay
  }

  /** `HHMM.format`: the two-digit hour, a colon, the two-digit minute. */
  function FormatTime(t: MinuteOfDay): string
  {
    Pad2(t / 60) + ":" + Pad2(t % 60)
  }

  /**
   * `parseTime30`: the trimmed text must look like `\d{1,2}:\d{2}`, parse with
   * the `HH:mm` formatter (two-digit hour, minute up to 59, hour up to 23, and
   * `24:00` resolved to midnight) and have minute 0 or 30; otherwise null.
   */
  function ParseTime30(t: Option<string>): (r: Option<MinuteOfDay>)
  {
    var s := Trim(OrEmpty(t));
    if !IsHourMinute(s) || |s| != 5 then None
    else
      var h := HourOf(s);
      var m := MinuteOf(s);
      if m > 59 || h > 24 || (h == 24 && m != 0) then None
      else if m == 0 || m == 30 then Some(if h == 24 then 0 else h * 60 + m)
      else None
  }

  /**
   * A parsed time is a half hour: exactly the `HH:MM` texts with hour at most
   * 23 and minute 0 or 30, and `24:00`, which is midnight.
   */
  lemma ParseTime30Shape(t: Option<string>)
    ensures var s := Trim(OrEmpty(t));
            ParseTime30(t).Some? <==>
              IsHourMinute(s) && |s| == 5 &&
              ((HourOf(s) <= 23 && (MinuteOf(s) == 0 || MinuteOf(s) == 30)) || (HourOf(s) == 24 && MinuteOf(s) == 0))
    ensures ParseTime30(t).Some? ==> ParseTime30(t).value % 30 == 0
    ensures ParseTime30(t).Some? ==>
              var s := Trim(OrEmpty(t));
              ParseTime30(t).value == (HourOf(s) * 60 + MinuteOf(s)) % MinutesPerDay
  {
  }

  /** A one-digit hour passes the pattern but not the two-digit formatter. */
  lemma OneDigitHourRejected()
    ensures ParseTime30(Some("9:30")).None?
  {
    TrimOfTrimmed("9:30");
  }

  /** `24:00` is accepted and is midnight. */
  lemma MidnightAsTwentyFour()
    ensures ParseTime30(Some("24:00")) == Some(0)
  {
    var s := "24:00";
    TrimOfTrimmed(s);
    assert s[..|s| - 3] == "24";
    TwoDigitsValue("24");
  }

  /** The formatted text of a minute of the day: `HH:MM` with its hour and minute. */
  lemma FormatTimeShape(t: MinuteOfDay)
    ensures var f := FormatTime(t);
            |f| == 5 && IsHourMinute(f) && HourOf(f) == t / 60 && MinuteOf(f) == t % 60
  {
    var f := FormatTime(t);
    var h := Pad2(t / 60);
    var mm := Pad2(t % 60);
    assert f == h + ":" + mm;
    assert f[..2] == h;
    TwoDigitsValue(mm);
    assert f[3] == mm[0] && f[4] == mm[1];
  }

  /** Round trip: every half hour of the day parses back from its formatted text. */
  lemma ParseFormatTime30(t: MinuteOfDay)
    requires t % 30 == 0
    ensures ParseTime30(Some(FormatTime(t))) == Some(t)
  {
    var f := FormatTime(t);
    FormatTimeShape(t);
    HalfHourParts(t);
    ParseHalfHour(f, t / 60, t % 60);
  }

  /** A half hour of the day: an hour up to 23 and a minute of 0 or 30. */
  lemma HalfHourParts(t: MinuteOfDay)
    requires t % 30 == 0
    ensures t / 60 <= 23 && (t % 60 == 0 || t % 60 == 30) && (t / 60) * 60 + t % 60 == t
  {
  }

  /** An `HH:MM` text of an hour up to 23 and minute 0 or 30 parses to its minutes. */
  lemma ParseHalfHour(f: string, h: int, m: int)
    requires IsHourMinute(f) && |f| == 5 && HourOf(f) == h && MinuteOf(f) == m
    requires h <= 23 && (m == 0 || m == 30)
    ensures ParseTime30(Some(f)) == Some(h * 60 + m)
  {
    HourMinuteIsTrimmed(f);
  }

  /** Times off the half-hour grid are rejected. */
  lemma OffGridRejected(t: MinuteOfDay)
    requires t % 30 != 0
    ensures ParseTime30(Some(FormatTime(t))).None?
  {
    var f := FormatTime(t);
    FormatTimeShape(t);
    HourMinuteIsTrimmed(f);
  }

  // ---------------------------------------------------------------
  // Slots and their compression into blocks
  // ---------------------------------------------------------------

  /** One booked half hour of a day. */
  datatype TimeSlot = TimeSlot(halle: string, platz: string, tarif: string, time: MinuteOfDay)

  /** A block of a day: `start` inclusive, `end` exclusive. */
  datatype SlotBlock = SlotBlock(day: string, halle: string, platz: string, tarif: string,
                                 start: MinuteOfDay, end: MinuteOfDay)

  /** The (hall, court, tariff) a slot is booked under. */
  function Group(s: TimeSlot): (string, string, string)
  {
    (s.halle, s.platz, s.tarif)
  }

  /** `b` extends a block ending with `a`: same group, exactly half an hour later. */
  predicate SlotLink(a: TimeSlot, b: TimeSlot)
  {
    Group(a) == Group(b) && b.time == PlusMinutes(a.time, 30)
  }

  /** The block of a run of slots: the first slot's place and time to half an hour past the last. */
  function RunBlock(day: string, run: seq<TimeSlot>): SlotBlock
    requires run != []
  {
    SlotBlock(day, run[0].halle, run[0].platz, run[0].tarif, run[0].time, PlusMinutes(Last(run).time, 30))
  }

  /** The blocks of runs, in order. */
  function RunBlocks(day: string, runs: seq<seq<TimeSlot>>): (r: seq<SlotBlock>)
    requires forall i :: 0 <= i < |runs| ==> runs[i] != []
    ensures |r| == |runs|
  {
    if runs == [] then []
    else RunBlocks(day, runs[..|runs| - 1]) + [RunBlock(day, Last(runs))]
  }

  /** The slots cut into maximal runs of linked neighbours. */
  function SlotRuns(slots: seq<TimeSlot>): (r: seq<seq<TimeSlot>>)
    ensures forall i :: 0 <= i < |r| ==> r[i] != []
  {
    ChunkBy(slots, SlotLink)
  }

  /** What `compressByCourtAndTariff` returns for a day's slots. */
  function Compressed(day: string, slots: seq<TimeSlot>): seq<SlotBlock>
  {
    RunBlocks(day, SlotRuns(slots))
  }

  /** The state of the compression loop after the slots `done`. */
  ghost predicate CompressState(day: string, done: seq<TimeSlot>, res: seq<SlotBlock>,
                                curHalle: Option<string>, curPlatz: Option<string>, curTarif: Option<string>,
                                blockStart: MinuteOfDay, prevTime: MinuteOfDay,
                                closed: seq<seq<TimeSlot>>, open: seq<TimeSlot>)
  {
    if done == [] then curHalle.None? && res == []
    else
      && open != []
      && (forall i :: 0 <= i < |closed| ==> closed[i] != [])
      && SlotRuns(done) == closed + [open]
      && res == RunBlocks(day, closed)
      && curHalle == Some(open[0].halle) && curPlatz == Some(open[0].platz) && curTarif == Some(open[0].tarif)
      && Group(Last(open)) == Group(open[0])
      && blockStart == open[0].time && prevTime == Last(open).time
  }

  /** `compressByCourtAndTariff`: one pass that closes a block whenever the next slot does not extend it. */
  method CompressByCourtAndTariff(day: string, slots: seq<TimeSlot>) returns (res: seq<SlotBlock>)
    ensures res == Compressed(day, slots)
  {
    res := [];
    if slots == [] {
      return;
    }
    var curHalle: Option<string> := None;
    var curPlatz: Option<string> := None;
    var curTarif: Option<string> := None;
    var blockStart: MinuteOfDay := 0;
    var prevTime: MinuteOfDay := 0;
    ghost var closed: seq<seq<TimeSlot>> := [];
    ghost var open: seq<TimeSlot> := [];
    var i := 0;
    while i < |slots|
      invariant 0 <= i <= |slots|
      invariant CompressState(day, slots[..i], res, curHalle, curPlatz, curTarif, blockStart, prevTime, closed, open)
    {
      var s := slots[i];
      ghost var done := slots[..i];
      i := i + 1;
      assert slots[..i] == done + [s];
      res, curHalle, curPlatz, curTarif, blockStart, prevTime, closed, open :=
        CompressStep(day, done, res, curHalle, curPlatz, curTarif, blockStart, prevTime, closed, open, s);
    }
    assert slots[..i] == slots;
    if curHalle.Some? {
      ghost var before := res;
      res := res + [SlotBlock(day, curHalle.value, curPlatz.value, curTarif.value, blockStart, PlusMinutes(prevTime, 30))];
      CloseRun(day, before, res, closed, open);
    }
  }

  /** One iteration of the compression loop. */
  method CompressStep(day: string, ghost done: seq<TimeSlot>, res: seq<SlotBlock>,
                      curHalle: Option<string>, curPlatz: Option<string>, curTarif: Option<string>,
                      blockStart: MinuteOfDay, prevTime: MinuteOfDay,
                      ghost closed: seq<seq<TimeSlot>>, ghost open: seq<TimeSlot>, s: TimeSlot)
    returns (res': seq<SlotBlock>, curHalle': Option<string>, curPlatz': Option<string>, curTarif': Option<string>,
             blockStart': MinuteOfDay, prevTime': MinuteOfDay, ghost closed': seq<seq<TimeSlot>>, ghost open': seq<TimeSlot>)
    requires CompressState(day, done, res, curHalle, curPlatz, curTarif, blockStart, prevTime, closed, open)
    ensures CompressState(day, done + [s], res', curHalle', curPlatz', curTarif', blockStart', prevTime', closed', open')
  {
    var sameGroup := curHalle == Some(s.halle) && curPlatz == Some(s.platz) && curTarif == Some(s.tarif);
    if curHalle.None? {
      res', curHalle', curPlatz', curTarif' := res, Some(s.halle), Some(s.platz), Some(s.tarif);
      blockStart', prevTime' := s.time, s.time;
      closed', open' := [], [s];
      FirstSlotState(day, done, res, curHalle, curPlatz, curTarif, blockStart, prevTime, closed, open, s);
    } else if sameGroup && s.time == PlusMinutes(prevTime, 30) {
      res', curHalle', curPlatz', curTarif' := res, curHalle, curPlatz, curTarif;
      blockStart', prevTime' := blockStart, s.time;
      closed', open' := closed, open + [s];
      ExtendState(day, done, res, curHalle, curPlatz, curTarif, blockStart, prevTime, closed, open, s);
    } else {
      res' := res + [SlotBlock(day, curHalle.value, curPlatz.value, curTarif.value, blockStart, PlusMinutes(prevTime, 30))];
      curHalle', curPlatz', curTarif' := Some(s.halle), Some(s.platz), Some(s.tarif);
      blockStart', prevTime' := s.time, s.time;
      closed', open' := closed + [open], [s];
      CloseState(day, done, res, res', curHalle, curPlatz, curTarif, blockStart, prevTime, closed, open, s);
    }
  }

  /** The first slot opens the first run. */
  lemma FirstSlotState(day: string, done: seq<TimeSlot>, res: seq<SlotBlock>,
                       curHalle: Option<string>, curPlatz: Option<string>, curTarif: Option<string>,
                       blockStart: MinuteOfDay, prevTime: MinuteOfDay,
                       closed: seq<seq<TimeSlot>>, open: seq<TimeSlot>, s: TimeSlot)
    requires CompressState(day, done, res, curHalle, curPlatz, curTarif, blockStart, prevTime, closed, open)
    requires curHalle.None?
    ensures CompressState(day, done + [s], res, Some(s.halle), Some(s.platz), Some(s.tarif), s.time, s.time, [], [s])
  {
    SlotRunsStep(done, s, closed, open);
  }

  /** A slot of the same group half an hour after the previous one extends the open run. */
  lemma ExtendState(day: string, done: seq<TimeSlot>, res: seq<SlotBlock>,
                    curHalle: Option<string>, curPlatz: Option<string>, curTarif: Option<string>,
                    blockStart: MinuteOfDay, prevTime: MinuteOfDay,
                    closed: seq<seq<TimeSlot>>, open: seq<TimeSlot>, s: TimeSlot)
    requires CompressState(day, done, res, curHalle, curPlatz, curTarif, blockStart, prevTime, closed, open)
    requires curHalle == Some(s.halle) && curPlatz == Some(s.platz) && curTarif == Some(s.tarif)
    requires s.time == PlusMinutes(prevTime, 30)
    ensures CompressState(day, done + [s], res, curHalle, curPlatz, curTarif, blockStart, s.time, closed, open + [s])
  {
    assert done != [];
    assert SlotLink(Last(open), s);
    SlotRunsStep(done, s, closed, open);
    assert (open + [s])[0] == open[0];
  }

  /** Any other slot closes the open run, appends its block and opens a new run. */
  lemma CloseState(day: string, done: seq<TimeSlot>, res: seq<SlotBlock>, res': seq<SlotBlock>,
                   curHalle: Option<string>, curPlatz: Option<string>, curTarif: Option<string>,
                   blockStart: MinuteOfDay, prevTime: MinuteOfDay,
                   closed: seq<seq<TimeSlot>>, open: seq<TimeSlot>, s: TimeSlot)
    requires CompressState(day, done, res, curHalle, curPlatz, curTarif, blockStart, prevTime, closed, open)
    requires curHalle.Some? && curPlatz.Some? && curTarif.Some?
    requires !(curHalle == Some(s.halle) && curPlatz == Some(s.platz) && curTarif == Some(s.tarif)
               && s.time == PlusMinutes(prevTime, 30))
    requires res' == res + [SlotBlock(day, curHalle.value, curPlatz.value, curTarif.value, blockStart, PlusMinutes(prevTime, 30))]
    ensures CompressState(day, done + [s], res', Some(s.halle), Some(s.platz), Some(s.tarif), s.time, s.time,
                          closed + [open], [s])
  {
    assert done != [];
    assert !SlotLink(Last(open), s);
    SlotRunsStep(done, s, closed, open);
    CloseRun(day, res, res', closed, open);
  }

  /** The runs after one more slot: the open run grows, or it closes and `[s]` opens. */
  lemma SlotRunsStep(done: seq<TimeSlot>, s: TimeSlot, closed: seq<seq<TimeSlot>>, open: seq<TimeSlot>)
    requires SlotRuns(done) == if done == [] then [] else closed + [open]
    requires done != [] ==> open != []
    ensures done == [] ==> SlotRuns(done + [s]) == [[s]]
    ensures done != [] && SlotLink(Last(open), s) ==> SlotRuns(done + [s]) == closed + [open + [s]]
    ensures done != [] && !SlotLink(Last(open), s) ==> SlotRuns(done + [s]) == (closed + [open]) + [[s]]
  {
    ChunkByStep(done, s, SlotLink);
    if done != [] {
      assert (closed + [open])[..|closed|] == closed;
    }
  }

  /** Closing the open run appends its block. */
  lemma CloseRun(day: string, res: seq<SlotBlock>, res': seq<SlotBlock>, closed: seq<seq<TimeSlot>>, open: seq<TimeSlot>)
    requires forall i :: 0 <= i < |closed| ==> closed[i] != []
    requires open != []
    requires res == RunBlocks(day, closed)
    requires res' == res + [RunBlock(day, open)]
    ensures res' == RunBlocks(day, closed + [open])
  {
    assert (closed + [open])[..|closed|] == closed;
  }

  /** No slots give no blocks; any slot gives at least one. */
  lemma CompressedEmpty(day: string, slots: seq<TimeSlot>)
    ensures Compressed(day, slots) == [] <==> slots == []
    ensures slots != [] ==> |Compressed(day, slots)| >= 1
  {
  }

  /** The `i`-th block is the block of the `i`-th run. */
  lemma {:induction false} RunBlocksAt(day: string, runs: seq<seq<TimeSlot>>, i: nat)
    requires forall j :: 0 <= j < |runs| ==> runs[j] != []
    requires i < |runs|
    ensures RunBlocks(day, runs)[i] == RunBlock(day, runs[i])
  {
    var init := runs[..|runs| - 1];
    if i < |runs| - 1 {
      RunBlocksAt(day, init, i);
    }
  }

  /**
   * Every slot lies in exactly one block, in input order: the runs put back
   * together are the input, block `i` is the block of run `i`, neighbours in
   * a run are linked, and the last slot of a run is not linked to the first
   * of the next, so a block is never cut short and never spans a gap, a
   * repeated time or a change of hall, court or tariff.
   */
  lemma CompressedCoversSlots(day: string, slots: seq<TimeSlot>)
    ensures Flatten(SlotRuns(slots)) == slots
    ensures |Compressed(day, slots)| == |SlotRuns(slots)|
    ensures forall i :: 0 <= i < |SlotRuns(slots)| ==> Compressed(day, slots)[i] == RunBlock(day, SlotRuns(slots)[i])
    ensures RunsLinked(SlotRuns(slots), SlotLink)
    ensures RunsSeparated(SlotRuns(slots), SlotLink)
  {
    var runs := SlotRuns(slots);
    forall i | 0 <= i < |runs| ensures Compressed(day, slots)[i] == RunBlock(day, runs[i]) {
      RunBlocksAt(day, runs, i);
    }
    ChunkByLinked(slots, SlotLink);
    ChunkBySeparated(slots, SlotLink);
  }

  /** A repeated time never extends a block. */
  lemma RepeatedTimeSplits(a: TimeSlot, b: TimeSlot)
    requires a.time == b.time
    ensures !SlotLink(a, b)
  {
  }

  /**
   * A run of linked slots spans exactly its half hours: the block ends
   * `30 * |run|` minutes after it starts, on the clock that wraps at midnight.
   */
  lemma {:induction false} RunSpan(day: string, run: seq<TimeSlot>)
    requires run != [] && RunsLinked([run], SlotLink)
    ensures RunBlock(day, run).end == PlusMinutes(run[0].time, 30 * |run|)
  {
    if |run| > 1 {
      var init := run[..|run| - 1];
      assert RunsLinked([init], SlotLink) by {
        forall i, j | 0 <= i < 1 && 0 <= j < |[init][i]| - 1 ensures SlotLink([init][i][j], [init][i][j + 1]) {
          assert [init][i][j] == [run][0][j] && [init][i][j + 1] == [run][0][j + 1];
        }
      }
      RunSpan(day, init);
      assert SlotLink([run][0][|run| - 2], [run][0][|run| - 1]);
      assert run[|run| - 2] == Last(init);
      PlusMinutesAdd(run[0].time, 30 * (|run| - 1), 30);
    }
  }

  /** Adding minutes on the wrapping clock twice adds their sum. */
  lemma PlusMinutesAdd(t: MinuteOfDay, d: int, e: int)
    ensures PlusMinutes(PlusMinutes(t, d), e) == PlusMinutes(t, d + e)
  {
    var x := t + d;
    var q := x / MinutesPerDay;
    assert x == q * MinutesPerDay + x % MinutesPerDay;
    ModOfShifted(x % MinutesPerDay + e, q);
  }

  lemma ModOfShifted(y: int, q: int)
    ensures (y + q * MinutesPerDay) % MinutesPerDay == y % MinutesPerDay
  {
    var r := y % MinutesPerDay;
    assert y == (y / MinutesPerDay) * MinutesPerDay + r;
    assert y + q * MinutesPerDay == (y / MinutesPerDay + q) * MinutesPerDay + r;
  }

  /** A block running over midnight: 23:30 and 00:00 make one block from 23:30 to 00:30. */
  lemma MidnightWraps()
    ensures Compressed("Mo", [TimeSlot("1", "2", "A", 1410), TimeSlot("1", "2", "A", 0)]) ==
              [SlotBlock("Mo", "1", "2", "A", 1410, 30)]
  {
    var a, b := TimeSlot("1", "2", "A", 1410), TimeSlot("1", "2", "A", 0);
    SlotRunsStep([], a, [], []);
    assert [] + [a] == [a];
    SlotRunsStep([a], b, [], [a]);
    assert [a] + [b] == [a, b];
  }

  // ---------------------------------------------------------------
  // The order the slots are sorted in before compression
  // ---------------------------------------------------------------

  /** `Integer.compare` and `LocalTime.compareTo`, by sign. */
  function CompareInt(a: int, b: int): int
  {
    if a < b then -1 else if a == b then 0 else 1
  }

  /** The slot comparator: trimmed hall, then trimmed court, then trimmed tariff, then time. */
  function SlotCompare(a: TimeSlot, b: TimeSlot): int
  {
    var c1 := CompareTo(Trim(a.halle), Trim(b.halle));
    if c1 != 0 then c1
    else
      var c2 := CompareTo(Trim(a.platz), Trim(b.platz));
      if c2 != 0 then c2
      else
        var c3 := CompareTo(Trim(a.tarif), Trim(b.tarif));
        if c3 != 0 then c3 else CompareInt(a.time, b.time)
  }

  predicate SlotLe(a: TimeSlot, b: TimeSlot)
  {
    SlotCompare(a, b) <= 0
  }

  /** The comparator is antisymmetric in sign. */
  lemma SlotCompareAntisymmetric(a: TimeSlot, b: TimeSlot)
    ensures SlotCompare(a, b) < 0 <==> SlotCompare(b, a) > 0
  {
    CompareToZero(Trim(a.halle), Trim(b.halle));
    CompareToZero(Trim(b.halle), Trim(a.halle));
    CompareToAntisymmetric(Trim(a.halle), Trim(b.halle));
    CompareToAntisymmetric(Trim(b.halle), Trim(a.halle));
    CompareToZero(Trim(a.platz), Trim(b.platz));
    CompareToZero(Trim(b.platz), Trim(a.platz));
    CompareToAntisymmetric(Trim(a.platz), Trim(b.platz));
    CompareToAntisymmetric(Trim(b.platz), Trim(a.platz));
    CompareToZero(Trim(a.tarif), Trim(b.tarif));
    CompareToZero(Trim(b.tarif), Trim(a.tarif));
    CompareToAntisymmetric(Trim(a.tarif), Trim(b.tarif));
    CompareToAntisymmetric(Trim(b.tarif), Trim(a.tarif));
  }

  lemma SlotLeTotal()
    ensures Total(SlotLe)
  {
    forall a: TimeSlot, b: TimeSlot ensures SlotLe(a, b) || SlotLe(b, a) {
      SlotCompareAntisymmetric(a, b);
    }
  }

  /** `slots.sort(...)`: the day's slots in comparator order. */
  function SortSlots(slots: seq<TimeSlot>): seq<TimeSlot>
  {
    Sort(slots, SlotLe)
  }

  /** The sorted slots are the same slots, in comparator order. */
  lemma SortSlotsShape(slots: seq<TimeSlot>)
    ensures multiset(SortSlots(slots)) == multiset(slots)
    ensures Sorted(SortSlots(slots), SlotLe)
  {
    SlotLeTotal();
    SortSorted(slots, SlotLe);
  }

  /** After the sort, each block ends at a slot that the comparator puts before the next block's first slot. */
  lemma SortedBlocksAscend(slots: seq<TimeSlot>)
    ensures RunsAscending(SlotRuns(SortSlots(slots)), SlotLe)
  {
    SortSlotsShape(slots);
    ChunkByBoundaries(SortSlots(slots), SlotLink, SlotLe);
  }

  // ---------------------------------------------------------------
  // Carry-forward of customer fields
  // ---------------------------------------------------------------

  /** `notBlank`: not null and not empty once trimmed. */
  predicate NotBlank(s: Option<string>)
  {
    !IsBlankOrNull(s)
  }

  /** `keepOrUpdate`: the trimmed new value when it is not blank, else the old value (null as `""`). */
  function KeepOrUpdate(oldVal: Option<string>, newVal: Option<string>): (r: string)
  {
    var n := Trim(OrEmpty(newVal));
    if n != [] then n else OrEmpty(oldVal)
  }

  /**
   * A blank cell never overwrites: the old value stays.  A non-blank cell
   * wins, trimmed.  The result is never blank when either side is not, and
   * applying the same cell twice changes nothing more.
   */
  lemma KeepOrUpdateShape(oldVal: Option<string>, newVal: Option<string>)
    ensures !NotBlank(newVal) ==> KeepOrUpdate(oldVal, newVal) == OrEmpty(oldVal)
    ensures NotBlank(newVal) ==>
              KeepOrUpdate(oldVal, newVal) == Trim(newVal.value) && IsTrimmed(KeepOrUpdate(oldVal, newVal))
              && KeepOrUpdate(oldVal, newVal) != []
    ensures KeepOrUpdate(Some(KeepOrUpdate(oldVal, newVal)), newVal) == KeepOrUpdate(oldVal, newVal)
  {
    if NotBlank(newVal) {
      TrimShape(newVal.value);
    }
  }

  /** The values one field of the carry takes, row after row. */
  function Carried(init: string, cells: seq<string>): string
  {
    if cells == [] then init else KeepOrUpdate(Some(Carried(init, cells[..|cells| - 1])), Some(Last(cells)))
  }

  /** The position of the last cell that is not blank, or -1. */
  function LastNonBlank(cells: seq<string>): (i: int)
    ensures -1 <= i < |cells|
  {
    if cells == [] then -1
    else if NotBlank(Some(Last(cells))) then |cells| - 1
    else LastNonBlank(cells[..|cells| - 1])
  }

  /** The last non-blank cell wins: after a run of rows the field holds it, trimmed, or its first value. */
  lemma {:induction false} CarriedIsLastNonBlank(init: string, cells: seq<string>)
    ensures var i := LastNonBlank(cells);
            Carried(init, cells) == if i < 0 then init else Trim(cells[i])
    ensures forall j :: LastNonBlank(cells) < j < |cells| ==> !NotBlank(Some(cells[j]))
  {
    if cells != [] {
      var init' := cells[..|cells| - 1];
      CarriedIsLastNonBlank(init, init');
      forall j | LastNonBlank(cells) < j < |cells| ensures !NotBlank(Some(cells[j])) {
        if j < |cells| - 1 {
          assert cells[j] == init'[j];
        }
      }
    }
  }

  /** The customer cells of one row (`get` already trims; a missing column reads as `""`). */
  datatype CustomerCells = CustomerCells(
    anrede: string,
    titel: string,
    vorname: string,
    name: string,
    address1: string,
    address2: string,
    email: string)

  /** `hasAnyCustomerField`: some customer cell of the row is not blank. */
  predicate HasAnyCustomerField(row: CustomerCells)
  {
    || NotBlank(Some(row.anrede)) || NotBlank(Some(row.titel)) || NotBlank(Some(row.vorname))
    || NotBlank(Some(row.name)) || NotBlank(Some(row.address1)) || NotBlank(Some(row.address2))
    || NotBlank(Some(row.email))
  }

  /** The customer data carried down the rows of a sheet. */
  class Carry {
    var anrede: string
    var titel: string
    var vorname: string
    var name: string
    var adresse: string
    var email: string

    /** Every carried value is trimmed. */
    predicate Valid()
      reads this
    {
      IsTrimmed(anrede) && IsTrimmed(titel) && IsTrimmed(vorname) && IsTrimmed(name)
      && IsTrimmed(adresse) && IsTrimmed(email)
    }

    constructor ()
      ensures Valid()
      ensures anrede == "" && titel == "" && vorname == "" && name == "" && adresse == "" && email == ""
    {
      anrede, titel, vorname, name, adresse, email := "", "", "", "", "", "";
      TrimOfTrimmed("");
    }

    /** `updateCarry`: each field keeps its value unless the row has a non-blank one; the two address halves are merged first. */
    method UpdateCarry(row: CustomerCells)
      requires Valid()
      modifies this
      ensures Valid()
      ensures anrede == KeepOrUpdate(Some(old(anrede)), Some(row.anrede))
      ensures titel == KeepOrUpdate(Some(old(titel)), Some(row.titel))
      ensures vorname == KeepOrUpdate(Some(old(vorname)), Some(row.vorname))
      ensures name == KeepOrUpdate(Some(old(name)), Some(row.name))
      ensures adresse == KeepOrUpdate(Some(old(adresse)), Some(MergeAddress(Some(row.address1), Some(row.address2))))
      ensures email == KeepOrUpdate(Some(old(email)), Some(row.email))
      ensures !HasAnyCustomerField(row) ==>
                anrede == old(anrede) && titel == old(titel) && vorname == old(vorname) && name == old(name)
                && adresse == old(adresse) && email == old(email)
    {
      KeepOrUpdateShape(Some(anrede), Some(row.anrede));
      anrede := KeepOrUpdate(Some(anrede), Some(row.anrede));
      KeepOrUpdateShape(Some(titel), Some(row.titel));
      titel := KeepOrUpdate(Some(titel), Some(row.titel));
      KeepOrUpdateShape(Some(vorname), Some(row.vorname));
      vorname := KeepOrUpdate(Some(vorname), Some(row.vorname));
      KeepOrUpdateShape(Some(name), Some(row.name));
      name := KeepOrUpdate(Some(name), Some(row.name));
      var mergedAddr := MergeAddress(Some(row.address1), Some(row.address2));
      MergeAddressBlank(Some(row.address1), Some(row.address2));
      KeepOrUpdateShape(Some(adresse), Some(mergedAddr));
      adresse := KeepOrUpdate(Some(adresse), Some(mergedAddr));
      KeepOrUpdateShape(Some(email), Some(row.email));
      email := KeepOrUpdate(Some(email), Some(row.email));
    }
  }

  /** `CustomerAgg.updateStaticInfoFromCarry`, for one field: overwritten only by a non-blank value. */
  function TakeIfNotBlank(current: Option<string>, c: string): Option<string>
  {
    if NotBlank(Some(c)) then Some(c) else current
  }

  /** A field once set is never blanked again, and repeating the same carry changes nothing. */
  lemma TakeIfNotBlankShape(current: Option<string>, c: string)
    ensures NotBlank(current) ==> NotBlank(TakeIfNotBlank(current, c))
    ensures TakeIfNotBlank(current, c) == current || TakeIfNotBlank(current, c) == Some(c)
    ensures TakeIfNotBlank(TakeIfNotBlank(current, c), c) == TakeIfNotBlank(current, c)
  {
  }

  /** The static data of one customer: null until a non-blank value arrives. */
  class CustomerAgg {
    var anrede: Option<string>
    var titel: Option<string>
    var vorname: Option<string>
    var name: Option<string>
    var adresse: Option<string>
    var email: Option<string>

    /** Every field is null or not blank. */
    predicate Valid()
      reads this
    {
      (anrede.None? || NotBlank(anrede)) && (titel.None? || NotBlank(titel))
      && (vorname.None? || NotBlank(vorname)) && (name.None? || NotBlank(name))
      && (adresse.None? || NotBlank(adresse)) && (email.None? || NotBlank(email))
    }

    /** `new CustomerAgg(carry)`: the fields start null and take the carry's non-blank values. */
    constructor (c: Carry)
      ensures Valid()
      ensures anrede == TakeIfNotBlank(None, c.anrede) && titel == TakeIfNotBlank(None, c.titel)
      ensures vorname == TakeIfNotBlank(None, c.vorname) && name == TakeIfNotBlank(None, c.name)
      ensures adresse == TakeIfNotBlank(None, c.adresse) && email == TakeIfNotBlank(None, c.email)
    {
      anrede := TakeIfNotBlank(None, c.anrede);
      titel := TakeIfNotBlank(None, c.titel);
      vorname := TakeIfNotBlank(None, c.vorname);
      name := TakeIfNotBlank(None, c.name);
      adresse := TakeIfNotBlank(None, c.adresse);
      email := TakeIfNotBlank(None, c.email);
    }

    /** `updateStaticInfoFromCarry`: every non-blank carry value overwrites, blank ones leave the field alone. */
    method UpdateStaticInfoFromCarry(c: Carry)
      requires Valid()
      modifies this
      ensures Valid()
      ensures anrede == TakeIfNotBlank(old(anrede), c.anrede) && titel == TakeIfNotBlank(old(titel), c.titel)
      ensures vorname == TakeIfNotBlank(old(vorname), c.vorname) && name == TakeIfNotBlank(old(name), c.name)
      ensures adresse == TakeIfNotBlank(old(adresse), c.adresse) && email == TakeIfNotBlank(old(email), c.email)
    {
      anrede := TakeIfNotBlank(anrede, c.anrede);
      titel := TakeIfNotBlank(titel, c.titel);
      vorname := TakeIfNotBlank(vorname, c.vorname);
      name := TakeIfNotBlank(name, c.name);
      adresse := TakeIfNotBlank(adresse, c.adresse);
      email := TakeIfNotBlank(email, c.email);
    }
  }

  /** The values one field of the aggregate takes, carry after carry. */
  function Aggregated(init: Option<string>, values: seq<string>): Option<string>
  {
    if values == [] then init else TakeIfNotBlank(Aggregated(init, values[..|values| - 1]), Last(values))
  }

  /** The last non-blank value wins, as given (not trimmed); with none the field keeps its first value. */
  lemma {:induction false} AggregatedIsLastNonBlank(init: Option<string>, values: seq<string>)
    ensures var i := LastNonBlank(values);
            Aggregated(init, values) == if i < 0 then init else Some(values[i])
  {
    if values != [] {
      AggregatedIsLastNonBlank(init, values[..|values| - 1]);
    }
  }

  // ---------------------------------------------------------------
  // mergeAddress
  // ---------------------------------------------------------------

  /** A word character for `\b` (letters, digits and `_`, in ASCII). */
  predicate IsWordChar(c: char)
  {
    'a' <= c <= 'z' || 'A' <= c <= 'Z' || '0' <= c <= '9' || c == '_'
  }

  /** The first index at or after `i` that is not a `\s` character. */
  function SkipSpaces(s: string, i: nat): (j: nat)
    requires i <= |s|
    ensures i <= j <= |s|
    ensures i < |s| && IsRegexSpace(s[i]) ==> j > i
    decreases |s| - i
  {
    if i < |s| && IsRegexSpace(s[i]) then SkipSpaces(s, i + 1) else i
  }

  /** `replaceAll("\\s{2,}", " ")` from `i` on: every run of two or more `\s` becomes one space. */
  function CollapseSpaces(s: string, i: nat): string
    requires i <= |s|
    decreases |s| - i
  {
    if i == |s| then []
    else if i + 1 < |s| && IsRegexSpace(s[i]) && IsRegexSpace(s[i + 1]) then " " + CollapseSpaces(s, SkipSpaces(s, i))
    else [s[i]] + CollapseSpaces(s, i + 1)
  }

  /** No two `\s` characters stand next to each other. */
  predicate NoDoubleSpace(s: string)
  {
    forall i :: 0 <= i < |s| - 1 ==> !(IsRegexSpace(s[i]) && IsRegexSpace(s[i + 1]))
  }

  /** A whole five-digit word at `i`: five digits with a word boundary on both sides. */
  predicate FiveDigitWordAt(s: string, i: nat)
  {
    && i + 5 <= |s| && AllDigits(s[i..i + 5])
    && (i == 0 || !IsWordChar(s[i - 1]))
    && (i + 5 == |s| || !IsWordChar(s[i + 5]))
  }

  /** `s.matches(".*\\b\\d{5}\\b.*")`: no line terminator (`.` does not match one) and a five-digit word. */
  predicate MatchesPostcode(s: string)
  {
    (forall i :: 0 <= i < |s| ==> !IsLineTerminator(s[i]))
    && exists i :: 0 <= i < |s| && FiveDigitWordAt(s, i)
  }

  /** `\s(\d{5})\b` matches at `i`: a `\s`, five digits, and no word character after them. */
  predicate SpacedPostcodeAt(s: string, i: nat)
  {
    && i + 6 <= |s| && IsRegexSpace(s[i]) && AllDigits(s[i + 1..i + 6])
    && (i + 6 == |s| || !IsWordChar(s[i + 6]))
  }

  /** The leftmost match of `\s(\d{5})\b` at or after `i`. */
  function FindSpacedPostcode(s: string, i: nat): (m: Option<nat>)
    requires i <= |s|
    ensures m.Some? ==> i <= m.value && SpacedPostcodeAt(s, m.value)
    decreases |s| - i
  {
    if i == |s| then None
    else if SpacedPostcodeAt(s, i) then Some(i)
    else FindSpacedPostcode(s, i + 1)
  }

  /** `replaceFirst("\\s(\\d{5})\\b", "\n$1")`: the space before the first such number becomes a line break. */
  function BreakBeforePostcode(s: string): string
  {
    match FindSpacedPostcode(s, 0)
    case None => s
    case Some(p) => s[..p] + "\n" + s[p + 1..]
  }

  /**
   * `mergeAddress`: both halves trimmed; empty if both are empty, the other
   * one if one is; else joined by a space, runs of blanks collapsed, trimmed,
   * and a line break put before the postcode when there is one.
   */
  function MergeAddress(a: Option<string>, b: Option<string>): string
  {
    var s1 := Trim(OrEmpty(a));
    var s2 := Trim(OrEmpty(b));
    if s1 == [] && s2 == [] then ""
    else if s1 == [] then s2
    else if s2 == [] then s1
    else
      var s := Trim(CollapseSpaces(s1 + " " + s2, 0));
      if MatchesPostcode(s) then BreakBeforePostcode(s) else s
  }

  /** The merged address is empty exactly when both halves are blank; one blank half gives the other, trimmed. */
  lemma MergeAddressBlank(a: Option<string>, b: Option<string>)
    ensures MergeAddress(a, b) == [] <==> !NotBlank(a) && !NotBlank(b)
    ensures !NotBlank(a) ==> MergeAddress(a, b) == Trim(OrEmpty(b))
    ensures !NotBlank(b) ==> MergeAddress(a, b) == Trim(OrEmpty(a))
    ensures IsTrimmed(MergeAddress(a, b))
  {
    TrimShape(OrEmpty(a));
    TrimShape(OrEmpty(b));
    var s1 := Trim(OrEmpty(a));
    var s2 := Trim(OrEmpty(b));
    if s1 != [] && s2 != [] {
      var j := s1 + " " + s2;
      CollapseKeepsEnds(j);
      var c := CollapseSpaces(j, 0);
      TrimShape(c);
      var s := Trim(c);
      assert s != [];
      if MatchesPostcode(s) {
        BreakKeepsTrimmed(s);
      }
    }
  }

  /** Collapsing keeps a leading character that is not a blank. */
  lemma CollapseKeepsEnds(s: string)
    requires s != [] && !IsTrimmable(s[0])
    ensures CollapseSpaces(s, 0) != [] && !IsTrimmable(CollapseSpaces(s, 0)[0])
  {
    RegexSpaceIsTrimmable(s[0]);
  }

  /** The line break replaces a blank inside the text, so a trimmed text stays trimmed. */
  lemma BreakKeepsTrimmed(s: string)
    requires s != [] && IsTrimmed(s)
    ensures IsTrimmed(BreakBeforePostcode(s)) && |BreakBeforePostcode(s)| == |s|
  {
    match FindSpacedPostcode(s, 0)
    case None =>
    case Some(p) =>
      RegexSpaceIsTrimmable(s[p]);
      var r := s[..p] + "\n" + s[p + 1..];
      assert r[0] == s[0];
      assert r[|r| - 1] == s[|s| - 1];
  }

  /** Collapsing a text that starts with a non-blank keeps that character first. */
  lemma CollapseFirst(s: string, i: nat)
    requires i < |s| && !IsRegexSpace(s[i])
    ensures CollapseSpaces(s, i) != [] && CollapseSpaces(s, i)[0] == s[i]
  {
  }

  /** After `replaceAll("\\s{2,}", " ")` no two blanks are adjacent. */
  lemma {:induction false} CollapseNoDoubleSpace(s: string, i: nat)
    requires i <= |s|
    ensures NoDoubleSpace(CollapseSpaces(s, i))
    decreases |s| - i
  {
    if i < |s| {
      if i + 1 < |s| && IsRegexSpace(s[i]) && IsRegexSpace(s[i + 1]) {
        var j := SkipSpaces(s, i);
        CollapseNoDoubleSpace(s, j);
        SkipSpacesStops(s, i);
        if j < |s| {
          CollapseFirst(s, j);
        }
      } else {
        CollapseNoDoubleSpace(s, i + 1);
        if i + 1 < |s| && !IsRegexSpace(s[i + 1]) {
          CollapseFirst(s, i + 1);
        }
      }
    }
  }

  /** Skipping stops at a non-blank or at the end. */
  lemma {:induction false} SkipSpacesStops(s: string, i: nat)
    requires i <= |s|
    ensures SkipSpaces(s, i) == |s| || !IsRegexSpace(s[SkipSpaces(s, i)])
    decreases |s| - i
  {
    if i < |s| && IsRegexSpace(s[i]) {
      SkipSpacesStops(s, i + 1);
    }
  }

  /** A text without adjacent blanks is left as it is. */
  lemma {:induction false} CollapseIdentity(s: string, i: nat)
    requires i <= |s| && NoDoubleSpace(s)
    ensures CollapseSpaces(s, i) == s[i..]
    decreases |s| - i
  {
    if i < |s| {
      CollapseIdentity(s, i + 1);
      assert s[i..] == [s[i]] + s[i + 1..];
    }
  }

  /** Trimming cuts a slice, so it keeps blanks apart. */
  lemma TrimNoDoubleSpace(s: string)
    requires NoDoubleSpace(s)
    ensures NoDoubleSpace(Trim(s))
  {
    TrimStartShape(s);
    TrimEndShape(TrimStart(s));
    var t := TrimStart(s);
    var r := Trim(s);
    var a := |s| - |t|;
    forall i | 0 <= i < |r| - 1 ensures !(IsRegexSpace(r[i]) && IsRegexSpace(r[i + 1])) {
      assert r[i] == s[a + i] && r[i + 1] == s[a + i + 1];
    }
  }

  /** The line break stands where a lone blank stood, so blanks stay apart. */
  lemma BreakNoDoubleSpace(s: string)
    requires NoDoubleSpace(s)
    ensures NoDoubleSpace(BreakBeforePostcode(s))
  {
    match FindSpacedPostcode(s, 0)
    case None =>
    case Some(p) =>
      var r := s[..p] + "\n" + s[p + 1..];
      forall i | 0 <= i < |r| - 1 ensures !(IsRegexSpace(r[i]) && IsRegexSpace(r[i + 1])) {
        if i + 1 < p || i > p {
          assert r[i] == s[i] && r[i + 1] == s[i + 1];
        } else if i + 1 == p {
          assert r[i] == s[i] && !IsRegexSpace(s[i]);
        } else {
          assert r[i + 1] == s[i + 1] && !IsRegexSpace(s[i + 1]);
        }
      }
  }

  /** Two non-blank halves come out with every run of blanks reduced to a single blank. */
  lemma MergeAddressNoDoubleSpace(a: Option<string>, b: Option<string>)
    requires NotBlank(a) && NotBlank(b)
    ensures NoDoubleSpace(MergeAddress(a, b))
  {
    var s1 := Trim(OrEmpty(a));
    var s2 := Trim(OrEmpty(b));
    var c := CollapseSpaces(s1 + " " + s2, 0);
    CollapseNoDoubleSpace(s1 + " " + s2, 0);
    TrimNoDoubleSpace(c);
    BreakNoDoubleSpace(Trim(c));
  }

  /** The leftmost match is the first position where the pattern matches. */
  lemma {:induction false} FindSpacedPostcodeFirst(s: string, i: nat, p: nat)
    requires i <= p <= |s| && SpacedPostcodeAt(s, p)
    requires forall q :: i <= q < p ==> !SpacedPostcodeAt(s, q)
    ensures FindSpacedPostcode(s, i) == Some(p)
    decreases p - i
  {
    if i < p {
      FindSpacedPostcodeFirst(s, i + 1, p);
    }
  }

  /** Five digits in a row at `i`. */
  predicate FiveDigitsAt(s: string, i: nat)
  {
    i + 5 <= |s| && AllDigits(s[i..i + 5])
  }

  /** A street line without five consecutive digits. */
  predicate NoFiveDigits(s: string)
  {
    forall i :: 0 <= i <= |s| ==> !FiveDigitsAt(s, i)
  }

  predicate NoLineTerminator(s: string)
  {
    forall i :: 0 <= i < |s| ==> !IsLineTerminator(s[i])
  }

  /**
   * The case the method is written for: a street half and a half that starts
   * with the five-digit postcode are put on two lines.
   */
  lemma MergeStreetAndPostcode(s1: string, s2: string)
    requires s1 != [] && s2 != [] && IsTrimmed(s1) && IsTrimmed(s2)
    requires NoDoubleSpace(s1) && NoDoubleSpace(s2)
    requires NoLineTerminator(s1) && NoLineTerminator(s2)
    requires NoFiveDigits(s1) && FiveDigitWordAt(s2, 0)
    ensures MergeAddress(Some(s1), Some(s2)) == s1 + "\n" + s2
  {
    TrimOfTrimmed(s1);
    TrimOfTrimmed(s2);
    var j := s1 + " " + s2;
    var n := |s1|;
    JoinedNoDoubleSpace(s1, s2, j);
    CollapseIdentity(j, 0);
    assert j[0..] == j;
    assert IsTrimmed(j) by {
      assert j[0] == s1[0] && j[|j| - 1] == s2[|s2| - 1];
    }
    TrimOfTrimmed(j);
    JoinedPostcode(s1, s2, j, n);
    assert j[..n] + "\n" + j[n + 1..] == s1 + "\n" + s2 by {
      assert j[..n] == s1 && j[n + 1..] == s2;
    }
  }

  /** Joining two trimmed halves without adjacent blanks by one space adds none. */
  lemma JoinedNoDoubleSpace(s1: string, s2: string, j: string)
    requires s1 != [] && s2 != [] && IsTrimmed(s1) && IsTrimmed(s2)
    requires NoDoubleSpace(s1) && NoDoubleSpace(s2)
    requires j == s1 + " " + s2
    ensures NoDoubleSpace(j)
  {
    RegexSpaceIsTrimmable(s1[|s1| - 1]);
    RegexSpaceIsTrimmable(s2[0]);
    forall i | 0 <= i < |j| - 1 ensures !(IsRegexSpace(j[i]) && IsRegexSpace(j[i + 1])) {
      if i + 1 < |s1| {
        assert j[i] == s1[i] && j[i + 1] == s1[i + 1];
      } else if i + 1 == |s1| {
        assert j[i] == s1[|s1| - 1];
      } else if i == |s1| {
        assert j[i + 1] == s2[0];
      } else {
        assert j[i] == s2[i - |s1| - 1] && j[i + 1] == s2[i - |s1|];
      }
    }
  }

  /** In the joined text the postcode is a whole word, and the space before it is the first match. */
  lemma JoinedPostcode(s1: string, s2: string, j: string, n: nat)
    requires s1 != [] && s2 != [] && NoLineTerminator(s1) && NoLineTerminator(s2)
    requires NoFiveDigits(s1) && FiveDigitWordAt(s2, 0)
    requires j == s1 + " " + s2 && n == |s1|
    ensures MatchesPostcode(j)
    ensures FindSpacedPostcode(j, 0) == Some(n)
  {
    assert j[n + 1..n + 6] == s2[..5];
    assert n + 6 < |j| ==> j[n + 6] == s2[5];
    assert FiveDigitWordAt(j, n + 1);
    forall i | 0 <= i < |j| ensures !IsLineTerminator(j[i]) {
      if i < n {
        assert j[i] == s1[i];
      } else if i > n {
        assert j[i] == s2[i - n - 1];
      }
    }
    assert SpacedPostcodeAt(j, n);
    forall q | 0 <= q < n ensures !SpacedPostcodeAt(j, q) {
      if q + 6 <= n {
        assert j[q + 1..q + 6] == s1[q + 1..q + 6];
        assert !FiveDigitsAt(s1, q + 1);
      } else if q + 6 <= |j| {
        assert j[q + 1..q + 6][n - q - 1] == j[n] == ' ';
      }
    }
    FindSpacedPostcodeFirst(j, 0, n);
  }

  // ---------------------------------------------------------------
  // The weekday order
  // ---------------------------------------------------------------

  const WeekdayOrder: seq<string> := ["Mo", "Di", "Mi", "Do", "Fr", "Sa", "So"]

  /** `List.indexOf`: the first position of `d` in `s`, or -1. */
  function IndexIn(s: seq<string>, d: string): (i: int)
    ensures -1 <= i < |s|
    ensures i >= 0 ==> s[i] == d && forall j :: 0 <= j < i ==> s[j] != d
    ensures i < 0 ==> d !in s
  {
    if s == [] then -1
    else if s[0] == d then 0
    else
      var k := IndexIn(s[1..], d);
      if k < 0 then -1 else k + 1
  }

  /** `weekdayComparator`: known days by their position, known before unknown, unknown by `compareTo`. */
  function WeekdayCompare(a: string, b: string): int
  {
    var ia := IndexIn(WeekdayOrder, a);
    var ib := IndexIn(WeekdayOrder, b);
    if ia == -1 && ib == -1 then CompareTo(a, b)
    else if ia == -1 then 1
    else if ib == -1 then -1
    else CompareInt(ia, ib)
  }

  /** The day names are distinct, so each is found at its own position. */
  lemma WeekdayIndexOf(i: nat)
    requires i < |WeekdayOrder|
    ensures IndexIn(WeekdayOrder, WeekdayOrder[i]) == i
  {
  }

  /** Mo < Di < Mi < Do < Fr < Sa < So. */
  lemma WeekdaysInOrder(i: nat, j: nat)
    requires i < j < |WeekdayOrder|
    ensures WeekdayCompare(WeekdayOrder[i], WeekdayOrder[j]) < 0
  {
    WeekdayIndexOf(i);
    WeekdayIndexOf(j);
  }

  /** A known day comes before any other text. */
  lemma KnownBeforeUnknown(a: string, b: string)
    requires a in WeekdayOrder && b !in WeekdayOrder
    ensures WeekdayCompare(a, b) < 0 && WeekdayCompare(b, a) > 0
  {
  }

  /** Two texts that are not day names compare as `String.compareTo` does. */
  lemma UnknownsByCompareTo(a: string, b: string)
    requires a !in WeekdayOrder && b !in WeekdayOrder
    ensures WeekdayCompare(a, b) == CompareTo(a, b)
  {
  }

  /** The comparator is a total order: zero exactly on equal texts, antisymmetric and transitive. */
  lemma WeekdayCompareIsOrder(a: string, b: string, c: string)
    ensures WeekdayCompare(a, b) == 0 <==> a == b
    ensures WeekdayCompare(a, b) < 0 <==> WeekdayCompare(b, a) > 0
    ensures WeekdayCompare(a, b) < 0 && WeekdayCompare(b, c) < 0 ==> WeekdayCompare(a, c) < 0
  {
    CompareToZero(a, b);
    CompareToAntisymmetric(a, b);
    CompareToAntisymmetric(b, a);
    if WeekdayCompare(a, b) < 0 && WeekdayCompare(b, c) < 0 {
      if a !in WeekdayOrder && b !in WeekdayOrder && c !in WeekdayOrder {
        CompareToTransitive(a, b, c);
      }
    }
  }
}
