# Court-booking invoices: a Dafny model

This project models the core of a small invoicing tool for a tennis hall.
The hall keeps its weekly court bookings in a spreadsheet with one sheet per
weekday ("Mo" … "So"). The tool finds one customer's rows, reads the customer's
contact details and bookings, and merges the 30-minute slots into invoice
lines. It then fills a document template by substituting `{{key}}`
placeholders. A legacy reader prints every customer's compressed time blocks.

The model has seven modules:

- `ExcelReader` (`excel_reader.dfy`) models `ExcelReader`:
  - the rows of each sheet filed under the trimmed customer name (`groupRowsByCustomer`);
  - header lookup (`findColumnIndex`);
  - the blank and trim helpers;
  - time normalisation and range splitting;
  - price parsing;
  - `joinNonBlank`.
- `CustomerReader` (`customer_reader.dfy`) models `readCustomer`:
  - the first non-blank contact details win;
  - one booking per matching row, in sheet and row order;
  - the two passes that derive a booking's start, end and raw time text.
- `InvoiceGenerator` (`invoice_generator.dfy`) models `InvoiceGenerator`:
  - the time helpers (`parseHmToMinutes`, `formatMinutesAsHHmm`, `cleanHm`, `splitTimeRange`, `fromRaw`, `toRaw`, `prefer`, `nz`);
  - the postcode split of the address;
  - the invoice lines built in `generate`: starts filed per (sheet, hall, court) key, sorted, and cut into runs of consecutive half hours, with a fallback line;
  - the price per unit, the total units and the gross amount;
  - the null gross that makes `brutto / 1.19` throw;
  - the description cell of a line.
- `Placeholders` (`placeholders.dfy`) models the `{{key}}` pattern and its substitution:
  - into a paragraph's runs (`replaceInParagraph`);
  - into a table cell (`setCellFromTemplate`).
  - Paragraphs and cells are classes whose run and paragraph lists the methods replace in place.
- `ExcelReaderOld` (`excel_reader_old.dfy`) models the legacy reader:
  - `parseTime30` and the compression of sorted slots into blocks;
  - the slot order and the weekday order;
  - the carry-forward of customer fields across rows (`Carry`, `updateCarry`, `keepOrUpdate`);
  - the aggregate's field updates (`CustomerAgg`);
  - the merging of the two address halves.
- `JavaText` (`java_text.dfy`) holds the Java string operations the code relies on: `trim`, `isBlank`, `split`, `replace`, `compareTo` and the clock-time patterns.
- `Sequences` (`sequences.dfy`) holds the generic helpers:
  - cutting a list into linked runs;
  - first-encounter grouping (a `LinkedHashMap` of lists);
  - the first present value;
  - sorting.

Java's `null` strings are `Option<string>`. A spreadsheet cell is its text as
`getCellString` would give it. A `LocalTime` is a minute of the day, in
0..1439. A `Double` price is an exact real number.

## Model

| member | source | states |
|---|---|---|
| `ExcelReader.GetSheet` | rechnungsersteller/src/main/java/com/thk/rechner/ExcelReader.java:74 | the sheet found has the requested name up to case; when none is found, no sheet has it |
| `ExcelReader.ColumnIndex` | rechnungsersteller/src/main/java/com/thk/rechner/ExcelReader.java:296-313 | the result is -1 or a header column whose trimmed lower-cased text is a target, and no earlier column matches; -1 only when no column matches |
| `ExcelReader.FindColumnIndex` | rechnungsersteller/src/main/java/com/thk/rechner/ExcelReader.java:296-313 | the header scan returns the leftmost column matching the set of trimmed lower-cased wanted names |
| `ExcelReader.FirstHeaderMatch` | rechnungsersteller/src/main/java/com/thk/rechner/ExcelReader.java:304-312 | the loop over the header cells returns that leftmost match |
| `ExcelReader.TrimOrNull` | rechnungsersteller/src/main/java/com/thk/rechner/ExcelReader.java:358-363 | null exactly for null or whitespace-only text; otherwise the trimmed text, non-empty and trimmed |
| `ExcelReader.TrimOrNullIdempotent` | rechnungsersteller/src/main/java/com/thk/rechner/ExcelReader.java:361-363 | applying `trimOrNull` twice is applying it once |
| `ExcelReader.NormalizeTimeString` | rechnungsersteller/src/main/java/com/thk/rechner/ExcelReader.java:370-396 | blank text gives null; any result is an `H:MM`/`HH:MM` text or a one-digit-hour text cut after its seconds colon |
| `ExcelReader.IsoTimeOfDay` | rechnungsersteller/src/main/java/com/thk/rechner/ExcelReader.java:375-377 | characters 11..16 of an ISO date-time are a clock time |
| `ExcelReader.FirstFiveOfSeconds` | rechnungsersteller/src/main/java/com/thk/rechner/ExcelReader.java:380-382 | the first five characters of `H:MM:SS` are a clock time, or `H:MM:` for a one-digit hour |
| `ExcelReader.NormalizeIsoDateTime` | rechnungsersteller/src/main/java/com/thk/rechner/ExcelReader.java:375-377 | an ISO date-time, with or without seconds, gives characters 11 to 16 of the trimmed text, its time of day |
| `ExcelReader.NormalizeSeconds` | rechnungsersteller/src/main/java/com/thk/rechner/ExcelReader.java:379-382 | an `H:MM:SS`/`HH:MM:SS` text gives its first five characters |
| `ExcelReader.NormalizeRetry` | rechnungsersteller/src/main/java/com/thk/rechner/ExcelReader.java:389-395 | text of none of the three forms is retried on its digits and colons: a clock time there is the result, a time with seconds gives its first five characters, anything else gives null |
| `ExcelReader.NormalizeTimeWithWord` | rechnungsersteller/src/main/java/com/thk/rechner/ExcelReader.java:389-393 | `"9:30 Uhr"` normalises to `"9:30"` through the retry |
| `ExcelReader.NormalizeKeepsHourMinute` | rechnungsersteller/src/main/java/com/thk/rechner/ExcelReader.java:384-387 | an `H:MM`/`HH:MM` text comes back unchanged |
| `ExcelReader.NormalizeIdempotentOnHourMinute` | rechnungsersteller/src/main/java/com/thk/rechner/ExcelReader.java:370-396 | normalising twice is normalising once whenever the result is a clock time |
| `ExcelReader.NormalizeOneDigitHourSeconds` | rechnungsersteller/src/main/java/com/thk/rechner/ExcelReader.java:379-382 | `"9:30:00"` normalises to `"9:30:"`, keeping the seconds colon |
| `ExcelReader.NormalizeTruncatedSecondsFails` | rechnungsersteller/src/main/java/com/thk/rechner/ExcelReader.java:370-396 | `"9:30:"` is not accepted by a second normalisation |
| `ExcelReader.SplitTimeRange` | rechnungsersteller/src/main/java/com/thk/rechner/ExcelReader.java:399-410 | blank text gives two nulls; each end present is non-empty and trimmed |
| `ExcelReader.SplitTimeRangeJoin` | rechnungsersteller/src/main/java/com/thk/rechner/ExcelReader.java:399-410 | the range text `from + " - " + to` of two trimmed dash-free ends splits back into those ends |
| `ExcelReader.DashesNormalized` | rechnungsersteller/src/main/java/com/thk/rechner/ExcelReader.java:401-403 | an en or em dash between two dash-free ends is read as a hyphen |
| `ExcelReader.SplitTimeRangeDashes` | rechnungsersteller/src/main/java/com/thk/rechner/ExcelReader.java:399-410 | `f – t` and `f — t` split into `f` and `t` just as `f - t` does |
| `ExcelReader.ParsePriceSafe` | rechnungsersteller/src/main/java/com/thk/rechner/ExcelReader.java:413-426 | blank text is no price |
| `ExcelReader.PriceTextDropsEuroSign` | rechnungsersteller/src/main/java/com/thk/rechner/ExcelReader.java:415-420 | a trailing `" €"` after a number is removed by the cleaning, leaving the number's own cleaned text |
| `ExcelReader.PriceTextDropsEur` | rechnungsersteller/src/main/java/com/thk/rechner/ExcelReader.java:415-420 | a trailing `" EUR"` is removed just as well |
| `ExcelReader.PriceTextOfGrouped` | rechnungsersteller/src/main/java/com/thk/rechner/ExcelReader.java:415-420 | in `a.b,c` the thousands dot is dropped and the decimal comma becomes `.` |
| `ExcelReader.PriceWithEuroSign` | rechnungsersteller/src/main/java/com/thk/rechner/ExcelReader.java:413-426 | `a.b,c €` (as in `"1.234,50 €"`) is the price `abc / 10^|c|`, that is 1234.50 |
| `ExcelReader.PriceWithEur` | rechnungsersteller/src/main/java/com/thk/rechner/ExcelReader.java:413-426 | `a.b,c EUR` is the same price |
| `ExcelReader.PriceOfDigits` | rechnungsersteller/src/main/java/com/thk/rechner/ExcelReader.java:413-426 | a price of plain digits is that whole number |
| `ExcelReader.PriceDotIsDropped` | rechnungsersteller/src/main/java/com/thk/rechner/ExcelReader.java:419 | a `.` counts as a thousands separator whatever follows it: `"290.00"` is 29000 |
| `ExcelReader.PriceCommaIsDecimal` | rechnungsersteller/src/main/java/com/thk/rechner/ExcelReader.java:420 | a `,` is the decimal separator: digits `,` digits is their decimal value |
| `ExcelReader.PriceOfWord` | rechnungsersteller/src/main/java/com/thk/rechner/ExcelReader.java:421-425 | text without a number (`"abc"`) gives null, the caught `NumberFormatException` |
| `ExcelReader.ParseDoubleOfDecimal` | rechnungsersteller/src/main/java/com/thk/rechner/ExcelReader.java:422 | `Double.parseDouble` of digits `.` digits is their decimal value |
| `ExcelReader.JoinNonBlank` | rechnungsersteller/src/main/java/com/thk/rechner/ExcelReader.java:429-437 | the loop yields exactly the specified join of the non-blank parts |
| `ExcelReader.AppendNonBlank` | rechnungsersteller/src/main/java/com/thk/rechner/ExcelReader.java:431-435 | one step skips a null or blank part and appends the separator only after existing text |
| `ExcelReader.JoinedOfTrimmedParts` | rechnungsersteller/src/main/java/com/thk/rechner/ExcelReader.java:429-437 | the result is the trimmed non-blank parts joined by the separator, or null when there are none |
| `ExcelReader.JoinedTextEmpty` | rechnungsersteller/src/main/java/com/thk/rechner/ExcelReader.java:436 | null exactly when the built text is empty, and otherwise that text |
| `ExcelReader.RowName` | rechnungsersteller/src/main/java/com/thk/rechner/ExcelReader.java:84-88 | a row carries a name exactly when it exists and its name cell is not blank; the name is trimmed and non-empty |
| `ExcelReader.ReadName` | rechnungsersteller/src/main/java/com/thk/rechner/ExcelReader.java:84-88 | reading a row's name cell gives that name |
| `ExcelReader.RowNamesTrimmed` | rechnungsersteller/src/main/java/com/thk/rechner/ExcelReader.java:87-90 | every key filed is trimmed and non-empty |
| `ExcelReader.GroupRowsByCustomer` | rechnungsersteller/src/main/java/com/thk/rechner/ExcelReader.java:62-97 | the key order and map built are those of the stream of (name, row) pairs: keys in first-encounter order, each mapped to its rows in order |
| `ExcelReader.AddSheetRows` | rechnungsersteller/src/main/java/com/thk/rechner/ExcelReader.java:83-92 | the row loop of one sheet files each named row under its name with its 1-based row number |
| `ExcelReader.AddName` | rechnungsersteller/src/main/java/com/thk/rechner/ExcelReader.java:90-91 | `computeIfAbsent(name).add(ref)` for a named row; nothing for an unnamed one |
| `ExcelReader.FileNamesIsAddAll` | rechnungsersteller/src/main/java/com/thk/rechner/ExcelReader.java:83-92 | filing the rows of a sheet is adding their (name, row) pairs in turn |
| `ExcelReader.FileSheetsRepresents` | rechnungsersteller/src/main/java/com/thk/rechner/ExcelReader.java:68-96 | the map over all sheets is the one the pair stream describes |
| `ExcelReader.NamePairsMembers` | rechnungsersteller/src/main/java/com/thk/rechner/ExcelReader.java:83-92 | a row is filed exactly when it has a name, under that name and its row number |
| `ExcelReader.RowFiled` | rechnungsersteller/src/main/java/com/thk/rechner/ExcelReader.java:83-92 | a sheet row is filed exactly when it exists and its name cell is not blank, under the trimmed name |
| `ExcelReader.NamePairsAscending` | rechnungsersteller/src/main/java/com/thk/rechner/ExcelReader.java:83-92 | within a sheet, rows are filed top to bottom with strictly increasing row numbers |
| `ExcelReader.CustomerRowPairsShape` | rechnungsersteller/src/main/java/com/thk/rechner/ExcelReader.java:73-93 | every filed name is trimmed and non-empty, comes from a requested sheet, and has a row number of at least 2 |
| `CustomerReader.FindColumns` | rechnungsersteller/src/main/java/com/thk/rechner/ExcelReader.java:138-158 | the column lookups of a sheet; no "name" column exactly when no header cell is "name" |
| `CustomerReader.OptionalCell` | rechnungsersteller/src/main/java/com/thk/rechner/ExcelReader.java:196-200 | an optional column's value is null or non-empty trimmed text |
| `CustomerReader.JoinedTimesMatch` | rechnungsersteller/src/main/java/com/thk/rechner/ExcelReader.java:210 | `f - t` of two clock times matches the time-range pattern |
| `CustomerReader.NoDigitDoesNotMatch` | rechnungsersteller/src/main/java/com/thk/rechner/ExcelReader.java:210 | text without a digit never matches the range pattern |
| `CustomerReader.NullRangeText` | rechnungsersteller/src/main/java/com/thk/rechner/ExcelReader.java:215 | two null ends build the raw text `"null - null"` |
| `CustomerReader.NullRangeDoesNotMatch` | rechnungsersteller/src/main/java/com/thk/rechner/ExcelReader.java:234-235 | `"null - null"` never matches the range pattern |
| `CustomerReader.RangeCellIsSplit` | rechnungsersteller/src/main/java/com/thk/rechner/ExcelReader.java:208-215 | a time cell `f - t` with no start or end columns gives start f, end t and raw text `f - t` |
| `CustomerReader.SeparateColumnsWin` | rechnungsersteller/src/main/java/com/thk/rechner/ExcelReader.java:222-231 | separate start and end values take precedence over the time cell, and the raw text is built from them |
| `CustomerReader.RangeCellRecheck` | rechnungsersteller/src/main/java/com/thk/rechner/ExcelReader.java:208-240 | after a range cell the second pass changes nothing |
| `CustomerReader.SingleCellRecheck` | rechnungsersteller/src/main/java/com/thk/rechner/ExcelReader.java:216-240 | after a single-time cell the second pass changes nothing |
| `CustomerReader.RecheckKeeps` | rechnungsersteller/src/main/java/com/thk/rechner/ExcelReader.java:233-240 | the second pass keeps any time with a start, an end, or a raw text that is not a hyphen range |
| `CustomerReader.RecheckNeverFires` | rechnungsersteller/src/main/java/com/thk/rechner/ExcelReader.java:233-240 | the second range split never changes a booking's times |
| `CustomerReader.TimesOfIsFirstPass` | rechnungsersteller/src/main/java/com/thk/rechner/ExcelReader.java:199-240 | a row's times are those of the first pass over its start, end and time cells |
| `CustomerReader.RawSplitsBack` | rechnungsersteller/src/main/java/com/thk/rechner/ExcelReader.java:199-240 | when a booking has both a start and an end, its raw text splits back into them |
| `CustomerReader.BookingTimesSplitBack` | rechnungsersteller/src/main/java/com/thk/rechner/ExcelReader.java:248-257 | the same holds of every booking `readCustomer` adds |
| `CustomerReader.ReadCustomer` | rechnungsersteller/src/main/java/com/thk/rechner/ExcelReader.java:112-266 | reading the workbook yields the customer defined by the matching rows of all weekday sheets |
| `CustomerReader.ReadSheet` | rechnungsersteller/src/main/java/com/thk/rechner/ExcelReader.java:130-159 | one sheet takes in its hits; a missing sheet, header or name column adds nothing |
| `CustomerReader.ReadSheetRows` | rechnungsersteller/src/main/java/com/thk/rechner/ExcelReader.java:160-258 | the row loop takes in the hits of the rows in order |
| `CustomerReader.ReadRow` | rechnungsersteller/src/main/java/com/thk/rechner/ExcelReader.java:160-168 | a missing row, blank name or other customer adds nothing; a matching row is a hit |
| `CustomerReader.TakeIn` | rechnungsersteller/src/main/java/com/thk/rechner/ExcelReader.java:170-257 | a hit fills the still missing contact details and appends its booking |
| `CustomerReader.TakeField` | rechnungsersteller/src/main/java/com/thk/rechner/ExcelReader.java:170-193 | a missing detail takes the hit's value; a present one is kept |
| `CustomerReader.StepAllAppend` | rechnungsersteller/src/main/java/com/thk/rechner/ExcelReader.java:130-259 | taking in two lists of hits is taking in the first, then the second |
| `CustomerReader.StepAllFields` | rechnungsersteller/src/main/java/com/thk/rechner/ExcelReader.java:170-193 | each contact detail ends up as the first value any hit offered, unless one was already present |
| `CustomerReader.StepAllBookings` | rechnungsersteller/src/main/java/com/thk/rechner/ExcelReader.java:248-257 | each hit appends exactly its own booking, in order |
| `CustomerReader.RowHitsShape` | rechnungsersteller/src/main/java/com/thk/rechner/ExcelReader.java:160-168 | a sheet's hits are matching rows of that sheet, top to bottom, with their row numbers |
| `CustomerReader.RowHitsComplete` | rechnungsersteller/src/main/java/com/thk/rechner/ExcelReader.java:160-168 | every existing row whose name matches is a hit |
| `CustomerReader.SheetHitsShape` | rechnungsersteller/src/main/java/com/thk/rechner/ExcelReader.java:131-139 | hits come from a sheet with a "name" column, under the requested sheet name |
| `CustomerReader.HitsShape` | rechnungsersteller/src/main/java/com/thk/rechner/ExcelReader.java:130-168 | every hit comes from a weekday sheet with a "name" column, and its name matches |
| `CustomerReader.CandidateShape` | rechnungsersteller/src/main/java/com/thk/rechner/ExcelReader.java:170-193 | an offered value is never blank, and a salutation is never "Herrn" in any case |
| `CustomerReader.LastNameOffered` | rechnungsersteller/src/main/java/com/thk/rechner/ExcelReader.java:181-182 | a hit always offers its trimmed name as the last name |
| `CustomerReader.FirstSomeOffered` | rechnungsersteller/src/main/java/com/thk/rechner/ExcelReader.java:170-193 | any detail taken was offered by some hit |
| `CustomerReader.CustomerIsFirstValues` | rechnungsersteller/src/main/java/com/thk/rechner/ExcelReader.java:170-192 | each contact detail other than the last name is the first value the matching rows offer |
| `CustomerReader.CustomerBookings` | rechnungsersteller/src/main/java/com/thk/rechner/ExcelReader.java:194-258 | there is one booking per matching row, in sheet and row order |
| `CustomerReader.CustomerLastName` | rechnungsersteller/src/main/java/com/thk/rechner/ExcelReader.java:181-263 | the last name is the first matching row's trimmed name, or the wanted text when no row matches |
| `CustomerReader.CustomerNotFound` | rechnungsersteller/src/main/java/com/thk/rechner/ExcelReader.java:262-265 | with no matching row there are no details and no bookings, and the last name is the wanted text |
| `CustomerReader.CustomerDetailsShape` | rechnungsersteller/src/main/java/com/thk/rechner/ExcelReader.java:171-193 | no contact detail other than the last name is blank, and the salutation is never "Herrn" |
| `InvoiceGenerator.ParseHmShape` | rechnungsersteller/src/main/java/com/thk/rechner/InvoiceGenerator.java:490-502 | non-negative exactly when the trimmed text is `H:MM`/`HH:MM`, then `h * 60 + m`; otherwise -1; never above 99:99 |
| `InvoiceGenerator.ParseHmNoRangeCheck` | rechnungsersteller/src/main/java/com/thk/rechner/InvoiceGenerator.java:493-498 | minutes are not range-checked: `"7:75"` is 495 |
| `InvoiceGenerator.FormatShape` | rechnungsersteller/src/main/java/com/thk/rechner/InvoiceGenerator.java:514-519 | below 100 hours the text is `HH:MM` with the hours and the minutes of the count |
| `InvoiceGenerator.ParseFormatRoundTrip` | rechnungsersteller/src/main/java/com/thk/rechner/InvoiceGenerator.java:490-519 | parsing the formatted count gives it back below 100 hours; negative counts and counts of 100 hours or more give -1 |
| `InvoiceGenerator.FormatParseRoundTrip` | rechnungsersteller/src/main/java/com/thk/rechner/InvoiceGenerator.java:490-519 | a clock time with minutes below 60 comes back zero-padded to `HH:MM` |
| `InvoiceGenerator.CleanHmShape` | rechnungsersteller/src/main/java/com/thk/rechner/InvoiceGenerator.java:552-558 | keeps a clock time and cuts seconds off; a one-digit hour with seconds leaves `H:MM:`, which no longer parses; anything else is null |
| `InvoiceGenerator.SplitRangeJoin` | rechnungsersteller/src/main/java/com/thk/rechner/InvoiceGenerator.java:479-550 | `fromRaw` and `toRaw` of `f - t` give back the two clock times |
| `InvoiceGenerator.SplitRangeDashes` | rechnungsersteller/src/main/java/com/thk/rechner/InvoiceGenerator.java:479-550 | `fromRaw` and `toRaw` read `f – t` and `f — t` of two clock times as `f - t`: the en and em dash become a hyphen |
| `InvoiceGenerator.FindPostcodeIsFirstFiveDigits` | rechnungsersteller/src/main/java/com/thk/rechner/InvoiceGenerator.java:46-49 | the postcode group starts at the first run of five digits; there is no match exactly when no five digits are adjacent |
| `InvoiceGenerator.SplitAddressShape` | rechnungsersteller/src/main/java/com/thk/rechner/InvoiceGenerator.java:44-54 | without five digits the address is kept as it came; otherwise postcode and city start at the first five digits and the address keeps what precedes them, trimmed |
| `InvoiceGenerator.CountryPrefixStaysInAddress` | rechnungsersteller/src/main/java/com/thk/rechner/InvoiceGenerator.java:46-53 | a `D-` before the postcode stays in the address part |
| `InvoiceGenerator.StartOfShape` | rechnungsersteller/src/main/java/com/thk/rechner/InvoiceGenerator.java:65-69 | a booking contributes a start exactly when its preferred start text is a clock time once trimmed, and contributes its minutes |
| `InvoiceGenerator.StartFromRange` | rechnungsersteller/src/main/java/com/thk/rechner/InvoiceGenerator.java:66-69 | without a from-time, the start is the left end of the raw range |
| `InvoiceGenerator.KeyPartsOfKey` | rechnungsersteller/src/main/java/com/thk/rechner/InvoiceGenerator.java:70-78 | names without a vertical bar come back out of the key unchanged |
| `InvoiceGenerator.KeyCollision` | rechnungsersteller/src/main/java/com/thk/rechner/InvoiceGenerator.java:70 | a vertical bar inside a name is not escaped, so two different bookings can share a key |
| `InvoiceGenerator.StartPairsMembers` | rechnungsersteller/src/main/java/com/thk/rechner/InvoiceGenerator.java:65-72 | a (key, start) pair is filed exactly when some booking has that key and that start |
| `InvoiceGenerator.StartPairsEmpty` | rechnungsersteller/src/main/java/com/thk/rechner/InvoiceGenerator.java:65-72 | nothing is filed exactly when no booking contributes |
| `InvoiceGenerator.KeyRunsShape` | rechnungsersteller/src/main/java/com/thk/rechner/InvoiceGenerator.java:79-90 | a key's runs are its starts sorted (a permutation), each run consecutive half hours, adjacent runs in order and not continuing one another |
| `InvoiceGenerator.KeyBlocksShape` | rechnungsersteller/src/main/java/com/thk/rechner/InvoiceGenerator.java:79-101 | one block per run, from its first start to 30 minutes per start later, one unit per start; units add up to the number of starts |
| `InvoiceGenerator.KeyRunsDisjointOnGrid` | rechnungsersteller/src/main/java/com/thk/rechner/InvoiceGenerator.java:79-101 | for distinct starts on the half-hour grid, each block ends strictly before the next begins |
| `InvoiceGenerator.DuplicateStartRepeatsBlock` | rechnungsersteller/src/main/java/com/thk/rechner/InvoiceGenerator.java:82-101 | a start filed twice yields the same block twice |
| `InvoiceGenerator.BlocksShape` | rechnungsersteller/src/main/java/com/thk/rechner/InvoiceGenerator.java:63-113 | no lines exactly when no bookings; with starts, units equal the number of contributing bookings; otherwise one fallback line from the first booking, always 1 unit |
| `InvoiceGenerator.BlockKeysFirstEncounter` | rechnungsersteller/src/main/java/com/thk/rechner/InvoiceGenerator.java:63-74 | keys come once each, in order of their first contributing booking, and are exactly the keys of contributing bookings |
| `InvoiceGenerator.CollectStarts` | rechnungsersteller/src/main/java/com/thk/rechner/InvoiceGenerator.java:63-72 | the loop builds the key order and the `startsByKey` map of the filed pairs |
| `InvoiceGenerator.FileStart` | rechnungsersteller/src/main/java/com/thk/rechner/InvoiceGenerator.java:66-71 | one booking adds its start under its key, or nothing when it has none |
| `InvoiceGenerator.AppendKeyBlocks` | rechnungsersteller/src/main/java/com/thk/rechner/InvoiceGenerator.java:81-101 | the segment loop over one key's sorted starts appends one block per run of consecutive starts |
| `InvoiceGenerator.BuildBlocks` | rechnungsersteller/src/main/java/com/thk/rechner/InvoiceGenerator.java:63-113 | step 3 of `generate` builds exactly the specified lines |
| `InvoiceGenerator.PricePerUnit` | rechnungsersteller/src/main/java/com/thk/rechner/InvoiceGenerator.java:57-60 | the price of the first booking that has one, or null |
| `InvoiceGenerator.ComputeAmounts` | rechnungsersteller/src/main/java/com/thk/rechner/InvoiceGenerator.java:57-116 | price, units and gross as `generate` computes them |
| `InvoiceGenerator.NullGrossIffNoPrice` | rechnungsersteller/src/main/java/com/thk/rechner/InvoiceGenerator.java:116-179 | the gross is null, and `brutto / 1.19` throws, exactly when no booking has a price |
| `InvoiceGenerator.AmountsShape` | rechnungsersteller/src/main/java/com/thk/rechner/InvoiceGenerator.java:57-116 | the price is the first one in list order, units are one per contributing booking (or 1), and the gross is price times units |
| `InvoiceGenerator.TotalUnits` | rechnungsersteller/src/main/java/com/thk/rechner/InvoiceGenerator.java:102-115 | `totalUnits30` of a non-empty booking list |
| `InvoiceGenerator.DescriptionText` | rechnungsersteller/src/main/java/com/thk/rechner/InvoiceGenerator.java:259-270 | the description template filled with the line's values reads the same as the fallback text |
| `InvoiceGenerator.FillDescription` | rechnungsersteller/src/main/java/com/thk/rechner/InvoiceGenerator.java:256-270 | the description cell gets one paragraph whose text is the line's description |
| `Placeholders.MatchShape` | rechnungsersteller/src/main/java/com/thk/rechner/InvoiceGenerator.java:343 | a match is `{{`, a non-empty `[a-zA-Z0-9_]` key, `}}` |
| `Placeholders.FindIsLeftmost` | rechnungsersteller/src/main/java/com/thk/rechner/InvoiceGenerator.java:346 | `find` returns the leftmost match, and fails only when no match exists |
| `Placeholders.NoPlaceholderUnchanged` | rechnungsersteller/src/main/java/com/thk/rechner/InvoiceGenerator.java:408-410 | text without a placeholder is left as it is |
| `Placeholders.SubstituteSplice` | rechnungsersteller/src/main/java/com/thk/rechner/InvoiceGenerator.java:418-468 | substituting `a{{k}}b` with no placeholder in `a` gives `a`, the value of `k` (or `""`), then `b` substituted |
| `Placeholders.SubstituteRunsText` | rechnungsersteller/src/main/java/com/thk/rechner/InvoiceGenerator.java:418-468 | the runs written read, one after the other, as the substituted text |
| `Placeholders.JoinTexts` | rechnungsersteller/src/main/java/com/thk/rechner/InvoiceGenerator.java:403-405 | the paragraph text is its runs' texts concatenated |
| `Placeholders.Paragraph.RemoveAllRuns` | rechnungsersteller/src/main/java/com/thk/rechner/InvoiceGenerator.java:413 | the paragraph is left without runs |
| `Placeholders.Paragraph.AppendSubstituted` | rechnungsersteller/src/main/java/com/thk/rechner/InvoiceGenerator.java:415-468 | the matcher loop appends the literal, value and tail runs of the substituted text |
| `Placeholders.Paragraph.ReplaceInParagraph` | rechnungsersteller/src/main/java/com/thk/rechner/InvoiceGenerator.java:399-471 | a paragraph without runs, text or placeholder is untouched; otherwise its runs become the substituted runs; its text is always the substituted text |
| `Placeholders.Cell.SetCellFromTemplate` | rechnungsersteller/src/main/java/com/thk/rechner/InvoiceGenerator.java:332-360 | the cell gets one new paragraph with the template substituted when its old text contains `{{`, else the fallback substituted |
| `Placeholders.CellText` | rechnungsersteller/src/main/java/com/thk/rechner/InvoiceGenerator.java:333 | the cell text is its paragraphs' texts concatenated |
| `ExcelReaderOld.ParseTime30Shape` | rechnungsersteller/src/main/java/com/thk/rechner/ExcelReaderOld.java:367-376 | a time exactly for `HH:MM` with hour up to 23 and minute 0 or 30, or `24:00`; the value is on the half-hour grid and is `h * 60 + m` modulo a day |
| `ExcelReaderOld.OneDigitHourRejected` | rechnungsersteller/src/main/java/com/thk/rechner/ExcelReaderOld.java:369-372 | `"9:30"` passes the pattern but not the two-digit `HH:mm` parse |
| `ExcelReaderOld.MidnightAsTwentyFour` | rechnungsersteller/src/main/java/com/thk/rechner/ExcelReaderOld.java:371 | `"24:00"` is read as midnight |
| `ExcelReaderOld.FormatTimeShape` | rechnungsersteller/src/main/java/com/thk/rechner/ExcelReaderOld.java:42 | `HH:mm` formatting gives a five-character clock time of the hour and minute |
| `ExcelReaderOld.ParseFormatTime30` | rechnungsersteller/src/main/java/com/thk/rechner/ExcelReaderOld.java:367-376 | every half-hour time formats and parses back to itself |
| `ExcelReaderOld.OffGridRejected` | rechnungsersteller/src/main/java/com/thk/rechner/ExcelReaderOld.java:373-374 | a formatted time off the half-hour grid is rejected |
| `ExcelReaderOld.CompressByCourtAndTariff` | rechnungsersteller/src/main/java/com/thk/rechner/ExcelReaderOld.java:379-418 | the loop yields one block per maximal run of slots with the same hall, court and tariff, each 30 minutes after the previous |
| `ExcelReaderOld.CompressStep` | rechnungsersteller/src/main/java/com/thk/rechner/ExcelReaderOld.java:387-410 | one slot starts, extends or closes-and-restarts the current block, keeping the loop state in step with the runs so far |
| `ExcelReaderOld.CompressedEmpty` | rechnungsersteller/src/main/java/com/thk/rechner/ExcelReaderOld.java:381 | no blocks exactly when no slots |
| `ExcelReaderOld.CompressedCoversSlots` | rechnungsersteller/src/main/java/com/thk/rechner/ExcelReaderOld.java:379-418 | the runs are the slots in order, each run linked, adjacent runs not linked, and each block is the block of its run |
| `ExcelReaderOld.RepeatedTimeSplits` | rechnungsersteller/src/main/java/com/thk/rechner/ExcelReaderOld.java:400 | a repeated time never extends a block |
| `ExcelReaderOld.RunSpan` | rechnungsersteller/src/main/java/com/thk/rechner/ExcelReaderOld.java:400-414 | a block ends 30 minutes per slot after its start, modulo a day |
| `ExcelReaderOld.MidnightWraps` | rechnungsersteller/src/main/java/com/thk/rechner/ExcelReaderOld.java:400-414 | 23:30 followed by 00:00 makes one block from 23:30 to 00:30 |
| `ExcelReaderOld.SlotCompareAntisymmetric` | rechnungsersteller/src/main/java/com/thk/rechner/ExcelReaderOld.java:136-140 | the slot comparator (trimmed hall, court, tariff, then time) is antisymmetric |
| `ExcelReaderOld.SlotLeTotal` | rechnungsersteller/src/main/java/com/thk/rechner/ExcelReaderOld.java:136-140 | any two slots are ordered one way or the other |
| `ExcelReaderOld.SortSlotsShape` | rechnungsersteller/src/main/java/com/thk/rechner/ExcelReaderOld.java:136-140 | the sorted slots are a permutation of the input, in comparator order |
| `ExcelReaderOld.SortedBlocksAscend` | rechnungsersteller/src/main/java/com/thk/rechner/ExcelReaderOld.java:136-143 | after the sort, the runs come in comparator order |
| `ExcelReaderOld.KeepOrUpdateShape` | rechnungsersteller/src/main/java/com/thk/rechner/ExcelReaderOld.java:338-342 | a blank new value keeps the old one; otherwise the new value, trimmed and non-empty; repeating the update changes nothing |
| `ExcelReaderOld.CarriedIsLastNonBlank` | rechnungsersteller/src/main/java/com/thk/rechner/ExcelReaderOld.java:319-342 | after a run of rows a carried field holds the last non-blank cell, trimmed, or its initial value |
| `ExcelReaderOld.Carry.constructor` | rechnungsersteller/src/main/java/com/thk/rechner/ExcelReaderOld.java:169-176 | all fields start empty |
| `ExcelReaderOld.Carry.UpdateCarry` | rechnungsersteller/src/main/java/com/thk/rechner/ExcelReaderOld.java:319-336 | each field is updated by `keepOrUpdate`, the address from both halves merged; a row without customer fields changes nothing; fields stay trimmed |
| `ExcelReaderOld.TakeIfNotBlankShape` | rechnungsersteller/src/main/java/com/thk/rechner/ExcelReaderOld.java:212-219 | a field set stays non-blank, takes only the carry's value, and a second update changes nothing |
| `ExcelReaderOld.CustomerAgg.constructor` | rechnungsersteller/src/main/java/com/thk/rechner/ExcelReaderOld.java:210 | a new aggregate holds the carry's non-blank fields and null elsewhere |
| `ExcelReaderOld.CustomerAgg.UpdateStaticInfoFromCarry` | rechnungsersteller/src/main/java/com/thk/rechner/ExcelReaderOld.java:212-219 | each field takes the carry's value when that is not blank and is kept otherwise |
| `ExcelReaderOld.AggregatedIsLastNonBlank` | rechnungsersteller/src/main/java/com/thk/rechner/ExcelReaderOld.java:212-219 | over several updates a field holds the last non-blank value, untrimmed, or its first value |
| `ExcelReaderOld.MergeAddressBlank` | rechnungsersteller/src/main/java/com/thk/rechner/ExcelReaderOld.java:345-351 | empty exactly when both halves are blank; one blank half gives the other trimmed; the result is trimmed |
| `ExcelReaderOld.MergeAddressNoDoubleSpace` | rechnungsersteller/src/main/java/com/thk/rechner/ExcelReaderOld.java:351-358 | the merged address has no two whitespace characters in a row |
| `ExcelReaderOld.MergeStreetAndPostcode` | rechnungsersteller/src/main/java/com/thk/rechner/ExcelReaderOld.java:351-356 | a street half and a half starting with a five-digit postcode are put on two lines |
| `ExcelReaderOld.JoinedPostcode` | rechnungsersteller/src/main/java/com/thk/rechner/ExcelReaderOld.java:354-356 | in that join the postcode pattern matches, and the first whitespace-then-postcode is the joining space |
| `ExcelReaderOld.FindSpacedPostcodeFirst` | rechnungsersteller/src/main/java/com/thk/rechner/ExcelReaderOld.java:356 | `replaceFirst` acts on the leftmost whitespace-then-postcode |
| `ExcelReaderOld.IndexIn` | rechnungsersteller/src/main/java/com/thk/rechner/ExcelReaderOld.java:224-225 | `indexOf`: the first position of the day in the list, or -1 when it is absent |
| `ExcelReaderOld.WeekdaysInOrder` | rechnungsersteller/src/main/java/com/thk/rechner/ExcelReaderOld.java:222-231 | Mo, Di, … So compare in that order |
| `ExcelReaderOld.KnownBeforeUnknown` | rechnungsersteller/src/main/java/com/thk/rechner/ExcelReaderOld.java:227-229 | a known weekday sorts before any other text |
| `ExcelReaderOld.UnknownsByCompareTo` | rechnungsersteller/src/main/java/com/thk/rechner/ExcelReaderOld.java:226 | two unknown texts compare by `String.compareTo` |
| `ExcelReaderOld.WeekdayCompareIsOrder` | rechnungsersteller/src/main/java/com/thk/rechner/ExcelReaderOld.java:222-231 | the weekday comparator is zero only on equal texts, antisymmetric and transitive |
| `Sequences.SortSorted` | rechnungsersteller/src/main/java/com/thk/rechner/InvoiceGenerator.java:80 | sorting by a total order yields a sorted list |

## Left out

- File and workbook I/O are not modelled: the spreadsheet is given as sheets of rows of cell texts.
  - `getCellString` (cell types, formula evaluation, date cells rendered as ISO text) is not modelled.
  - `findFirstNonEmptyRow`/`isRowEmpty` are replaced by an optional header row per sheet.
  - `getEffectiveCell` (merged regions), `findHeaderRow`, `mapHeader`, `get` and `getByIndex` of the legacy reader are not modelled. A legacy row is given as the trimmed texts of its customer cells.
- `generate` steps 5 to 9 are modelled only at the text level:
  - loading and writing the document;
  - the search for the `{{spieltag}}` row and `insertBlankRowLike`;
  - the walk of `replaceAll` over body, tables, headers and footers (the per-paragraph operation is modelled).
- `buildOutputPath` is not modelled: it depends on the file system and the clock.
- The date and year from the clock are not modelled.
- The `vars` map of step 8 is not built: the `" " + title` prefix, the net and VAT amounts and their `String.format`. The model stops at the null gross.
- `fillRowWithBlock` is modelled only for its description cell, not its hours and price cells. Those cells depend on `formatHoursNumber`, `formatPrice` and `clearAndSetCellText`, which do floating-point and German-locale number formatting.
- Run formatting is modelled as font size, bold and italic; the font family, always Arial, is dropped.
- POI's `getText` extras such as tabs, breaks and hyperlinks are left out: a cell's text is its runs' texts.
- `indexOfRegex` is not modelled: nothing calls it.
- `groupRowsByCustomerAllSheets` is not modelled: it only passes the default sheet list.
- The legacy `readAllSheetsGroupByCustomerAndPrint` is not modelled for its console output. This includes the name line's whitespace collapsing and the tab-joined block lines.
- The legacy reader's per-customer `TreeMap`/`LinkedHashMap` bookkeeping is not modelled. Its parts are: `updateCarry`, `CustomerAgg`, `parseTime30`, the slot sort, `compressByCourtAndTariff` and the weekday comparator.
- Numbers are exact:
  - a `Double` price is a real, and `parseDouble` reads decimal digits exactly (no binary rounding, hexadecimal, `NaN` or `Infinity` forms);
  - `int` sums such as `totalUnits30` do not wrap at 2^31.
- Text is ASCII-level:
  - `toLowerCase(Locale.ROOT)` and `equalsIgnoreCase` fold ASCII letters only;
  - `\b` takes ASCII letters, digits and `_` as word characters, as recent JDKs do (older JDKs also count other Unicode letters).
- `Sequences.SortSorted`: the sort is an insertion sort proved sorted and a permutation. It is not proved stable as Java's merge sort is. Stability matters only for slots that compare equal, which then are identical except for untrimmed hall, court or tariff text.
- `DateTimeFormatter` is modelled only for the `HH:mm` pattern under the default SMART resolver: a two-digit hour, minutes up to 59, and `24:00` read as midnight.
