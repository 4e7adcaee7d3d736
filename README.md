# DART feed parser of wave-tracker, in Dafny

`wave.py` fetches tsunami-buoy (DART) data from NOAA's NDBC service and plots it.
Its core is `fetch_dart_data`. Once the response body is in hand, it turns the
text feed into a table indexed by UTC timestamp with one water-height column:

- every line is stripped; blank lines and `#` comments are skipped;
- the rest is split on whitespace and classified, first match wins:
  - **case A**: a 14-digit `YYYYMMDDHHMMSS` stamp followed by a height;
  - **case B**: six all-digit fields `YYYY MM DD hh mm ss` followed by a height as the seventh part;
  - **anything else**: skipped silently;
- a date or height that does not convert is not skipped: it aborts the whole fetch;
- the readings are collected in line order; none at all is the "No data found for station …" error;
- otherwise the readings are sorted by timestamp, and only the first reading of each timestamp is kept.

The project models this in six modules:

- `Text` (`text.dfy`): Python's `str.strip()`, `str.split()`, `' '.join(...)`
  and the pattern `\d+`, over ASCII. Key results:
  - `SplitJoinWords`: joining words with single spaces and splitting again is the identity.
  - `SplitStrip`: stripping a line first does not change the words `split()` finds.
  - `StripIsInfix`: the stripped text is a slice of the line with only whitespace around it.
- `Records` (`records.dfy`): timestamps as six calendar fields in lexicographic order,
  readings, the pattern `\d{14}`, and the timestamp each of the two date layouts denotes.
- `LineFormat` (`lineformat.dfy`): classification of one line and its conversion to a reading.
  The two library conversions are parameters (`Parsers`):
  - `pd.to_datetime` with its format string, as a predicate on the exact text and layout it is given;
  - `float(...)`, as a partial function into an abstract height type `H`.
- `SeriesTable` (`seriestable.dfy`): `sort_index` as a sort by timestamp, and the mask
  `~index.duplicated(keep='first')`, with the properties of the resulting table.
- `DartFeed` (`dartfeed.dfy`): the collecting loop as a method over the lines, and
  `fetch_dart_data` from the lines to the table or the error. Both are specified by the
  function `Collect` and proved against it.
- `LineExamples` (`examples_lines.dfy`): a concrete case-A line and the timestamp it yields.

The code calls `pd.to_datetime` and `float(...)` outside any `try`, so a date or a
height that does not convert raises and ends the fetch. The model does the same:
`BadDate` and `BadHeight` end the parse (`CollectFailureIsFinal`, `BadLineFailsParse`).

## Model

| member | source | states |
|---|---|---|
| Text.SkipSpace | wave.py:34 | the leading whitespace `strip()` removes: every skipped character is whitespace and the first one kept is not |
| Text.SkipSpaceBack | wave.py:34 | the trailing whitespace `strip()` removes: every dropped character is whitespace and the last one kept is not |
| Text.Strip | wave.py:34-35 | the stripped line is empty exactly when the line is all whitespace, and otherwise neither starts nor ends with whitespace |
| Text.StripIsInfix | wave.py:34 | the stripped line is a slice of the raw line, with only whitespace before and after it |
| Text.StripUnchanged | wave.py:34 | a line that neither starts nor ends with whitespace is left unchanged by stripping |
| Text.WordLength | wave.py:38 | the length of the longest whitespace-free prefix: it holds no whitespace and is followed by whitespace or the end |
| Text.Split | wave.py:38 | `split()` yields only non-empty words without whitespace, and no words exactly when the line is all whitespace |
| Text.IsDigitRun | wave.py:45 | a match of `\d+` is a non-empty word without whitespace |
| Text.SplitFirstWord | wave.py:35-38 | a stripped non-empty line has a first part, and that part starts with the line's first character |
| Text.SplitSkipsSpace | wave.py:38 | whitespace in front of a line does not change its parts |
| Text.WordLengthOfWord | wave.py:38 | a word followed by whitespace or the end is taken whole as one part |
| Text.SplitOneWord | wave.py:38 | a single word splits into itself |
| Text.SplitWordThenRest | wave.py:38 | a word, a space and more text split into the word followed by the parts of the rest |
| Text.SplitJoinWords | wave.py:38 | `' '.join` followed by `split()` gives back the same list of words |
| Text.SplitDropLeadingSpace | wave.py:34-38 | whitespace at the start of a line does not change its parts |
| Text.SplitAppendSpace | wave.py:34-38 | whitespace at the end of a line does not change its parts |
| Text.SplitStrip | wave.py:34-38 | `line.strip().split()` gives the same parts as `split()` on the raw line |
| Text.StripStartsWithFirstWord | wave.py:34-38 | a line with parts strips to text whose first character is the first character of its first part |
| Text.JoinWords | wave.py:46 | the joined text starts with the first character of the first word and ends with the last character of the last word |
| Text.DigitsValue | wave.py:41 | the value of a string of n digits is below 10 to the power n |
| Text.LeadingZeroIgnored | wave.py:45-47 | a leading zero does not change the value of a digit field, so `07` and `7` give the same field |
| Records.BeforeIsStrictTotalOrder | wave.py:61 | the timestamp order is irreflexive, transitive, asymmetric and total |
| Records.IsCompactStamp | wave.py:40 | a match of `\d{14}` is a run of digits and so a single word |
| Records.FieldsTime | wave.py:45-47 | the timestamp of six digit fields has each field below 10 to the power of the width of its digit field |
| Records.CompactFields | wave.py:40-41 | the groups YYYY, MM, DD, HH, MM, SS of a 14-digit stamp are digit strings of widths 4, 2, 2, 2, 2, 2 whose concatenation is the stamp |
| Records.CompactTime | wave.py:41 | a 14-digit stamp denotes a year below 10000 and month, day, hour, minute and second below 100 |
| Records.CompactAgreesWithFields | wave.py:40-47 | six digit fields of widths 4, 2, 2, 2, 2, 2 written together form a 14-digit stamp that denotes the same timestamp as the split fields |
| LineFormat.ClassifyParts | wave.py:40-52 | case A carries the 14-digit first part and the second part; case B carries the first six all-digit parts and the seventh; a line is unrecognised exactly when neither test holds; a single part is never a record |
| LineFormat.IsCaseA | wave.py:40 | a case-A line has at least two parts and its first part is a run of digits, so never a `#` |
| LineFormat.IsCaseB | wave.py:45 | a case-B line has at least seven parts and its first six are the digit fields of a timestamp |
| LineFormat.Classify | wave.py:34-52 | a line is blank exactly when it is all whitespace, and a comment exactly when its stripped text starts with `#`; any other line is classified by the parts `split()` finds in the raw line, whatever whitespace separates or surrounds them; a record shape carries a 14-digit stamp or six digit fields |
| LineFormat.CommentHasNoRecordShape | wave.py:35-36 | a comment line would not match case A or case B either |
| LineFormat.DigitLineClassified | wave.py:34-40 | a line whose first part is a run of digits is neither blank nor a comment and is classified by its parts |
| LineFormat.CaseABeforeCaseB | wave.py:40-45 | a line matching both tests is a case-A line |
| LineFormat.ExtraPartsIgnored | wave.py:45-48 | parts after the seventh never change the classification |
| LineFormat.SplitStampTextHoldsFields | wave.py:45-47 | the text `' '.join(parts[0:6])` handed to the date conversion splits back into the six fields the timestamp is built from |
| LineFormat.ToReading | wave.py:41-42 | a record line gives a reading exactly when both its date and its height convert; the date is converted first and its failure is reported first |
| LineFormat.ParseShape | wave.py:40-54 | a classified line yields nothing exactly when it is not a record shape; a reading has the converted height token and the time of the stamp or of the six fields; an error is never "no data" |
| LineFormat.ParseLine | wave.py:34-54 | a line yields nothing exactly when it has no record shape (blank and comment lines among them); a reading it yields has the converted height token of the line and the time of its stamp or of its six fields; an error is never "no data" |
| LineFormat.ParseCombinedStampLine | wave.py:40-42 | a case-A line hands its stamp, in the compact layout, and its height token to the conversions, and its reading is at the time the stamp denotes |
| LineFormat.ParseSplitStampLine | wave.py:45-48 | a case-B line hands its six fields joined by single spaces, in the spaced layout, and its height token to the conversions, and its reading is at the time of the fields |
| LineFormat.CombinedLineShape | wave.py:34-40 | any line whose first part is a 14-digit stamp and which has a second part is a case-A line with that stamp and height, whatever whitespace separates or surrounds the parts |
| LineFormat.CombinedLineParse | wave.py:34-42 | such a line yields the reading at the stamp's time with the converted second part, or stops with the bad date or the bad height |
| LineFormat.SplitLineShape | wave.py:34-45 | any line whose first six parts are digit runs, the first not a 14-digit stamp, and which has a seventh part is a case-B line, whatever whitespace separates or surrounds the parts |
| LineFormat.SplitLineParse | wave.py:34-48 | such a line yields the reading at the six fields' time with the converted seventh part, the date conversion seeing the fields joined by single spaces, or stops with the bad date or the bad height |
| SeriesTable.Times | wave.py:59-60 | the index column of a table: one timestamp per row, in row order |
| SeriesTable.InsertPermutes | wave.py:61 | inserting a reading adds exactly that reading |
| SeriesTable.InsertKeepsLowerBound | wave.py:61 | inserting a reading no earlier than a bound keeps every reading no earlier than it |
| SeriesTable.InsertSorted | wave.py:61 | inserting into a sequence sorted by timestamp keeps it sorted |
| SeriesTable.SortByTime | wave.py:61 | `sort_index` yields the same readings, ordered by timestamp |
| SeriesTable.KeepFirst | wave.py:64 | the duplicate mask never lengthens a sequence, leaves it empty only when it was empty, and always keeps the first reading |
| SeriesTable.KeepFirstSubMultiset | wave.py:64 | the duplicate mask keeps only readings of its input, each at most as often |
| SeriesTable.KeepFirstMembers | wave.py:64 | every reading the mask keeps is a reading of its input |
| SeriesTable.KeepFirstTimes | wave.py:64 | the mask keeps every timestamp of its input |
| SeriesTable.KeepFirstDistinct | wave.py:63-64 | the mask keeps each timestamp at most once |
| SeriesTable.KeepFirstKeepsFirst | wave.py:63-64 | each kept reading is the first reading of the input with its timestamp |
| SeriesTable.KeepFirstOfSorted | wave.py:61-64 | the mask applied to a sorted sequence leaves strictly increasing timestamps |
| SeriesTable.SameReadingsSameTimes | wave.py:61 | sequences holding the same readings hold the same timestamps |
| SeriesTable.NoReadingsNoTimes | wave.py:56-64 | a sequence is empty exactly when it has no timestamps |
| SeriesTable.StrictlyIncreasingTail | wave.py:64 | dropping the first row of a strictly increasing table drops exactly its timestamp |
| SeriesTable.StrictlyIncreasingTimesUnique | wave.py:61-64 | two strictly increasing tables with the same set of timestamps have the same index |
| SeriesTable.BuildTable | wave.py:59-64 | the table has strictly increasing timestamps; its rows are readings of the input, each the first of its timestamp in sorted order; it keeps every timestamp and is no longer than the input; it is non-empty when the input is |
| SeriesTable.TableFromAnySort | wave.py:61-64 | whichever sorted arrangement of the readings the sort leaves, masking it gives strictly increasing timestamps, only input readings, and the same index as `BuildTable` |
| SeriesTable.TableTimesIgnoreInputOrder | wave.py:59-64 | the index of the table does not depend on the order in which the readings arrived |
| DartFeed.CollectFailureIsFinal | wave.py:33-54 | there is no per-line recovery: once a prefix of the lines fails, the whole parse fails with the same error |
| DartFeed.BadLineFailsParse | wave.py:41-48 | one line whose date or height does not convert makes the whole parse fail |
| DartFeed.FailureIsFirstBadLine | wave.py:33-54 | a failed parse reports the error of the first failing line, and every earlier line parsed |
| DartFeed.Collect | wave.py:32-54 | each line adds at most one reading |
| DartFeed.CollectedReadingsComeFromLines | wave.py:33-54 | every collected reading is the reading of some line |
| DartFeed.CollectEmptyIff | wave.py:33-56 | the parse succeeds without readings exactly when every line yields no reading and no error |
| DartFeed.CollectPrefix | wave.py:32-54 | a successful parse succeeds on every prefix of the lines, and the readings of a prefix are the first readings of the whole |
| DartFeed.CollectedReadingPosition | wave.py:33-54 | every line that yields a reading contributes exactly that reading, right after the readings of the lines before it |
| DartFeed.CollectKeepsLineOrder | wave.py:33-54 | the reading of an earlier line comes before the reading of a later one |
| DartFeed.NoiseYieldsNothing | wave.py:34-36 | a feed of only blank lines and comments yields no readings |
| DartFeed.ParseRecords | wave.py:32-54 | the loop over the lines returns exactly the outcome `Collect` specifies: the readings in line order, or the first line's error |
| DartFeed.FetchDartData | wave.py:32-64 | a failing line's error is passed on; "no data" for the station exactly when no line yields a reading, that is exactly when every line yields neither a reading nor an error; otherwise the table built from the readings, non-empty, with strictly increasing timestamps, holding only collected readings |
| LineExamples.CompactTimeExample | wave.py:41 | `20250729120000` is a 14-digit stamp denoting 2025-07-29 12:00:00 |
| LineExamples.CombinedLineExample | wave.py:40-42 | the line `20250729120000 1.234` yields the reading at 2025-07-29 12:00:00 with the converted height |

## Left out

- HTTP retrieval (wave.py:25-30: `requests.get` with a 10-second timeout, `raise_for_status`) is network I/O.
  The model starts from the body already split into lines.
- `resp.text.splitlines()` (wave.py:33) is not modelled. `ParseRecords` and `FetchDartData` take the sequence of lines.
- `float(...)` (wave.py:42, 48) is the parameter `toFloat`, a partial function into an abstract height type.
  Its IEEE-754 semantics and the accepted spellings of numbers are not modelled.
- `pd.to_datetime` (wave.py:41, 47) is the parameter `acceptsDate`. It judges the exact text and layout the code passes.
  Calendar validity and the UTC localisation are not modelled.
  The timestamp of an accepted text is computed from its digit groups. For a 14-digit stamp these are the widths 4, 2, 2, 2, 2, 2.
- Whitespace and digits are ASCII only. Python's `str.strip`, `str.split` and `\d` also accept other Unicode whitespace and digits.
- `SeriesTable.SortByTime`: it is a stable insertion sort, but pandas' default sort is not guaranteed stable.
  So which of several readings with the same timestamp survives is promised only in terms of the sorted order.
  `SeriesTable.TableFromAnySort` states what holds for every sorted arrangement.
- The DataFrame itself (column names, index name) is represented by a sequence of readings in row order.
- `main` (wave.py:69-112) is not modelled: the station list, the date range, the `pd.concat` outer join, console output and plotting.
