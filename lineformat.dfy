/**
 * Classification of one line of a DART feed and its conversion to a reading
 * (the body of the loop in `fetch_dart_data`, wave.py).
 */
module LineFormat {
  import opened Wrappers
  import opened Text
  import opened Records

  /** What a line of the feed is, first match wins. */
  datatype LineShape =
    | Blank
    | Comment
      /** Case A: a `YYYYMMDDHHMMSS` stamp followed by a height. */
    | CombinedStamp(stamp: string, height: string)
      /** Case B: six digit fields `YYYY MM DD hh mm ss` followed by a height. */
    | SplitStamp(fields: seq<string>, height: string)
    | Unrecognized

  predicate IsRecordShape(shape: LineShape) {
    shape.CombinedStamp? || shape.SplitStamp?
  }

  /** The test of case A; its first part is a run of digits, so never a
      comment marker. */
  predicate IsCaseA(parts: seq<string>)
    requires |parts| >= 1
    ensures IsCaseA(parts) ==> |parts| >= 2 && IsDigitRun(parts[0]) && parts[0][0] != '#'
  {
    IsCompactStamp(parts[0]) && |parts| >= 2
  }

  /** The test of case B; its first six parts are the digit fields a
      timestamp is built from. */
  predicate IsCaseB(parts: seq<string>)
    ensures IsCaseB(parts) ==> |parts| >= 7 && AreDigitFields(parts[..6])
  {
    |parts| >= 7 && forall k :: 0 <= k < 6 ==> IsDigitRun(parts[k])
  }

  /** Classifies the whitespace-separated parts of a non-blank line. A record
      shape carries a stamp or six fields made of digits only; a single part is
      never a record, whatever it is. */
  function ClassifyParts(parts: seq<string>): (shape: LineShape)
    requires |parts| >= 1
    ensures shape.CombinedStamp? ==>
              |parts| >= 2 && shape.stamp == parts[0] && IsCompactStamp(shape.stamp) && shape.height == parts[1]
    ensures shape.SplitStamp? ==> |parts| >= 7 && shape.fields == parts[..6] && shape.height == parts[6]
    ensures shape == Unrecognized <==> !IsCaseA(parts) && !IsCaseB(parts)
    ensures shape.SplitStamp? ==> AreDigitFields(shape.fields)
    ensures shape.SplitStamp? ==> forall k :: 0 <= k < 6 ==> IsDigitRun(shape.fields[k])
    ensures |parts| == 1 ==> shape == Unrecognized
    ensures !shape.Blank? && !shape.Comment?
  {
    if IsCaseA(parts) then
      CombinedStamp(parts[0], parts[1])
    else if IsCaseB(parts) then
      SplitStamp(parts[..6], parts[6])
    else
      Unrecognized
  }

  /** Classifies one raw line of the feed: the line is stripped; an empty line
      is blank, one starting with `#` a comment, anything else is classified by
      its parts. Only an all-whitespace line is blank, and any other line that is
      not a comment is classified by the words `str.split()` finds in the raw
      line, whatever whitespace separates or surrounds them. */
  function Classify(rawLine: string): (shape: LineShape)
    ensures shape == Blank <==> AllSpace(rawLine)
    ensures shape == Comment <==> Strip(rawLine) != [] && Strip(rawLine)[0] == '#'
    ensures Strip(rawLine) != [] && Strip(rawLine)[0] != '#' ==>
              |Split(rawLine)| >= 1 && shape == ClassifyParts(Split(rawLine))
    ensures shape.CombinedStamp? ==> IsCompactStamp(shape.stamp)
    ensures shape.SplitStamp? ==> AreDigitFields(shape.fields)
  {
    var line := Strip(rawLine);
    SplitStrip(rawLine);
    if line == [] then Blank
    else if line[0] == '#' then Comment
    else ClassifyParts(Split(line))
  }

  /** A comment line would not have matched a record shape either: its first
      part starts with `#`, which is not a digit. */
  lemma CommentHasNoRecordShape(rawLine: string)
    requires Strip(rawLine) != [] && Strip(rawLine)[0] == '#'
    ensures |Split(Strip(rawLine))| >= 1
    ensures ClassifyParts(Split(Strip(rawLine))) == Unrecognized
  {
    var line := Strip(rawLine);
    SplitFirstWord(line);
    var first := Split(line)[0];
    assert !IsDigit(first[0]);
    assert !AllDigits(first);
  }

  /** A line whose first word is a run of digits is neither blank nor a
      comment, so it is classified by its words. */
  lemma DigitLineClassified(rawLine: string)
    requires |Split(rawLine)| >= 1 && IsDigitRun(Split(rawLine)[0])
    ensures Classify(rawLine) == ClassifyParts(Split(rawLine))
  {
    StripStartsWithFirstWord(rawLine);
    assert IsDigit(Split(rawLine)[0][0]);
  }

  /** Case A is tried first: a line that matches both shapes is a combined stamp. */
  lemma CaseABeforeCaseB(parts: seq<string>)
    requires |parts| >= 1 && IsCaseA(parts) && IsCaseB(parts)
    ensures ClassifyParts(parts) == CombinedStamp(parts[0], parts[1])
  {
  }

  /** Parts after the seventh never change the classification of a line. */
  lemma ExtraPartsIgnored(parts: seq<string>, extra: seq<string>)
    requires |parts| >= 7
    ensures ClassifyParts(parts + extra) == ClassifyParts(parts)
  {
    assert (parts + extra)[..6] == parts[..6];
    assert forall k :: 0 <= k < 7 ==> (parts + extra)[k] == parts[k];
  }

  /** The text `' '.join(parts[0:6])` handed to the date conversion in case B
      splits back into exactly the six fields the timestamp is built from. */
  lemma SplitStampTextHoldsFields(parts: seq<string>)
    requires |parts| >= 1 && ClassifyParts(parts).SplitStamp?
    ensures Split(JoinWords(ClassifyParts(parts).fields)) == parts[..6]
  {
    var fields := parts[..6];
    forall k | 0 <= k < 6 ensures IsWord(fields[k]) {
      assert IsDigitRun(fields[k]);
    }
    SplitJoinWords(fields);
  }

  /** The conversions `fetch_dart_data` borrows from its libraries, which this
      model does not re-implement: whether `pd.to_datetime` accepts a date text
      in a given layout, and `float(...)` as a partial parse of a height token. */
  datatype Parsers<H> = Parsers(acceptsDate: (string, DateFormat) -> bool, toFloat: string -> Option<H>)

  datatype FetchError =
    | NoData(station: string)
    | BadDate(text: string, format: DateFormat)
    | BadHeight(token: string)

  /** The date conversion and the height conversion of one record line; the
      date is converted first, and either failure is an error, not a skip. */
  function ToReading<H>(text: string, format: DateFormat, time: Timestamp, height: string, p: Parsers<H>)
    : (r: Result<Reading<H>, FetchError>)
    ensures r.Success? <==> p.acceptsDate(text, format) && p.toFloat(height).Some?
    ensures r.Success? ==> r.value == Reading(time, p.toFloat(height).value)
    ensures r.Failure? && !p.acceptsDate(text, format) ==> r.error == BadDate(text, format)
    ensures r.Failure? && p.acceptsDate(text, format) ==> r.error == BadHeight(height)
  {
    if !p.acceptsDate(text, format) then Failure(BadDate(text, format))
    else match p.toFloat(height)
      case None => Failure(BadHeight(height))
      case Some(h) => Success(Reading(time, h))
  }

  function Found<H>(r: Result<Reading<H>, FetchError>): Result<Option<Reading<H>>, FetchError> {
    match r
    case Success(reading) => Success(Some(reading))
    case Failure(e) => Failure(e)
  }

  /** The conversion of a classified line: a record shape yields its reading,
      at the time of its stamp or fields and with its height token converted, or
      stops the parse; any other shape yields no reading. */
  function ParseShape<H>(shape: LineShape, p: Parsers<H>): (r: Result<Option<Reading<H>>, FetchError>)
    requires shape.CombinedStamp? ==> IsCompactStamp(shape.stamp)
    requires shape.SplitStamp? ==> AreDigitFields(shape.fields)
    ensures r == Success(None) <==> !IsRecordShape(shape)
    ensures r.Success? && r.value.Some? ==> p.toFloat(shape.height) == Some(r.value.value.height)
    ensures r.Success? && r.value.Some? && shape.CombinedStamp? ==> r.value.value.time == CompactTime(shape.stamp)
    ensures r.Success? && r.value.Some? && shape.SplitStamp? ==> r.value.value.time == FieldsTime(shape.fields)
    ensures r.Failure? ==> !r.error.NoData?
  {
    match shape
    case CombinedStamp(stamp, height) =>
      Found(ToReading(stamp, Compact, CompactTime(stamp), height, p))
    case SplitStamp(fields, height) =>
      Found(ToReading(JoinWords(fields), Spaced, FieldsTime(fields), height, p))
    case _ => Success(None)
  }

  /** One pass of the loop body: a blank, comment or unrecognised line yields no
      reading; a line of a record shape yields its reading, at the time of its
      stamp or fields and with its height token converted, or stops the parse. */
  function ParseLine<H>(rawLine: string, p: Parsers<H>): (r: Result<Option<Reading<H>>, FetchError>)
    ensures r == Success(None) <==> !IsRecordShape(Classify(rawLine))
    ensures AllSpace(rawLine) ==> r == Success(None)
    ensures Strip(rawLine) != [] && Strip(rawLine)[0] == '#' ==> r == Success(None)
    ensures r.Success? && r.value.Some? ==> p.toFloat(Classify(rawLine).height) == Some(r.value.value.height)
    ensures r.Success? && r.value.Some? && Classify(rawLine).CombinedStamp? ==>
              r.value.value.time == CompactTime(Classify(rawLine).stamp)
    ensures r.Success? && r.value.Some? && Classify(rawLine).SplitStamp? ==>
              r.value.value.time == FieldsTime(Classify(rawLine).fields)
    ensures r.Failure? ==> !r.error.NoData?
  {
    ParseShape(Classify(rawLine), p)
  }

  /** Case A on any raw line: when the first word is a 14-digit stamp and a
      height follows, the line is a combined-stamp line, whatever whitespace
      separates or surrounds the words and whatever words follow. */
  lemma CombinedLineShape(rawLine: string)
    requires |Split(rawLine)| >= 2 && IsCompactStamp(Split(rawLine)[0])
    ensures Classify(rawLine) == CombinedStamp(Split(rawLine)[0], Split(rawLine)[1])
  {
    DigitLineClassified(rawLine);
  }

  /** A combined-stamp line is handed to the conversions as its stamp, the time
      of the stamp and its height. */
  lemma ParseCombinedStampLine<H>(rawLine: string, p: Parsers<H>, stamp: string, height: string)
    requires Classify(rawLine) == CombinedStamp(stamp, height)
    ensures IsCompactStamp(stamp)
    ensures ParseLine(rawLine, p) == Found(ToReading(stamp, Compact, CompactTime(stamp), height, p))
  {
  }

  /** Case A: the reading is at the stamp's time with the converted height;
      the stamp itself is handed to the date conversion, and a date or height
      that does not convert stops the parse with that error. */
  lemma CombinedLineParse<H>(rawLine: string, p: Parsers<H>)
    requires |Split(rawLine)| >= 2 && IsCompactStamp(Split(rawLine)[0])
    ensures var parts := Split(rawLine);
            p.acceptsDate(parts[0], Compact) && p.toFloat(parts[1]).Some? ==>
              ParseLine(rawLine, p) == Success(Some(Reading(CompactTime(parts[0]), p.toFloat(parts[1]).value)))
    ensures var parts := Split(rawLine);
            !p.acceptsDate(parts[0], Compact) ==> ParseLine(rawLine, p) == Failure(BadDate(parts[0], Compact))
    ensures var parts := Split(rawLine);
            p.acceptsDate(parts[0], Compact) && p.toFloat(parts[1]).None? ==>
              ParseLine(rawLine, p) == Failure(BadHeight(parts[1]))
  {
    CombinedLineShape(rawLine);
    ParseCombinedStampLine(rawLine, p, Split(rawLine)[0], Split(rawLine)[1]);
  }

  /** A split-fields line is handed to the conversions as its fields joined by
      single spaces, the time of the fields and its height. */
  lemma ParseSplitStampLine<H>(rawLine: string, p: Parsers<H>, fields: seq<string>, height: string)
    requires Classify(rawLine) == SplitStamp(fields, height)
    ensures AreDigitFields(fields)
    ensures ParseLine(rawLine, p) == Found(ToReading(JoinWords(fields), Spaced, FieldsTime(fields), height, p))
  {
  }

  /** Case B on any raw line: when the first six words are runs of digits, the
      first of them not a 14-digit stamp, and a height follows, the line is a
      split-fields line, whatever whitespace separates or surrounds the words
      and whatever words follow. */
  lemma SplitLineShape(rawLine: string)
    requires |Split(rawLine)| >= 7 && forall k :: 0 <= k < 6 ==> IsDigitRun(Split(rawLine)[k])
    requires !IsCompactStamp(Split(rawLine)[0])
    ensures Classify(rawLine) == SplitStamp(Split(rawLine)[..6], Split(rawLine)[6])
  {
    DigitLineClassified(rawLine);
  }

  /** Case B: the reading is at the time of the six fields with the converted
      height; the date conversion sees the fields joined by single spaces, and
      a date or height that does not convert stops the parse with that error. */
  lemma SplitLineParse<H>(rawLine: string, p: Parsers<H>)
    requires |Split(rawLine)| >= 7 && forall k :: 0 <= k < 6 ==> IsDigitRun(Split(rawLine)[k])
    requires !IsCompactStamp(Split(rawLine)[0])
    ensures AreDigitFields(Split(rawLine)[..6])
    ensures var fields, height := Split(rawLine)[..6], Split(rawLine)[6];
            p.acceptsDate(JoinWords(fields), Spaced) && p.toFloat(height).Some? ==>
              ParseLine(rawLine, p) == Success(Some(Reading(FieldsTime(fields), p.toFloat(height).value)))
    ensures var fields := Split(rawLine)[..6];
            !p.acceptsDate(JoinWords(fields), Spaced) ==>
              ParseLine(rawLine, p) == Failure(BadDate(JoinWords(fields), Spaced))
    ensures var fields, height := Split(rawLine)[..6], Split(rawLine)[6];
            p.acceptsDate(JoinWords(fields), Spaced) && p.toFloat(height).None? ==>
              ParseLine(rawLine, p) == Failure(BadHeight(height))
  {
    SplitLineShape(rawLine);
    ParseSplitStampLine(rawLine, p, Split(rawLine)[..6], Split(rawLine)[6]);
  }
}
