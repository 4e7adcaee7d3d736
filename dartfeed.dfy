/**
 * `fetch_dart_data` from the point where the response body is in hand: the
 * loop that collects readings line by line, the check that some were found,
 * and the table built from them.
 */
module DartFeed {
  import opened Wrappers
  import opened Text
  import opened Records
  import opened LineFormat
  import opened SeriesTable

  /** How one line is turned into at most one reading, or an error. */
  type LineParser<H> = string -> Result<Option<Reading<H>>, FetchError>

  /** The line parser of `fetch_dart_data`, with the given conversions. */
  function DartLine<H>(p: Parsers<H>): LineParser<H> {
    line => ParseLine(line, p)
  }

  /** The outcome of the collecting loop over `lines`: the readings in line
      order, or the error of the first line whose conversion fails. Each line
      adds at most one reading. */
  function Collect<H>(lines: seq<string>, parse: LineParser<H>): (r: Result<seq<Reading<H>>, FetchError>)
    ensures r.Success? ==> |r.value| <= |lines|
    decreases |lines|
  {
    if lines == [] then Success([])
    else
      match Collect(lines[..|lines| - 1], parse)
      case Failure(e) => Failure(e)
      case Success(records) =>
        match parse(lines[|lines| - 1])
        case Failure(e) => Failure(e)
        case Success(None) => Success(records)
        case Success(Some(reading)) => Success(records + [reading])
  }

  /** There is no recovery: once a prefix of the lines has failed, the whole
      parse fails with the same error. */
  lemma {:induction false} CollectFailureIsFinal<H>(lines: seq<string>, i: nat, parse: LineParser<H>)
    requires i <= |lines| && Collect(lines[..i], parse).Failure?
    ensures Collect(lines, parse) == Collect(lines[..i], parse)
    decreases |lines| - i
  {
    if i < |lines| {
      var next := lines[..i + 1];
      assert next[..i] == lines[..i];
      CollectFailureIsFinal(lines, i + 1, parse);
    } else {
      assert lines[..i] == lines;
    }
  }

  /** A failing line makes the whole parse fail. */
  lemma {:induction false} BadLineFailsParse<H>(lines: seq<string>, i: nat, parse: LineParser<H>)
    requires i < |lines| && parse(lines[i]).Failure?
    ensures Collect(lines, parse).Failure?
  {
    var prefix := lines[..i + 1];
    assert prefix[..i] == lines[..i];
    assert prefix[i] == lines[i];
    assert Collect(prefix, parse).Failure?;
    CollectFailureIsFinal(lines, i + 1, parse);
  }

  /** A failed parse reports the error of the first failing line. */
  lemma {:induction false} FailureIsFirstBadLine<H>(lines: seq<string>, parse: LineParser<H>)
    requires Collect(lines, parse).Failure?
    ensures exists i :: 0 <= i < |lines| && parse(lines[i]) == Failure(Collect(lines, parse).error)
                     && forall j :: 0 <= j < i ==> parse(lines[j]).Success?
    decreases |lines|
  {
    var init := lines[..|lines| - 1];
    var last := |lines| - 1;
    if Collect(init, parse).Failure? {
      FailureIsFirstBadLine(init, parse);
      var i :| 0 <= i < |init| && parse(init[i]) == Failure(Collect(init, parse).error)
               && forall j :: 0 <= j < i ==> parse(init[j]).Success?;
      assert init[i] == lines[i];
      assert forall j :: 0 <= j < i ==> init[j] == lines[j];
    } else {
      forall j | 0 <= j < last ensures parse(lines[j]).Success? {
        assert init[j] == lines[j];
        if parse(init[j]).Failure? {
          BadLineFailsParse(init, j, parse);
        }
      }
      assert parse(lines[last]) == Failure(Collect(lines, parse).error);
    }
  }

  /** Every collected reading comes from one of the lines. */
  lemma {:induction false} CollectedReadingsComeFromLines<H>(lines: seq<string>, parse: LineParser<H>)
    requires Collect(lines, parse).Success?
    ensures forall k :: 0 <= k < |Collect(lines, parse).value| ==>
              exists i :: 0 <= i < |lines| && parse(lines[i]) == Success(Some(Collect(lines, parse).value[k]))
    decreases |lines|
  {
    if lines != [] {
      var init := lines[..|lines| - 1];
      var records := Collect(init, parse).value;
      var out := Collect(lines, parse).value;
      CollectedReadingsComeFromLines(init, parse);
      forall k | 0 <= k < |out|
        ensures exists i :: 0 <= i < |lines| && parse(lines[i]) == Success(Some(out[k]))
      {
        if k < |records| {
          assert out[k] == records[k];
          var i :| 0 <= i < |init| && parse(init[i]) == Success(Some(records[k]));
          assert init[i] == lines[i];
        } else {
          assert parse(lines[|lines| - 1]) == Success(Some(out[k]));
        }
      }
    }
  }

  /** The parse succeeds without readings exactly when no line yields a
      reading or an error. */
  lemma {:induction false} CollectEmptyIff<H>(lines: seq<string>, parse: LineParser<H>)
    ensures Collect(lines, parse) == Success([]) <==> forall i :: 0 <= i < |lines| ==> parse(lines[i]) == Success(None)
    decreases |lines|
  {
    if lines != [] {
      var init := lines[..|lines| - 1];
      CollectEmptyIff(init, parse);
      assert forall i :: 0 <= i < |init| ==> init[i] == lines[i];
    }
  }

  /** A successful parse succeeds on every prefix of the lines, and the readings
      of a prefix are the first readings of the whole. */
  lemma {:induction false} CollectPrefix<H>(lines: seq<string>, i: nat, parse: LineParser<H>)
    requires i <= |lines| && Collect(lines, parse).Success?
    ensures Collect(lines[..i], parse).Success?
    ensures Collect(lines[..i], parse).value <= Collect(lines, parse).value
    decreases |lines|
  {
    if i == |lines| {
      assert lines[..i] == lines;
    } else {
      var init := lines[..|lines| - 1];
      CollectPrefix(init, i, parse);
      assert init[..i] == lines[..i];
    }
  }

  /** The parse is complete: a line that yields a reading contributes exactly
      that reading, right after the readings of the lines before it. */
  lemma CollectedReadingPosition<H>(lines: seq<string>, parse: LineParser<H>, i: nat)
    requires i < |lines| && Collect(lines, parse).Success?
    requires parse(lines[i]).Success? && parse(lines[i]).value.Some?
    ensures Collect(lines[..i], parse).Success?
    ensures Collect(lines[..i + 1], parse) == Success(Collect(lines[..i], parse).value + [parse(lines[i]).value.value])
    ensures |Collect(lines[..i], parse).value| < |Collect(lines, parse).value|
    ensures Collect(lines, parse).value[|Collect(lines[..i], parse).value|] == parse(lines[i]).value.value
  {
    CollectPrefix(lines, i + 1, parse);
    var upto := lines[..i + 1];
    assert upto[..i] == lines[..i] && upto[i] == lines[i];
  }

  /** Readings keep the order of their lines: the reading of an earlier line
      comes before the reading of a later one. */
  lemma CollectKeepsLineOrder<H>(lines: seq<string>, parse: LineParser<H>, i: nat, j: nat)
    requires i < j < |lines| && Collect(lines, parse).Success?
    requires parse(lines[i]).Success? && parse(lines[i]).value.Some?
    ensures Collect(lines[..i], parse).Success? && Collect(lines[..j], parse).Success?
    ensures |Collect(lines[..i], parse).value| < |Collect(lines[..j], parse).value|
  {
    CollectPrefix(lines, j, parse);
    var upto := lines[..j];
    CollectedReadingPosition(upto, parse, i);
    assert upto[..i] == lines[..i];
  }

  /** A feed made only of blank lines and `#` comments yields no readings. */
  lemma NoiseYieldsNothing<H>(lines: seq<string>, p: Parsers<H>)
    requires forall i :: 0 <= i < |lines| ==> AllSpace(lines[i]) || (Strip(lines[i]) != [] && Strip(lines[i])[0] == '#')
    ensures Collect(lines, DartLine(p)) == Success([])
  {
    CollectEmptyIff(lines, DartLine(p));
  }

  /** The collecting loop: each line is parsed in turn; a line without a record
      is skipped, a failing line ends the parse with its error, and a reading is
      appended to `records`. */
  method ParseRecords<H>(lines: seq<string>, p: Parsers<H>) returns (res: Result<seq<Reading<H>>, FetchError>)
    ensures res == Collect(lines, DartLine(p))
  {
    var records: seq<Reading<H>> := [];
    for i := 0 to |lines|
      invariant Collect(lines[..i], DartLine(p)) == Success(records)
    {
      assert lines[..i + 1][..i] == lines[..i];
      var parsed := ParseLine(lines[i], p);
      match parsed
      case Failure(e) =>
        CollectFailureIsFinal(lines, i + 1, DartLine(p));
        return Failure(e);
      case Success(None) =>
      case Success(Some(reading)) =>
        records := records + [reading];
    }
    assert lines[..|lines|] == lines;
    return Success(records);
  }

  /** `fetch_dart_data` once the body of the response has been split into
      lines: collect the readings, fail with "no data" for the station if there
      are none, and otherwise return the sorted table without repeated timestamps. */
  method FetchDartData<H(==)>(station: string, lines: seq<string>, p: Parsers<H>)
    returns (res: Result<seq<Reading<H>>, FetchError>)
    ensures Collect(lines, DartLine(p)).Failure? ==> res == Failure(Collect(lines, DartLine(p)).error)
    ensures res == Failure(NoData(station)) <==> Collect(lines, DartLine(p)) == Success([])
    ensures res == Failure(NoData(station)) <==> forall i :: 0 <= i < |lines| ==> ParseLine(lines[i], p) == Success(None)
    ensures Collect(lines, DartLine(p)).Success? && Collect(lines, DartLine(p)).value != [] ==>
              res == Success(BuildTable(Collect(lines, DartLine(p)).value))
    ensures res.Success? ==> res.value != [] && StrictlyIncreasing(res.value)
    ensures res.Success? ==> forall r :: r in res.value ==> r in Collect(lines, DartLine(p)).value
  {
    CollectEmptyIff(lines, DartLine(p));
    var parsed := ParseRecords(lines, p);
    match parsed
    case Failure(e) =>
      FailureIsFirstBadLine(lines, DartLine(p));
      return Failure(e);
    case Success(records) =>
      if records == [] {
        return Failure(NoData(station));
      }
      var table := BuildTable(records);
      forall r | r in table ensures r in records {
        assert r in multiset(table);
      }
      return Success(table);
  }
}
