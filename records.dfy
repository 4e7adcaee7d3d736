/**
 * Timestamps and readings of a DART station series. A timestamp is the six
 * calendar fields of a UTC instant, ordered lexicographically; a reading pairs
 * a timestamp with a water-column height of an abstract type `H`.
 */
module Records {
  import opened Text

  datatype Timestamp = Timestamp(year: nat, month: nat, day: nat, hour: nat, minute: nat, second: nat)

  /** Lexicographic order on (year, month, day, hour, minute, second); for
      accepted calendar fields this is chronological order. */
  predicate Before(a: Timestamp, b: Timestamp) {
    || a.year < b.year
    || (a.year == b.year && a.month < b.month)
    || (a.year == b.year && a.month == b.month && a.day < b.day)
    || (a.year == b.year && a.month == b.month && a.day == b.day && a.hour < b.hour)
    || (a.year == b.year && a.month == b.month && a.day == b.day && a.hour == b.hour
        && a.minute < b.minute)
    || (a.year == b.year && a.month == b.month && a.day == b.day && a.hour == b.hour
        && a.minute == b.minute && a.second < b.second)
  }

  /** `Before` is a strict total order: irreflexive, transitive and connected. */
  lemma BeforeIsStrictTotalOrder(a: Timestamp, b: Timestamp, c: Timestamp)
    ensures !Before(a, a)
    ensures Before(a, b) && Before(b, c) ==> Before(a, c)
    ensures a != b ==> Before(a, b) || Before(b, a)
    ensures Before(a, b) ==> !Before(b, a)
  {
  }

  datatype Reading<H> = Reading(time: Timestamp, height: H)

  /** The two layouts the parser hands to the date conversion:
      `%Y%m%d%H%M%S` for a combined stamp and `%Y %m %d %H %M %S` for split fields. */
  datatype DateFormat = Compact | Spaced

  /** The regular expression `\d{14}`: a run of digits, and so one word of a
      line. */
  predicate IsCompactStamp(s: string)
    ensures IsCompactStamp(s) ==> IsDigitRun(s) && IsWord(s)
  {
    |s| == 14 && AllDigits(s)
  }

  predicate AreDigitFields(fields: seq<string>) {
    |fields| == 6 && forall k :: 0 <= k < 6 ==> AllDigits(fields[k])
  }

  /** The timestamp whose fields are the values of six digit strings, in the
      order year, month, day, hour, minute, second; each field is below 10 to
      the power of its width. */
  function FieldsTime(fields: seq<string>): (t: Timestamp)
    requires AreDigitFields(fields)
    ensures t.year < Pow10(|fields[0]|) && t.month < Pow10(|fields[1]|) && t.day < Pow10(|fields[2]|)
    ensures t.hour < Pow10(|fields[3]|) && t.minute < Pow10(|fields[4]|) && t.second < Pow10(|fields[5]|)
  {
    Timestamp(DigitsValue(fields[0]), DigitsValue(fields[1]), DigitsValue(fields[2]),
              DigitsValue(fields[3]), DigitsValue(fields[4]), DigitsValue(fields[5]))
  }

  /** The digit groups YYYY, MM, DD, HH, MM, SS of a combined stamp: they cut the
      stamp into consecutive pieces of widths 4, 2, 2, 2, 2, 2. */
  function CompactFields(stamp: string): (fields: seq<string>)
    requires IsCompactStamp(stamp)
    ensures AreDigitFields(fields)
    ensures fields[0] + fields[1] + fields[2] + fields[3] + fields[4] + fields[5] == stamp
    ensures |fields[0]| == 4 && forall k :: 1 <= k < 6 ==> |fields[k]| == 2
  {
    var fields := [stamp[..4], stamp[4..6], stamp[6..8], stamp[8..10], stamp[10..12], stamp[12..]];
    assert forall k :: 0 <= k < 6 ==> AllDigits(fields[k]);
    assert stamp == stamp[..4] + stamp[4..6] + stamp[6..8] + stamp[8..10] + stamp[10..12] + stamp[12..];
    fields
  }

  /** The timestamp a combined stamp denotes: a four-digit year and two-digit
      month, day, hour, minute and second. */
  function CompactTime(stamp: string): (t: Timestamp)
    requires IsCompactStamp(stamp)
    ensures t.year < 10000
    ensures t.month < 100 && t.day < 100 && t.hour < 100 && t.minute < 100 && t.second < 100
  {
    var fields := CompactFields(stamp);
    assert Pow10(4) == 10000 && Pow10(2) == 100;
    FieldsTime(fields)
  }

  /** The two layouts agree: six digit fields of widths 4, 2, 2, 2, 2, 2 written
      together form a combined stamp denoting the same timestamp. */
  lemma CompactAgreesWithFields(fields: seq<string>)
    requires AreDigitFields(fields)
    requires |fields[0]| == 4 && forall k :: 1 <= k < 6 ==> |fields[k]| == 2
    ensures IsCompactStamp(fields[0] + fields[1] + fields[2] + fields[3] + fields[4] + fields[5])
    ensures CompactTime(fields[0] + fields[1] + fields[2] + fields[3] + fields[4] + fields[5]) == FieldsTime(fields)
  {
    var stamp := fields[0] + fields[1] + fields[2] + fields[3] + fields[4] + fields[5];
    assert stamp[..4] == fields[0];
    assert stamp[4..6] == fields[1];
    assert stamp[6..8] == fields[2];
    assert stamp[8..10] == fields[3];
    assert stamp[10..12] == fields[4];
    assert stamp[12..] == fields[5];
    assert IsCompactStamp(stamp) by {
      forall i | 0 <= i < 14 ensures IsDigit(stamp[i]) {
        if i < 4 { assert stamp[i] == fields[0][i]; }
        else if i < 6 { assert stamp[i] == fields[1][i - 4]; }
        else if i < 8 { assert stamp[i] == fields[2][i - 6]; }
        else if i < 10 { assert stamp[i] == fields[3][i - 8]; }
        else if i < 12 { assert stamp[i] == fields[4][i - 10]; }
        else { assert stamp[i] == fields[5][i - 12]; }
      }
    }
  }
}
