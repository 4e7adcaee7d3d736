/**
 * The two record layouts on concrete lines of a feed.
 */
module LineExamples {
  import opened Wrappers
  import opened Text
  import opened Records
  import opened LineFormat

  lemma ExampleDigitValues()
    ensures DigitsValue("2025") == 2025 && DigitsValue("07") == 7 && DigitsValue("29") == 29
    ensures DigitsValue("12") == 12 && DigitsValue("00") == 0
  {
    assert "2025"[..3] == "202" && "202"[..2] == "20" && "20"[..1] == "2" && "2"[..0] == "";
    assert "07"[..1] == "0" && "0"[..0] == "";
    assert "29"[..1] == "2";
    assert "12"[..1] == "1" && "1"[..0] == "";
    assert "00"[..1] == "0";
  }

  lemma CompactTimeExample()
    ensures IsCompactStamp("20250729120000")
    ensures CompactTime("20250729120000") == Timestamp(2025, 7, 29, 12, 0, 0)
  {
    var s := "20250729120000";
    assert s[..4] == "2025";
    assert s[4..6] == "07";
    assert s[6..8] == "29";
    assert s[8..10] == "12";
    assert s[10..12] == "00";
    assert s[12..] == "00";
    ExampleDigitValues();
  }

  /** `20250729120000 1.234` is a combined stamp and yields the reading at
      2025-07-29 12:00:00 with the height `1.234` converts to. */
  lemma CombinedLineExample<H>(line: string, p: Parsers<H>, h: H)
    requires line == "20250729120000 1.234"
    requires p.acceptsDate("20250729120000", Compact) && p.toFloat("1.234") == Some(h)
    ensures ParseLine(line, p) == Success(Some(Reading(Timestamp(2025, 7, 29, 12, 0, 0), h)))
  {
    var parts := ["20250729120000", "1.234"];
    assert JoinWords(parts) == line;
    assert IsWord("1.234") by {
      var w := "1.234";
      assert w[0] == '1' && w[1] == '.' && w[2] == '2' && w[3] == '3' && w[4] == '4';
    }
    assert IsCompactStamp(parts[0]) && IsWord(parts[0]);
    assert forall k :: 0 <= k < |parts| ==> IsWord(parts[k]);
    CompactTimeExample();
    SplitJoinWords(parts);
    CombinedLineParse(line, p);
  }

}
