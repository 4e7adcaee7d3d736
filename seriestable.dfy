/**
 * The station table built from the collected readings: sorted by timestamp
 * (`sort_index`), then rid of repeated timestamps keeping the first of each
 * (`df[~df.index.duplicated(keep='first')]`).
 */
module SeriesTable {
  import opened Records

  /** The set of timestamps that occur in `s`. */
  function TimesOf<H(==)>(s: seq<Reading<H>>): set<Timestamp> {
    set r | r in s :: r.time
  }

  /** The timestamps of `s`, in order. */
  function Times<H>(s: seq<Reading<H>>): (ts: seq<Timestamp>)
    ensures |ts| == |s| && forall i :: 0 <= i < |s| ==> ts[i] == s[i].time
  {
    if s == [] then [] else [s[0].time] + Times(s[1..])
  }

  /** Non-decreasing timestamps: the order `sort_index` leaves. */
  predicate SortedByTime<H>(s: seq<Reading<H>>) {
    forall i, j :: 0 <= i < j < |s| ==> !Before(s[j].time, s[i].time)
  }

  /** Strictly increasing timestamps: a table with a unique, ascending index. */
  predicate StrictlyIncreasing<H>(s: seq<Reading<H>>) {
    forall i, j :: 0 <= i < j < |s| ==> Before(s[i].time, s[j].time)
  }

  /** `r` is the first reading of `s` with its timestamp. */
  predicate FirstWithTime<H(==)>(s: seq<Reading<H>>, r: Reading<H>) {
    exists i :: 0 <= i < |s| && s[i] == r && forall j :: 0 <= j < i ==> s[j].time != r.time
  }

  /** No reading of `s` is earlier than `t`. */
  predicate NoneBefore<H>(t: Timestamp, s: seq<Reading<H>>) {
    forall j :: 0 <= j < |s| ==> !Before(s[j].time, t)
  }

  /** Inserts `r` ahead of the first reading that is not earlier than it. */
  function Insert<H>(r: Reading<H>, s: seq<Reading<H>>): seq<Reading<H>> {
    if s == [] || !Before(s[0].time, r.time) then [r] + s
    else [s[0]] + Insert(r, s[1..])
  }

  lemma {:induction false} InsertPermutes<H>(r: Reading<H>, s: seq<Reading<H>>)
    ensures multiset(Insert(r, s)) == multiset(s) + multiset{r}
  {
    if s != [] && Before(s[0].time, r.time) {
      InsertPermutes(r, s[1..]);
      assert s == [s[0]] + s[1..];
    }
  }

  lemma {:induction false} InsertKeepsLowerBound<H>(t: Timestamp, r: Reading<H>, s: seq<Reading<H>>)
    requires NoneBefore(t, s) && !Before(r.time, t)
    ensures NoneBefore(t, Insert(r, s))
  {
    if s != [] && Before(s[0].time, r.time) {
      InsertKeepsLowerBound(t, r, s[1..]);
    }
  }

  /** Inserting into a sorted sequence keeps it sorted. */
  lemma {:induction false} InsertSorted<H>(r: Reading<H>, s: seq<Reading<H>>)
    requires SortedByTime(s)
    ensures SortedByTime(Insert(r, s))
  {
    if s == [] || !Before(s[0].time, r.time) {
      forall j | 0 <= j < |s| ensures !Before(s[j].time, r.time) {
        BeforeIsStrictTotalOrder(s[j].time, s[0].time, r.time);
        BeforeIsStrictTotalOrder(s[0].time, s[j].time, r.time);
      }
    } else {
      InsertSorted(r, s[1..]);
      BeforeIsStrictTotalOrder(s[0].time, r.time, r.time);
      InsertKeepsLowerBound(s[0].time, r, s[1..]);
    }
  }

  /** Sorts readings by timestamp (`sort_index`): the result is ordered and
      holds exactly the same readings. */
  function SortByTime<H(==)>(s: seq<Reading<H>>): (out: seq<Reading<H>>)
    ensures SortedByTime(out)
    ensures multiset(out) == multiset(s)
  {
    if s == [] then []
    else
      var rest := SortByTime(s[1..]);
      InsertSorted(s[0], rest);
      InsertPermutes(s[0], rest);
      assert s == [s[0]] + s[1..];
      Insert(s[0], rest)
  }

  /** Keeps each reading whose timestamp has not occurred earlier in `s`: the
      mask `~index.duplicated(keep='first')`. It never lengthens a sequence,
      and the very first reading always survives. */
  function KeepFirst<H(==)>(s: seq<Reading<H>>): (kept: seq<Reading<H>>)
    ensures |kept| <= |s|
    ensures kept == [] <==> s == []
    ensures s != [] ==> kept[0] == s[0]
  {
    if s == [] then []
    else if s[|s| - 1].time in TimesOf(s[..|s| - 1]) then KeepFirst(s[..|s| - 1])
    else KeepFirst(s[..|s| - 1]) + [s[|s| - 1]]
  }

  lemma {:induction false} KeepFirstSubMultiset<H>(s: seq<Reading<H>>)
    ensures multiset(KeepFirst(s)) <= multiset(s)
  {
    if s != [] {
      var init := s[..|s| - 1];
      KeepFirstSubMultiset(init);
      assert s == init + [s[|s| - 1]];
    }
  }

  /** Every reading the mask keeps is a reading of `s`. */
  lemma KeepFirstMembers<H>(s: seq<Reading<H>>, r: Reading<H>)
    requires r in KeepFirst(s)
    ensures r in s
  {
    KeepFirstSubMultiset(s);
    assert r in multiset(KeepFirst(s));
  }

  /** The mask keeps every timestamp of `s`. */
  lemma {:induction false} KeepFirstTimes<H>(s: seq<Reading<H>>)
    ensures TimesOf(KeepFirst(s)) == TimesOf(s)
  {
    if s != [] {
      var init := s[..|s| - 1];
      var last := s[|s| - 1];
      KeepFirstTimes(init);
      assert s == init + [last];
      assert TimesOf(s) == TimesOf(init) + {last.time};
      if last.time !in TimesOf(init) {
        assert TimesOf(KeepFirst(init) + [last]) == TimesOf(KeepFirst(init)) + {last.time};
      }
    }
  }

  /** The mask keeps each timestamp at most once. */
  lemma {:induction false} KeepFirstDistinct<H>(s: seq<Reading<H>>)
    ensures forall i, j :: 0 <= i < j < |KeepFirst(s)| ==> KeepFirst(s)[i].time != KeepFirst(s)[j].time
  {
    if s != [] {
      var init := s[..|s| - 1];
      var last := s[|s| - 1];
      var kept := KeepFirst(init);
      KeepFirstDistinct(init);
      if last.time !in TimesOf(init) {
        KeepFirstTimes(init);
        forall i | 0 <= i < |kept| ensures kept[i].time != last.time {
          assert kept[i] in kept;
        }
      }
    }
  }

  /** Each reading the mask keeps is the first reading of `s` with its timestamp. */
  lemma {:induction false} KeepFirstKeepsFirst<H>(s: seq<Reading<H>>)
    ensures forall k :: 0 <= k < |KeepFirst(s)| ==> FirstWithTime(s, KeepFirst(s)[k])
  {
    if s != [] {
      var init := s[..|s| - 1];
      var last := s[|s| - 1];
      var kept := KeepFirst(init);
      KeepFirstKeepsFirst(init);
      forall k | 0 <= k < |kept| ensures FirstWithTime(s, kept[k]) {
        var i :| 0 <= i < |init| && init[i] == kept[k] && forall j :: 0 <= j < i ==> init[j].time != kept[k].time;
        assert s[i] == kept[k];
      }
      if last.time !in TimesOf(init) {
        forall j | 0 <= j < |s| - 1 ensures s[j].time != last.time {
          assert s[j] in init;
        }
        assert s[|s| - 1] == last;
        assert FirstWithTime(s, last);
      }
    }
  }

  /** Applied to a sequence sorted by timestamp, the mask leaves strictly
      increasing timestamps. */
  lemma {:induction false} KeepFirstOfSorted<H>(s: seq<Reading<H>>)
    requires SortedByTime(s)
    ensures StrictlyIncreasing(KeepFirst(s))
  {
    if s != [] {
      var init := s[..|s| - 1];
      var last := s[|s| - 1];
      var kept := KeepFirst(init);
      KeepFirstOfSorted(init);
      if last.time !in TimesOf(init) {
        forall i | 0 <= i < |kept| ensures Before(kept[i].time, last.time) {
          assert kept[i] in kept;
          KeepFirstMembers(init, kept[i]);
          var m :| 0 <= m < |init| && init[m] == kept[i];
          assert s[m] == kept[i];
          BeforeIsStrictTotalOrder(kept[i].time, last.time, last.time);
        }
      }
    }
  }

  /** Sequences holding the same readings hold the same timestamps. */
  lemma SameReadingsSameTimes<H>(a: seq<Reading<H>>, b: seq<Reading<H>>)
    requires multiset(a) == multiset(b)
    ensures TimesOf(a) == TimesOf(b)
  {
    forall r | r in a ensures r in b {
      assert r in multiset(a);
    }
    forall r | r in b ensures r in a {
      assert r in multiset(b);
    }
  }

  lemma NoReadingsNoTimes<H>(s: seq<Reading<H>>)
    ensures s == [] <==> TimesOf(s) == {}
  {
    if s != [] {
      assert s[0].time in TimesOf(s);
    }
  }

  lemma StrictlyIncreasingTail<H>(x: seq<Reading<H>>)
    requires StrictlyIncreasing(x) && x != []
    ensures TimesOf(x[1..]) == TimesOf(x) - {x[0].time}
  {
    assert x == [x[0]] + x[1..];
    forall r | r in x[1..] ensures r.time != x[0].time {
      var j :| 0 <= j < |x[1..]| && x[1..][j] == r;
      assert x[j + 1] == r;
      BeforeIsStrictTotalOrder(x[0].time, r.time, r.time);
    }
  }

  /** A strictly increasing sequence of readings is determined, as far as its
      timestamps go, by its set of timestamps. */
  lemma {:induction false} StrictlyIncreasingTimesUnique<H>(x: seq<Reading<H>>, y: seq<Reading<H>>)
    requires StrictlyIncreasing(x) && StrictlyIncreasing(y)
    requires TimesOf(x) == TimesOf(y)
    ensures Times(x) == Times(y)
    decreases |x|
  {
    NoReadingsNoTimes(x);
    NoReadingsNoTimes(y);
    if x != [] && y != [] {
      assert x[0].time in TimesOf(x) && y[0].time in TimesOf(y);
      var m :| m in x && m.time == y[0].time;
      var n :| n in y && n.time == x[0].time;
      var i :| 0 <= i < |x| && x[i] == m;
      var j :| 0 <= j < |y| && y[j] == n;
      assert i == 0 || Before(x[0].time, y[0].time);
      assert j == 0 || Before(y[0].time, x[0].time);
      BeforeIsStrictTotalOrder(x[0].time, y[0].time, x[0].time);
      assert x[0].time == y[0].time;
      StrictlyIncreasingTail(x);
      StrictlyIncreasingTail(y);
      StrictlyIncreasingTimesUnique(x[1..], y[1..]);
    }
  }

  /** The table `fetch_dart_data` builds from its readings: sorted by timestamp,
      then masked to the first reading of each timestamp. Its timestamps strictly
      increase; each row is one of the readings and the first of its timestamp in
      the sorted order; it holds every timestamp of the readings and is no
      longer than they are. */
  function BuildTable<H(==)>(records: seq<Reading<H>>): (table: seq<Reading<H>>)
    ensures StrictlyIncreasing(table)
    ensures multiset(table) <= multiset(records)
    ensures TimesOf(table) == TimesOf(records)
    ensures |table| <= |records|
    ensures records != [] ==> table != []
    ensures forall k :: 0 <= k < |table| ==> FirstWithTime(SortByTime(records), table[k])
  {
    var sorted := SortByTime(records);
    KeepFirstOfSorted(sorted);
    KeepFirstSubMultiset(sorted);
    KeepFirstTimes(sorted);
    KeepFirstKeepsFirst(sorted);
    SameReadingsSameTimes(sorted, records);
    assert |sorted| == |multiset(sorted)| == |records|;
    NoReadingsNoTimes(records);
    NoReadingsNoTimes(KeepFirst(sorted));
    KeepFirst(sorted)
  }

  /** The sort may order readings with equal timestamps either way: whichever
      sorted arrangement of the readings is masked, the result has strictly
      increasing timestamps, holds only readings of the input and has the same
      timestamps, in the same order, as `BuildTable`. Only which of several
      readings sharing a timestamp survives depends on the arrangement. */
  lemma TableFromAnySort<H>(records: seq<Reading<H>>, sorted: seq<Reading<H>>)
    requires SortedByTime(sorted) && multiset(sorted) == multiset(records)
    ensures StrictlyIncreasing(KeepFirst(sorted))
    ensures multiset(KeepFirst(sorted)) <= multiset(records)
    ensures Times(KeepFirst(sorted)) == Times(BuildTable(records))
  {
    KeepFirstOfSorted(sorted);
    KeepFirstSubMultiset(sorted);
    KeepFirstTimes(sorted);
    SameReadingsSameTimes(sorted, records);
    StrictlyIncreasingTimesUnique(KeepFirst(sorted), BuildTable(records));
  }

  /** The timestamps of the table do not depend on the order the readings came in. */
  lemma TableTimesIgnoreInputOrder<H>(a: seq<Reading<H>>, b: seq<Reading<H>>)
    requires multiset(a) == multiset(b)
    ensures Times(BuildTable(a)) == Times(BuildTable(b))
  {
    SameReadingsSameTimes(a, b);
    StrictlyIncreasingTimesUnique(BuildTable(a), BuildTable(b));
  }
}
