/**
 * The string operations the DART parser relies on: `str.strip()`, `str.split()`
 * with no separator, `' '.join(...)` and the regular-expression class `\d+`,
 * over ASCII characters.
 */
module Text {

  /** A character that `str.strip()` and `str.split()` treat as whitespace:
      the space, the controls 9 to 13 (tab, line feed, vertical tab, form feed,
      carriage return) and the separators 28 to 31. */
  predicate IsSpace(c: char) {
    c == ' ' || 9 <= c as int <= 13 || 28 <= c as int <= 31
  }

  predicate AllSpace(s: string) {
    forall i :: 0 <= i < |s| ==> IsSpace(s[i])
  }

  predicate NoSpace(s: string) {
    forall i :: 0 <= i < |s| ==> !IsSpace(s[i])
  }

  /** What `str.split()` can return as one word. */
  predicate IsWord(w: string) {
    w != [] && NoSpace(w)
  }

  /** The first position at or after `b` that is not whitespace (or `|s|`). */
  function SkipSpace(s: string, b: nat): (e: nat)
    requires b <= |s|
    ensures b <= e <= |s|
    ensures forall k :: b <= k < e ==> IsSpace(s[k])
    ensures e == |s| || !IsSpace(s[e])
    decreases |s| - b
  {
    if b < |s| && IsSpace(s[b]) then SkipSpace(s, b + 1) else b
  }

  /** The position just after the last character of `s[b..e]` that is not
      whitespace (or `b`). */
  function SkipSpaceBack(s: string, b: nat, e: nat): (r: nat)
    requires b <= e <= |s|
    ensures b <= r <= e
    ensures forall k :: r <= k < e ==> IsSpace(s[k])
    ensures r == b || !IsSpace(s[r - 1])
    decreases e
  {
    if b < e && IsSpace(s[e - 1]) then SkipSpaceBack(s, b, e - 1) else e
  }

  /** `str.strip()`: it neither starts nor ends with whitespace, and it is empty
      exactly when `s` is all whitespace (see `StripIsInfix` for where it lies). */
  function Strip(s: string): (r: string)
    ensures r == [] <==> AllSpace(s)
    ensures r == [] || (!IsSpace(r[0]) && !IsSpace(r[|r| - 1]))
  {
    var i := SkipSpace(s, 0);
    s[i..SkipSpaceBack(s, i, |s|)]
  }

  /** The stripped text is a slice of `s` with only whitespace around it. */
  lemma StripIsInfix(s: string)
    ensures exists i :: 0 <= i <= |s| - |Strip(s)| && Strip(s) == s[i..i + |Strip(s)|]
                     && AllSpace(s[..i]) && AllSpace(s[i + |Strip(s)|..])
  {
    var i := SkipSpace(s, 0);
    var e := SkipSpaceBack(s, i, |s|);
    assert Strip(s) == s[i..e];
    assert AllSpace(s[..i]);
    assert AllSpace(s[e..]);
  }

  /** A string that neither starts nor ends with whitespace is its own strip. */
  lemma StripUnchanged(s: string)
    requires s != [] && !IsSpace(s[0]) && !IsSpace(s[|s| - 1])
    ensures Strip(s) == s
  {
    assert SkipSpace(s, 0) == 0;
    assert SkipSpaceBack(s, 0, |s|) == |s|;
    assert s[0..|s|] == s;
  }

  /** The length of the longest prefix of `s` holding no whitespace. */
  function WordLength(s: string): (n: nat)
    ensures n <= |s| && NoSpace(s[..n])
    ensures n == |s| || IsSpace(s[n])
    ensures s != [] && !IsSpace(s[0]) ==> n >= 1
  {
    if |s| == 0 || IsSpace(s[0]) then 0
    else
      var n := 1 + WordLength(s[1..]);
      assert s[..n] == [s[0]] + s[1..][..n - 1];
      n
  }

  /** `str.split()` with no separator: skip whitespace, take a maximal run of
      non-whitespace as the next word, repeat. Every word is non-empty and holds
      no whitespace, and there are no words exactly when `s` is all whitespace. */
  function Split(s: string): (words: seq<string>)
    ensures forall k :: 0 <= k < |words| ==> IsWord(words[k])
    ensures words == [] <==> AllSpace(s)
    decreases |s|
  {
    var i := SkipSpace(s, 0);
    if i == |s| then []
    else
      var t := s[i..];
      var n := WordLength(t);
      assert t[0] == s[i];
      [t[..n]] + Split(t[n..])
  }

  /** `' '.join(words)`: the text starts with the first character of the first
      word and ends with the last character of the last word. */
  function JoinWords(words: seq<string>): (r: string)
    ensures |words| >= 1 && words[0] != [] ==> r != [] && r[0] == words[0][0]
    ensures |words| >= 1 && words[|words| - 1] != [] ==>
              r != [] && r[|r| - 1] == words[|words| - 1][|words[|words| - 1]| - 1]
  {
    if |words| == 0 then []
    else if |words| == 1 then words[0]
    else words[0] + " " + JoinWords(words[1..])
  }

  predicate IsDigit(c: char) {
    '0' <= c <= '9'
  }

  predicate AllDigits(s: string) {
    forall i :: 0 <= i < |s| ==> IsDigit(s[i])
  }

  /** The regular expression `\d+`; a run of digits holds no whitespace. */
  predicate IsDigitRun(s: string)
    ensures IsDigitRun(s) ==> IsWord(s)
  {
    |s| >= 1 && AllDigits(s)
  }

  function Pow10(k: nat): (p: nat)
    ensures p >= 1
  {
    if k == 0 then 1 else 10 * Pow10(k - 1)
  }

  /** The decimal value of a string of digits; a string of `|s|` digits
      denotes a number below 10 to the power `|s|`. */
  function DigitsValue(s: string): (n: nat)
    requires AllDigits(s)
    ensures n < Pow10(|s|)
  {
    if s == [] then 0
    else DigitsValue(s[..|s| - 1]) * 10 + (s[|s| - 1] as int - '0' as int)
  }

  /** Leading zeros do not change the value of a digit string, so `07` and `7`
      denote the same number. */
  lemma {:induction false} LeadingZeroIgnored(s: string)
    requires AllDigits(s)
    ensures AllDigits("0" + s) && DigitsValue("0" + s) == DigitsValue(s)
  {
    var z := "0" + s;
    assert AllDigits(z) by {
      forall i | 0 <= i < |z| ensures IsDigit(z[i]) {
        if i > 0 { assert z[i] == s[i - 1]; }
      }
    }
    if s != [] {
      var init := s[..|s| - 1];
      assert z[..|z| - 1] == "0" + init;
      LeadingZeroIgnored(init);
    }
  }

  /** A non-blank string whose first character is not whitespace yields at
      least one word, and the first word starts with that character. */
  lemma SplitFirstWord(s: string)
    requires s != [] && !IsSpace(s[0])
    ensures |Split(s)| >= 1 && Split(s)[0][0] == s[0]
  {
    assert s[0..] == s;
  }

  /** Whitespace in front of a string does not change its words. */
  lemma SplitSkipsSpace(c: char, s: string)
    requires IsSpace(c)
    ensures Split([c] + s) == Split(s)
  {
    var cs := [c] + s;
    assert cs[1..] == s;
    assert SkipSpace(cs, 0) == 1 + SkipSpace(s, 0);
    assert cs[1 + SkipSpace(s, 0)..] == s[SkipSpace(s, 0)..];
  }

  lemma {:induction false} WordLengthOfWord(w: string, rest: string)
    requires NoSpace(w)
    requires rest == [] || IsSpace(rest[0])
    ensures WordLength(w + rest) == |w|
  {
    if w != [] {
      assert (w + rest)[1..] == w[1..] + rest;
      WordLengthOfWord(w[1..], rest);
    } else {
      assert w + rest == rest;
    }
  }

  /** A single word splits into itself. */
  lemma SplitOneWord(w: string)
    requires IsWord(w)
    ensures Split(w) == [w]
  {
    assert w[0..] == w;
    WordLengthOfWord(w, []);
    assert w + [] == w;
    assert w[|w|..] == [];
  }

  /** A word followed by a whitespace character splits into that word and the
      words after it. */
  lemma SplitWordThenRest(w: string, c: char, rest: string)
    requires IsWord(w) && IsSpace(c)
    ensures Split(w + [c] + rest) == [w] + Split(rest)
  {
    var s := w + [c] + rest;
    assert s == w + ([c] + rest);
    assert s[0..] == s;
    WordLengthOfWord(w, [c] + rest);
    assert s[..|w|] == w;
    assert s[|w|..] == [c] + rest;
    SplitSkipsSpace(c, rest);
  }

  /** Joining words with single spaces and splitting the text again gives back
      the same words: `' '.join` and `str.split()` are inverse on lists of
      non-empty words without whitespace. */
  /** The words after the first of a list of words are words, and the list is
      its first word followed by them. */
  lemma WordsOfTail(words: seq<string>)
    requires |words| >= 1 && forall k :: 0 <= k < |words| ==> IsWord(words[k])
    ensures forall k :: 0 <= k < |words[1..]| ==> IsWord(words[1..][k])
    ensures [words[0]] + words[1..] == words
  {
  }

  lemma {:induction false} SplitJoinWords(words: seq<string>)
    requires forall k :: 0 <= k < |words| ==> IsWord(words[k])
    ensures Split(JoinWords(words)) == words
  {
    if |words| == 1 {
      SplitOneWord(words[0]);
    } else if |words| > 1 {
      WordsOfTail(words);
      SplitJoinWords(words[1..]);
      SplitWordThenRest(words[0], ' ', JoinWords(words[1..]));
    }
  }

  /** Taking the first of `i` leading whitespace characters off `s` leaves
      `i - 1` leading whitespace characters in front of the same suffix. */
  lemma LeadingSpaceOfTail(s: string, i: nat)
    requires 0 < i <= |s| && forall k :: 0 <= k < i ==> IsSpace(s[k])
    ensures IsSpace(s[0]) && s == [s[0]] + s[1..] && s[1..][i - 1..] == s[i..]
    ensures forall k :: 0 <= k < i - 1 ==> IsSpace(s[1..][k])
  {
    assert forall k :: 0 <= k < i - 1 ==> s[1..][k] == s[k + 1];
  }

  /** Whitespace at the start of a string does not change its words. */
  lemma {:induction false} SplitDropLeadingSpace(s: string, i: nat)
    requires i <= |s| && forall k :: 0 <= k < i ==> IsSpace(s[k])
    ensures Split(s[i..]) == Split(s)
  {
    if i == 0 {
      assert s[0..] == s;
    } else {
      LeadingSpaceOfTail(s, i);
      SplitSkipsSpace(s[0], s[1..]);
      SplitDropLeadingSpace(s[1..], i - 1);
    }
  }

  /** The first step of `Split` on a string that is not all whitespace: the first
      word starts at the first non-whitespace position `j` and is as long as it
      can be. */
  lemma SplitUnfold(s: string, j: nat, n: nat)
    requires j == SkipSpace(s, 0) < |s| && n == WordLength(s[j..])
    ensures j + n <= |s| && Split(s) == [s[j..j + n]] + Split(s[j + n..])
  {
    assert s[j..][..n] == s[j..j + n];
    assert s[j..][n..] == s[j + n..];
  }

  /** Appending whitespace to an all-whitespace string keeps it all whitespace. */
  lemma AllSpaceAppend(s: string, t: string)
    requires AllSpace(s) && AllSpace(t)
    ensures AllSpace(s + t)
  {
  }

  /** Appending text does not move the first non-whitespace position of `s`. */
  lemma SkipSpaceOfAppend(s: string, t: string)
    requires SkipSpace(s, 0) < |s|
    ensures SkipSpace(s + t, 0) == SkipSpace(s, 0)
  {
    var j := SkipSpace(s, 0);
    var j' := SkipSpace(s + t, 0);
    assert (s + t)[j] == s[j];
  }

  /** Appending whitespace does not lengthen the word at the start of `a`. */
  lemma {:induction false} WordLengthAppendSpace(a: string, t: string)
    requires AllSpace(t)
    ensures WordLength(a + t) == WordLength(a)
  {
    if a == [] {
      assert a + t == t;
    } else if IsSpace(a[0]) {
      assert (a + t)[0] == a[0];
    } else {
      assert (a + t)[0] == a[0];
      assert (a + t)[1..] == a[1..] + t;
      WordLengthAppendSpace(a[1..], t);
    }
  }

  /** The slices of `s + t` around a stretch `s[j..j + n]` of `s`. */
  lemma SlicesOfAppend(s: string, t: string, j: nat, n: nat)
    requires j + n <= |s|
    ensures (s + t)[j..] == s[j..] + t
    ensures (s + t)[j..j + n] == s[j..j + n] && (s + t)[j + n..] == s[j + n..] + t
  {
  }

  /** Appending whitespace leaves the first word of `s`, found at `j` with
      length `n`, where it was, and what follows it is the rest of `s` followed
      by the whitespace. */
  lemma AppendFirstWord(s: string, t: string, j: nat, n: nat)
    requires j == SkipSpace(s, 0) < |s| && n == WordLength(s[j..]) && AllSpace(t)
    ensures j + n <= |s| && SkipSpace(s + t, 0) == j && WordLength((s + t)[j..]) == n
    ensures (s + t)[j..j + n] == s[j..j + n] && (s + t)[j + n..] == s[j + n..] + t
  {
    SkipSpaceOfAppend(s, t);
    SlicesOfAppend(s, t, j, n);
    WordLengthAppendSpace(s[j..], t);
  }

  /** Whitespace at the end of a string does not change its words. */
  lemma {:induction false} SplitAppendSpace(s: string, t: string)
    requires AllSpace(t)
    ensures Split(s + t) == Split(s)
    decreases |s|
  {
    var j := SkipSpace(s, 0);
    if j == |s| {
      AllSpaceAppend(s, t);
    } else {
      var n := WordLength(s[j..]);
      AppendFirstWord(s, t, j, n);
      SplitUnfold(s, j, n);
      SplitUnfold(s + t, j, n);
      SplitAppendSpace(s[j + n..], t);
    }
  }

  /** Whitespace in front of position `i` stays whitespace in the prefix
      `s[..e]`, which from `i` on is `s[i..e]`. */
  lemma LeadingSpaceOfPrefix(s: string, i: nat, e: nat)
    requires i <= e <= |s| && forall k :: 0 <= k < i ==> IsSpace(s[k])
    ensures forall k :: 0 <= k < i ==> IsSpace(s[..e][k])
    ensures s[..e][i..] == s[i..e]
  {
  }

  /** `line.strip().split()` has the same words as `line.split()`. */
  lemma SplitStrip(s: string)
    ensures Split(Strip(s)) == Split(s)
  {
    var i := SkipSpace(s, 0);
    var e := SkipSpaceBack(s, i, |s|);
    assert AllSpace(s[e..]);
    assert s[..e] + s[e..] == s;
    SplitAppendSpace(s[..e], s[e..]);
    LeadingSpaceOfPrefix(s, i, e);
    SplitDropLeadingSpace(s[..e], i);
  }

  /** A line with words strips to text starting with the first word. */
  lemma StripStartsWithFirstWord(s: string)
    requires Split(s) != []
    ensures Strip(s) != [] && Strip(s)[0] == Split(s)[0][0]
  {
    SplitStrip(s);
    SplitFirstWord(Strip(s));
  }
}
