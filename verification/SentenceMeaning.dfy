// What the sentence scanner's definitions say of the characters of the text.
module SentenceMeaning {
  import opened SentenceSpans

  // The punctuation by its code points, and what lower-casing does to a letter.
  lemma CharactersAre(c: char)
    ensures IsTerminal(c) <==> c as int in {0x21, 0x2e, 0x3f, 0x3002, 0xff01, 0xff1f}
    ensures IsCloser(c) <==>
            c as int in {0x22, 0x27, 0x29, 0x5d, 0x7d, 0x2019, 0x201d, 0x300b, 0x300d, 0x3011}
    ensures IsBreak(c) <==> c as int in {0x0a, 0x0d}
    ensures IsLetter(c) <==> 65 <= c as int < 65 + 26 || 97 <= c as int < 97 + 26
    ensures (IsLetter(c) ==> 97 <= Lower(c) as int < 97 + 26 && (Lower(c) as int - c as int) % 32 == 0)
            && (!IsLetter(c) ==> Lower(c) == c)
  {
  }

  // --- Where a unit ends ---

  // [i, j) is the longest stretch from i of characters satisfying p.
  ghost predicate Longest(text: string, i: nat, j: nat, p: char -> bool) {
    && i <= j <= |text| && (forall k :: i <= k < j ==> p(text[k]))
    && (j < |text| ==> !p(text[j]))
  }

  predicate LetterOrPeriod(c: char) {
    IsLetter(c) || c == '.'
  }

  // Only letters and periods from a, which is a letter, to the period.
  ghost predicate Reaches(text: string, a: nat, period: nat) {
    a < period < |text| && IsLetter(text[a]) && forall k :: a <= k < period ==> LetterOrPeriod(text[k])
  }

  // The leftmost match of a letter, letters and periods, and the period: a listed abbreviation or a single letter.
  ghost predicate Abbreviates(text: string, start: nat, a: nat, period: nat) {
    && start <= a && Reaches(text, a, period) && (forall b :: start <= b < a ==> !Reaches(text, b, period))
    && (LowerAll(text[a..period + 1]) in ABBREVIATIONS || a + 1 == period)
  }

  // A terminal character at i ends the unit that began at start: m follows the run of terminal characters, end the
  // closing characters after it.
  ghost predicate SentenceEnd(t: CharTables, text: string, start: nat, i: nat, m: nat, end: nat) {
    && start <= i < |text| && IsTerminal(text[i])
    && Longest(text, i + 1, m, IsTerminal) && Longest(text, m, end, IsCloser)
    && (end < |text| ==> t.isSpace(text[end]))
    && !(text[i] == '.' && 0 < i < |text| - 1 && t.isDigit(text[i - 1]) && t.isDigit(text[i + 1]))
    && !(text[i] == '.' && exists a :: Abbreviates(text, start, a, i))
  }

  ghost predicate EndsAt(t: CharTables, text: string, start: nat, i: nat) {
    exists m: nat, end: nat :: SentenceEnd(t, text, start, i, m, end)
  }

  // Neither a line break nor the end of a sentence in [start, end).
  ghost predicate Unbroken(t: CharTables, text: string, start: nat, end: nat) {
    forall k :: start <= k < end <= |text| ==> !IsBreak(text[k]) && !EndsAt(t, text, start, k)
  }

  ghost predicate TerminalAt(t: CharTables, text: string, start: nat, i: nat, end: nat) {
    Unbroken(t, text, start, i) && exists m: nat :: SentenceEnd(t, text, start, i, m, end)
  }

  // What ends the unit that began at start: the first line break, the first end of a sentence, or the end of the text.
  ghost predicate EndsWith(t: CharTables, text: string, start: nat, end: nat, boundary: Boundary) {
    match boundary
    case End => end == |text| && Unbroken(t, text, start, end)
    case Newline => start <= end < |text| && IsBreak(text[end]) && Unbroken(t, text, start, end)
    case Terminal => exists i: nat :: TerminalAt(t, text, start, i, end)
  }

  lemma {:induction false} TerminalRun(text: string, i: nat)
    requires i <= |text|
    ensures Longest(text, i, SkipTerminals(text, i), IsTerminal)
    decreases |text| - i
  {
    if i < |text| && IsTerminal(text[i]) {
      TerminalRun(text, i + 1);
    }
  }

  lemma {:induction false} CloserRun(text: string, i: nat)
    requires i <= |text|
    ensures Longest(text, i, SkipClosers(text, i), IsCloser)
    decreases |text| - i
  {
    if i < |text| && IsCloser(text[i]) {
      CloserRun(text, i + 1);
    }
  }

  lemma LongestUnique(text: string, i: nat, j: nat, k: nat, p: char -> bool)
    requires Longest(text, i, j, p) && Longest(text, i, k, p)
    ensures j == k
  {
  }

  lemma {:induction false} RunStartIs(text: string, start: nat, i: nat)
    requires start <= i <= |text|
    ensures var j := RunStart(text, start, i);
            && (forall k :: j <= k < i ==> LetterOrPeriod(text[k]))
            && (j > start ==> !LetterOrPeriod(text[j - 1]))
  {
    if i > start && LetterOrPeriod(text[i - 1]) {
      RunStartIs(text, start, i - 1);
    }
  }

  lemma {:induction false} FirstLetterIs(text: string, i: nat, limit: nat)
    requires i <= limit <= |text|
    ensures var j := FirstLetter(text, i, limit);
            (forall k :: i <= k < j ==> !IsLetter(text[k])) && (j < limit ==> IsLetter(text[j]))
    decreases limit - i
  {
    if i < limit && !IsLetter(text[i]) {
      FirstLetterIs(text, i + 1, limit);
    }
  }

  lemma AbbreviationIs(text: string, start: nat, period: nat)
    requires start <= period < |text|
    ensures IsAbbreviation(text, start, period) <==> exists a :: Abbreviates(text, start, a, period)
  {
    var j := RunStart(text, start, period);
    var a := FirstLetter(text, j, period);
    RunStartIs(text, start, period);
    FirstLetterIs(text, j, period);
    forall b: nat | start <= b < period
      ensures Reaches(text, b, period) ==> a <= b
    {
      if Reaches(text, b, period) {
        assert j > start ==> !LetterOrPeriod(text[j - 1]);
      }
    }
    if a < period {
      assert Reaches(text, a, period);
      assert |LowerAll(text[a..period + 1])| == period + 1 - a;
      assert IsAbbreviation(text, start, period) <==> Abbreviates(text, start, a, period);
      forall b: nat | Abbreviates(text, start, b, period)
        ensures a == b
      {
      }
    }
  }

  lemma EndsSentenceIs(t: CharTables, text: string, start: nat, i: nat)
    requires start <= i < |text|
    ensures EndsSentence(t, text, start, i) <==> EndsAt(t, text, start, i)
    ensures EndsSentence(t, text, start, i) ==>
              var m := SkipTerminals(text, i + 1); SentenceEnd(t, text, start, i, m, SkipClosers(text, m))
    ensures forall m: nat, end: nat :: SentenceEnd(t, text, start, i, m, end) ==>
                                         end == SkipClosers(text, SkipTerminals(text, i + 1))
  {
    hide IsAbbreviation, Abbreviates, IsTerminal, IsCloser, Longest;
    var m := SkipTerminals(text, i + 1);
    var end := SkipClosers(text, m);
    TerminalRun(text, i + 1);
    CloserRun(text, m);
    AbbreviationIs(text, start, i);
    assert EndsSentence(t, text, start, i) <==> SentenceEnd(t, text, start, i, m, end);
    forall m': nat, end': nat | SentenceEnd(t, text, start, i, m', end')
      ensures m' == m && end' == end
    {
      LongestUnique(text, i + 1, m, m', IsTerminal);
      LongestUnique(text, m, end, end', IsCloser);
    }
  }

  // The scan stops at the first line break or end of a sentence, and says which.
  lemma {:induction false} ScanIs(t: CharTables, text: string, start: nat, i: nat)
    requires start <= i <= |text| && Unbroken(t, text, start, i)
    ensures EndsWith(t, text, start, Scan(t, text, start, i).0, Scan(t, text, start, i).1)
    decreases |text| - i
  {
    hide EndsSentence, EndsAt, SentenceEnd, IsBreak;
    if i < |text| {
      EndsSentenceIs(t, text, start, i);
      if !IsBreak(text[i]) {
        if EndsSentence(t, text, start, i) {
          assert TerminalAt(t, text, start, i, Scan(t, text, start, i).0);
        } else {
          ScanIs(t, text, start, i + 1);
        }
      }
    }
  }

  lemma TerminalsDiffer(t: CharTables, text: string, start: nat, i: nat, end: nat, j: nat, end': nat)
    requires start <= |text| && TerminalAt(t, text, start, i, end) && TerminalAt(t, text, start, j, end')
    ensures i == j && end == end'
  {
    hide IsBreak, EndsSentence, SentenceEnd, Abbreviates;
    var m: nat :| SentenceEnd(t, text, start, i, m, end);
    var m': nat :| SentenceEnd(t, text, start, j, m', end');
    SentenceEndsIn(t, text, start, i, m, end);
    SentenceEndsIn(t, text, start, j, m', end');
    EndsSentenceIs(t, text, start, i);
  }

  lemma SentenceEndsIn(t: CharTables, text: string, start: nat, i: nat, m: nat, end: nat)
    requires SentenceEnd(t, text, start, i, m, end)
    ensures start <= i < end <= |text| && !IsBreak(text[i]) && EndsAt(t, text, start, i)
  {
  }

  // Only one end and one reason fit.
  lemma EndIsUnique(t: CharTables, text: string, start: nat, end: nat, b: Boundary, end': nat, b': Boundary)
    requires start <= |text| && EndsWith(t, text, start, end, b) && EndsWith(t, text, start, end', b')
    ensures end == end' && b == b'
  {
    hide IsBreak, SentenceEnd;
    if b.Terminal? {
      var i: nat :| TerminalAt(t, text, start, i, end);
      var m: nat :| SentenceEnd(t, text, start, i, m, end);
      SentenceEndsIn(t, text, start, i, m, end);
      if b'.Terminal? {
        var j: nat :| TerminalAt(t, text, start, j, end');
        TerminalsDiffer(t, text, start, i, end, j, end');
      }
    } else if b'.Terminal? {
      var j: nat :| TerminalAt(t, text, start, j, end');
      var m: nat :| SentenceEnd(t, text, start, j, m, end');
      SentenceEndsIn(t, text, start, j, m, end');
    }
  }

  // --- The units ---

  // The unit runs from its start to the last solid character before what ends it.
  ghost predicate UnitEnds(t: CharTables, text: string, u: Unit, end: nat) {
    && u.start < u.end <= end <= |text| && EndsWith(t, text, u.start, end, u.boundary)
    && !t.isSpace(text[u.end - 1]) && forall p :: u.end <= p < end ==> t.isSpace(text[p])
  }

  ghost predicate Delimited(t: CharTables, text: string, u: Unit) {
    exists end: nat :: UnitEnds(t, text, u, end)
  }

  // Every unit ends where the first line break or sentence end after its start says; with UnitsTile, which puts every
  // solid character into a unit, this leaves one way to cut the text.
  lemma {:induction false} UnitsDelimited(t: CharTables, text: string, cursor: nat, k: nat)
    requires cursor <= |text| && TablesOk(t) && k < |Units(t, text, cursor)|
    ensures Delimited(t, text, Units(t, text, cursor)[k])
    decreases |text| - cursor
  {
    hide Units, Scan, TablesOk, EndsWith;
    UnitsStep(t, text, cursor);
    SkipSpaceStops(t, text, cursor);
    var start := SkipSpace(t, text, cursor);
    var (end, boundary) := Scan(t, text, start, start);
    if k == 0 {
      ScanIs(t, text, start, start);
      TrimEndTrims(t, text, start, end);
      assert UnitEnds(t, text, Units(t, text, cursor)[0], end);
    } else {
      UnitsDelimited(t, text, SkipBreaks(text, end), k - 1);
    }
  }

  // --- Eligibility ---

  ghost predicate Space(t: CharTables, s: string) {
    forall k :: 0 <= k < |s| ==> t.isSpace(s[k])
  }

  // The text without the space around it.
  ghost predicate Stripped(t: CharTables, s: string, r: string) {
    && (exists a: nat, b: nat :: a <= b <= |s| && r == s[a..b] && Space(t, s[..a]) && Space(t, s[b..]))
    && (r != "" ==> !t.isSpace(r[0]) && !t.isSpace(r[|r| - 1]))
  }

  lemma StripIs(t: CharTables, s: string)
    ensures Stripped(t, s, Strip(t, s))
  {
    var a := SkipSpace(t, s, 0);
    var b := TrimEnd(t, s, a, |s|);
    SkipSpaceStops(t, s, 0);
    TrimEndTrims(t, s, a, |s|);
    assert Space(t, s[..a]) && Space(t, s[b..]);
  }

  // A bullet, or one to three digits and a period or a closing parenthesis.
  lemma MarkerIs(t: CharTables, s: string)
    ensures ListMarkerOnly(t, s) <==>
            || s in {"-", "+", "*"}
            || exists digits: string, mark: char ::
                 && s == digits + [mark] && 1 <= |digits| <= 3 && mark in ".)"
                 && forall c :: c in digits ==> t.isDecimal(c)
  {
    if |s| > 0 {
      var digits, mark := s[..|s| - 1], s[|s| - 1];
      assert s == digits + [mark];
      assert |s| == 1 ==> s == [s[0]];
      forall d: string, m: char | s == d + [m]
        ensures d == digits && m == mark
      {
      }
    }
  }

  lemma {:induction false} HashCountIs(s: string)
    ensures forall k :: 0 <= k < HashCount(s) ==> s[k] == '#'
    ensures HashCount(s) < |s| ==> s[HashCount(s)] != '#'
  {
    if |s| > 0 && s[0] == '#' {
      HashCountIs(s[1..]);
    }
  }

  // One to six hash marks followed by whitespace.
  lemma HeadingIs(t: CharTables, s: string)
    requires !t.isSpace('#')
    ensures MarkdownHeading(t, s) <==>
            exists n :: 1 <= n <= 6 && n < |s| && t.isSpace(s[n]) && forall k :: 0 <= k < n ==> s[k] == '#'
  {
    HashCountIs(s);
  }

  ghost predicate Decoration(c: char) {
    c in "*_`~>#[]()"
  }

  // Decoration is dropped and everything else kept, wherever the text is cut.
  lemma {:induction false} UndecoratedParts(a: string, b: string)
    ensures Undecorated(a + b) == Undecorated(a) + Undecorated(b)
    decreases |b|
  {
    if |b| == 0 {
      assert a + b == a;
    } else {
      assert (a + b)[..|a + b| - 1] == a + b[..|b| - 1];
      UndecoratedParts(a, b[..|b| - 1]);
    }
  }

  lemma UndecoratedOne(c: char)
    ensures Undecorated([c]) == if Decoration(c) then "" else [c]
  {
    assert [c][..0] == "";
  }

  // Where a run of at least two letters starts, and where one has a letter.
  ghost predicate RunStarts(s: string, i: int) {
    0 <= i < |s| - 1 && IsLetter(s[i]) && IsLetter(s[i + 1]) && (i == 0 || !IsLetter(s[i - 1]))
  }

  ghost predicate InRun(s: string, i: int) {
    0 <= i < |s| && IsLetter(s[i]) && ((i > 0 && IsLetter(s[i - 1])) || (i < |s| - 1 && IsLetter(s[i + 1])))
  }

  ghost function Starts(s: string, from: int): set<int> {
    set i | 0 <= i < |s| && i >= from && RunStarts(s, i)
  }

  ghost function Letters(s: string, from: int): set<int> {
    set i | 0 <= i < |s| && i >= from && InRun(s, i)
  }

  // The letters before k that a run has so far.
  ghost predicate Pending(s: string, k: nat, run: nat) {
    && run <= k <= |s| && (forall i :: k - run <= i < k ==> IsLetter(s[i]))
    && (run < k ==> !IsLetter(s[k - run - 1]))
  }

  function Interval(from: int, n: nat): (numbers: set<int>)
    ensures |numbers| == n && forall i :: i in numbers <==> from <= i < from + n
  {
    if n == 0 then {} else Interval(from, n - 1) + {from + n - 1}
  }

  // Of the pending run and what ends it, only the first letter starts a run, and all letters or none are in one.
  lemma RunHolds(s: string, k: nat, run: nat, i: int)
    requires Pending(s, k, run) && (k < |s| ==> !IsLetter(s[k])) && k - run <= i <= k && i < |s|
    ensures RunStarts(s, i) <==> i == k - run && run >= 2
    ensures InRun(s, i) <==> i < k && run >= 2
  {
    if i < k && run >= 2 {
      assert IsLetter(s[if i > k - run then i - 1 else i + 1]);
    }
  }

  // When the run ends at k, it counts if it has two letters or more.
  lemma RunEnds(s: string, k: nat, run: nat)
    requires Pending(s, k, run) && (k < |s| ==> !IsLetter(s[k]))
    ensures |Starts(s, k - run)| == |Starts(s, k + 1)| + if run >= 2 then 1 else 0
    ensures |Letters(s, k - run)| == |Letters(s, k + 1)| + if run >= 2 then run else 0
  {
    hide RunStarts, InRun, Pending;
    forall i | k - run <= i <= k && i < |s|
      ensures RunStarts(s, i) <==> i == k - run && run >= 2
      ensures InRun(s, i) <==> i < k && run >= 2
    {
      RunHolds(s, k, run, i);
    }
    PendingIn(s, k, run);
    Split(Starts(s, k - run), Starts(s, k + 1), Interval(k - run, if run >= 2 then 1 else 0));
    Split(Letters(s, k - run), Letters(s, k + 1), Interval(k - run, if run >= 2 then run else 0));
  }

  lemma PendingIn(s: string, k: nat, run: nat)
    requires Pending(s, k, run)
    ensures run <= k <= |s|
  {
  }

  lemma Split<T(!new)>(all: set<T>, a: set<T>, b: set<T>)
    requires forall x :: x in all <==> x in a || x in b
    requires forall x :: x in a ==> x !in b
    ensures |all| == |a| + |b|
  {
    assert all == a + b && a !! b;
  }

  lemma {:induction false} LetterRunsFrom(s: string, k: nat, run: nat)
    requires Pending(s, k, run)
    ensures LetterRuns(s[k..], run) == (|Starts(s, k - run)|, |Letters(s, k - run)|)
    decreases |s| - k
  {
    hide RunStarts, InRun;
    if k == |s| {
      RunEnds(s, k, run);
      assert Starts(s, k + 1) == {} && Letters(s, k + 1) == {};
    } else {
      assert s[k..][1..] == s[k + 1..];
      if IsLetter(s[k]) {
        LetterRunsFrom(s, k + 1, run + 1);
      } else {
        LetterRunsFrom(s, k + 1, 0);
        RunEnds(s, k, run);
      }
    }
  }

  // The number of runs of at least two letters, and the number of letters in them.
  lemma LetterRunsAre(s: string)
    ensures LetterRuns(s, 0) == (|Starts(s, 0)|, |Letters(s, 0)|)
  {
    assert s[0..] == s;
    LetterRunsFrom(s, 0, 0);
  }

  // Text is eligible when it has two such runs with eight letters in all, and is no bare marker and no heading.
  lemma EligibleIs(t: CharTables, text: string)
    ensures EligibleSentenceText(t, text) <==>
            var stripped := Strip(t, text);
            var visible := Strip(t, Undecorated(stripped));
            && stripped != "" && !ListMarkerOnly(t, stripped) && !MarkdownHeading(t, stripped)
            && |Starts(visible, 0)| >= 2 && |Letters(visible, 0)| >= 8
  {
    LetterRunsAre(Strip(t, Undecorated(Strip(t, text))));
  }
}
