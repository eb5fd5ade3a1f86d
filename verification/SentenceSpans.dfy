// sentence_spans: the offset-preserving sentence scanner.
module SentenceSpans {

  // Python's character tables, which the model leaves open: str.isspace, str.isdigit and \d.
  datatype CharTables = CharTables(isSpace: char -> bool, isDigit: char -> bool, isDecimal: char -> bool)

  ghost predicate TablesOk(t: CharTables) {
    && t.isSpace('\r') && t.isSpace('\n')
    && forall c :: IsTerminal(c) || IsCloser(c) ==> !t.isSpace(c)
  }

  predicate IsTerminal(c: char) {
    c in ['.', '!', '?', '\U{3002}', '\U{ff01}', '\U{ff1f}']
  }

  predicate IsCloser(c: char) {
    c in ['\"', '\'', '\U{201d}', '\U{2019}', ')', ']', '}', '\U{300b}', '\U{300d}', '\U{3011}']
  }

  predicate IsBreak(c: char) {
    c == '\r' || c == '\n'
  }

  predicate IsLetter(c: char) {
    'A' <= c <= 'Z' || 'a' <= c <= 'z'
  }

  function Lower(c: char): char {
    if 'A' <= c <= 'Z' then (c as int + 32) as char else c
  }

  function LowerAll(s: string): string {
    seq(|s|, i requires 0 <= i < |s| => Lower(s[i]))
  }

  const ABBREVIATIONS := {"dr.", "e.g.", "i.e.", "jr.", "mr.", "mrs.", "ms.", "prof.", "sr.", "st.", "vs."}

  // --- Eligibility ---

  function Strip(t: CharTables, s: string): string {
    var a := SkipSpace(t, s, 0);
    s[a..TrimEnd(t, s, a, |s|)]
  }

  predicate ListMarkerOnly(t: CharTables, s: string) {
    || (|s| == 1 && s[0] in ['-', '+', '*'])
    || (2 <= |s| <= 4 && s[|s| - 1] in ['.', ')'] && forall i :: 0 <= i < |s| - 1 ==> t.isDecimal(s[i]))
  }

  function HashCount(s: string): (n: nat)
    ensures n <= |s|
  {
    if |s| == 0 || s[0] != '#' then 0 else 1 + HashCount(s[1..])
  }

  // One to six hash marks and then whitespace.
  predicate MarkdownHeading(t: CharTables, s: string) {
    var n := HashCount(s);
    1 <= n <= 6 && n < |s| && t.isSpace(s[n])
  }

  function Undecorated(s: string): string {
    if |s| == 0 then "" else
      Undecorated(s[..|s| - 1])
        + (if s[|s| - 1] in ['*', '_', '`', '~', '>', '#', '[', ']', '(', ')'] then "" else [s[|s| - 1]])
  }

  // The number of maximal runs of at least two letters, and their total length; run letters are pending.
  function LetterRuns(s: string, run: nat): (nat, nat) {
    if |s| == 0 then (if run >= 2 then (1, run) else (0, 0))
    else if IsLetter(s[0]) then LetterRuns(s[1..], run + 1)
    else
      var (count, length) := LetterRuns(s[1..], 0);
      if run >= 2 then (count + 1, length + run) else (count, length)
  }

  predicate EligibleSentenceText(t: CharTables, text: string) {
    var stripped := Strip(t, text);
    && stripped != "" && !ListMarkerOnly(t, stripped) && !MarkdownHeading(t, stripped)
    && var (count, length) := LetterRuns(Strip(t, Undecorated(stripped)), 0);
       count >= 2 && length >= 8
  }

  // --- Scanning ---

  predicate IsDecimalPoint(t: CharTables, text: string, i: nat)
    requires i < |text|
  {
    text[i] == '.' && i > 0 && i + 1 < |text| && t.isDigit(text[i - 1]) && t.isDigit(text[i + 1])
  }

  // Where the run of letters and periods that reaches position i begins, no earlier than start.
  function RunStart(text: string, start: nat, i: nat): (j: nat)
    requires start <= i <= |text|
    ensures start <= j <= i
  {
    if i > start && (IsLetter(text[i - 1]) || text[i - 1] == '.') then RunStart(text, start, i - 1) else i
  }

  function FirstLetter(text: string, i: nat, limit: nat): (j: nat)
    requires i <= limit <= |text|
    ensures i <= j <= limit
    decreases limit - i
  {
    if i < limit && !IsLetter(text[i]) then FirstLetter(text, i + 1, limit) else i
  }

  predicate IsAbbreviation(text: string, start: nat, period: nat)
    requires start <= period < |text|
  {
    var a := FirstLetter(text, RunStart(text, start, period), period);
    a < period
    && var token := LowerAll(text[a..period + 1]);
       token in ABBREVIATIONS || |token| == 2
  }

  function SkipSpace(t: CharTables, text: string, i: nat): (j: nat)
    requires i <= |text|
    ensures i <= j <= |text|
    decreases |text| - i
  {
    if i < |text| && t.isSpace(text[i]) then SkipSpace(t, text, i + 1) else i
  }

  function SkipTerminals(text: string, i: nat): (j: nat)
    requires i <= |text|
    ensures i <= j <= |text|
    decreases |text| - i
  {
    if i < |text| && IsTerminal(text[i]) then SkipTerminals(text, i + 1) else i
  }

  function SkipClosers(text: string, i: nat): (j: nat)
    requires i <= |text|
    ensures i <= j <= |text|
    decreases |text| - i
  {
    if i < |text| && IsCloser(text[i]) then SkipClosers(text, i + 1) else i
  }

  function SkipBreaks(text: string, i: nat): (j: nat)
    requires i <= |text|
    ensures i <= j <= |text|
    decreases |text| - i
  {
    if i < |text| && IsBreak(text[i]) then SkipBreaks(text, i + 1) else i
  }

  function TrimEnd(t: CharTables, text: string, start: nat, end: nat): (e: nat)
    requires start <= end <= |text|
    ensures start <= e <= end
  {
    if end > start && t.isSpace(text[end - 1]) then TrimEnd(t, text, start, end - 1) else end
  }

  datatype Boundary = Terminal | Newline | End

  predicate EndsSentence(t: CharTables, text: string, start: nat, i: nat)
    requires start <= i < |text|
  {
    && IsTerminal(text[i]) && !IsDecimalPoint(t, text, i)
    && (var e := SkipClosers(text, SkipTerminals(text, i + 1)); e == |text| || t.isSpace(text[e]))
    && !(text[i] == '.' && IsAbbreviation(text, start, i))
  }

  // Where the unit that began at start ends, scanning from i, and why.
  function Scan(t: CharTables, text: string, start: nat, i: nat): (r: (nat, Boundary))
    requires start <= i <= |text|
    ensures i <= r.0 <= |text|
    decreases |text| - i
  {
    if i == |text| then (|text|, End)
    else if IsBreak(text[i]) then (i, Newline)
    else if EndsSentence(t, text, start, i) then (SkipClosers(text, SkipTerminals(text, i + 1)), Terminal)
    else Scan(t, text, start, i + 1)
  }

  // A scanned unit, trimmed; a span is an eligible unit with its index and text.
  datatype Unit = Unit(start: nat, end: nat, boundary: Boundary)

  datatype SentenceSpan = SentenceSpan(index: nat, start: nat, end: nat, text: string, boundary: Boundary)

  ghost function Units(t: CharTables, text: string, cursor: nat): seq<Unit>
    requires cursor <= |text| && TablesOk(t)
    decreases |text| - cursor
  {
    var start := SkipSpace(t, text, cursor);
    if start == |text| then [] else
      SkipSpaceStops(t, text, cursor);
      ScanAdvances(t, text, start);
      var (end, boundary) := Scan(t, text, start, start);
      [Unit(start, TrimEnd(t, text, start, end), boundary)]
      + if boundary.End? then [] else Units(t, text, SkipBreaks(text, end))
  }

  ghost predicate InText(text: string, units: seq<Unit>) {
    forall u :: u in units ==> u.start <= u.end <= |text|
  }

  ghost function SpansOf(t: CharTables, text: string, units: seq<Unit>): seq<SentenceSpan>
    requires InText(text, units)
  {
    if |units| == 0 then [] else
      var front, u := SpansOf(t, text, units[..|units| - 1]), units[|units| - 1];
      if u.end > u.start && EligibleSentenceText(t, text[u.start..u.end])
      then front + [SentenceSpan(|front|, u.start, u.end, text[u.start..u.end], u.boundary)] else front
  }

  lemma {:induction false} SkipSpaceStops(t: CharTables, text: string, i: nat)
    requires i <= |text|
    ensures forall p :: i <= p < SkipSpace(t, text, i) ==> t.isSpace(text[p])
    ensures SkipSpace(t, text, i) < |text| ==> !t.isSpace(text[SkipSpace(t, text, i)])
    decreases |text| - i
  {
    if i < |text| && t.isSpace(text[i]) {
      SkipSpaceStops(t, text, i + 1);
    }
  }

  lemma {:induction false} SkipBreaksStops(text: string, i: nat)
    requires i <= |text|
    ensures forall p :: i <= p < SkipBreaks(text, i) ==> IsBreak(text[p])
    decreases |text| - i
  {
    if i < |text| && IsBreak(text[i]) {
      SkipBreaksStops(text, i + 1);
    }
  }

  lemma {:induction false} SkipTerminalsSolid(t: CharTables, text: string, i: nat)
    requires i <= |text| && TablesOk(t)
    ensures forall p :: i <= p < SkipTerminals(text, i) ==> !t.isSpace(text[p])
    decreases |text| - i
  {
    if i < |text| && IsTerminal(text[i]) {
      SkipTerminalsSolid(t, text, i + 1);
    }
  }

  lemma {:induction false} SkipClosersSolid(t: CharTables, text: string, i: nat)
    requires i <= |text| && TablesOk(t)
    ensures forall p :: i <= p < SkipClosers(text, i) ==> !t.isSpace(text[p])
    decreases |text| - i
  {
    if i < |text| && IsCloser(text[i]) {
      SkipClosersSolid(t, text, i + 1);
    }
  }

  lemma {:induction false} TrimEndTrims(t: CharTables, text: string, start: nat, end: nat)
    requires start <= end <= |text|
    ensures var e := TrimEnd(t, text, start, end);
            && (forall p :: e <= p < end ==> t.isSpace(text[p]))
            && (e > start ==> !t.isSpace(text[e - 1]))
            && (start < end && !t.isSpace(text[start]) ==> e > start)
    decreases end
  {
    if end > start && t.isSpace(text[end - 1]) {
      TrimEndTrims(t, text, start, end - 1);
    }
  }

  // A unit contains no line break, and whatever ended it lies at its end.
  lemma {:induction false} ScanStops(t: CharTables, text: string, start: nat, i: nat)
    requires start <= i <= |text| && TablesOk(t)
    ensures var (end, boundary) := Scan(t, text, start, i);
            && (forall p :: i <= p < end ==> !IsBreak(text[p]))
            && (boundary.End? ==> end == |text|)
            && (boundary.Newline? ==> end < |text| && IsBreak(text[end]))
            && (boundary.Terminal? ==> i < end && !t.isSpace(text[end - 1]) && (end == |text| || t.isSpace(text[end])))
    decreases |text| - i
  {
    if i < |text| && !IsBreak(text[i]) {
      if EndsSentence(t, text, start, i) {
        SkipTerminalsSolid(t, text, i + 1);
        SkipClosersSolid(t, text, SkipTerminals(text, i + 1));
        assert !t.isSpace(text[i]);
      } else {
        ScanStops(t, text, start, i + 1);
      }
    }
  }

  lemma ScanAdvances(t: CharTables, text: string, start: nat)
    requires start < |text| && !t.isSpace(text[start]) && TablesOk(t)
    ensures Scan(t, text, start, start).0 > start
  {
  }

  // --- What the units are ---

  ghost predicate UnitOk(t: CharTables, text: string, u: Unit) {
    && u.start < u.end <= |text|
    && !t.isSpace(text[u.start]) && !t.isSpace(text[u.end - 1])
    && forall p :: u.start <= p < u.end ==> !IsBreak(text[p])
  }

  ghost predicate Ordered(t: CharTables, text: string, units: seq<Unit>) {
    && (forall k :: 0 <= k < |units| ==> UnitOk(t, text, units[k]))
    && (forall j, k :: 0 <= j < k < |units| ==> units[j].end <= units[k].start)
  }

  // From cursor on: units in order, none overlapping, and every solid character inside one of them.
  ghost predicate Tiled(t: CharTables, text: string, cursor: nat, units: seq<Unit>) {
    && Ordered(t, text, units)
    && (forall k :: 0 <= k < |units| ==> cursor <= units[k].start)
    && forall p :: cursor <= p < |text| && !t.isSpace(text[p]) ==> Covered(units, p)
  }

  ghost predicate Covered(units: seq<Unit>, p: int) {
    exists k :: 0 <= k < |units| && units[k].start <= p < units[k].end
  }

  lemma {:induction false} UnitsTile(t: CharTables, text: string, cursor: nat)
    requires cursor <= |text| && TablesOk(t)
    ensures Tiled(t, text, cursor, Units(t, text, cursor))
    decreases |text| - cursor
  {
    hide Tiled, Scan, SkipSpace, SkipBreaks, TrimEnd;
    var start := SkipSpace(t, text, cursor);
    SkipSpaceStops(t, text, cursor);
    if start < |text| {
      ScanAdvances(t, text, start);
      ScanStops(t, text, start, start);
      var (end, boundary) := Scan(t, text, start, start);
      TrimEndTrims(t, text, start, end);
      var first := Unit(start, TrimEnd(t, text, start, end), boundary);
      if boundary.End? {
        assert Units(t, text, cursor) == [first];
        OneTile(t, text, cursor, first);
      } else {
        var next := SkipBreaks(text, end);
        SkipBreaksStops(text, end);
        UnitsTile(t, text, next);
        MoreTiles(t, text, cursor, next, first, Units(t, text, next));
      }
    } else {
      NoTile(t, text, cursor);
    }
  }

  lemma NoTile(t: CharTables, text: string, cursor: nat)
    requires forall p :: cursor <= p < |text| ==> t.isSpace(text[p])
    ensures Tiled(t, text, cursor, [])
  {
  }

  lemma OneTile(t: CharTables, text: string, cursor: nat, first: Unit)
    requires UnitOk(t, text, first) && cursor <= first.start
    requires forall p :: cursor <= p < |text| && !(first.start <= p < first.end) ==> t.isSpace(text[p])
    ensures Tiled(t, text, cursor, [first])
  {
    hide UnitOk;
    assert [first][0] == first;
    forall p | cursor <= p < |text| && !t.isSpace(text[p])
      ensures Covered([first], p)
    {
    }
  }

  lemma CoveredByRest(first: Unit, rest: seq<Unit>, p: int)
    ensures first.start <= p < first.end ==> Covered([first] + rest, p)
    ensures Covered(rest, p) ==> Covered([first] + rest, p)
  {
    var units := [first] + rest;
    assert units[0] == first;
    if k :| 0 <= k < |rest| && rest[k].start <= p < rest[k].end {
      assert units[k + 1] == rest[k];
    }
  }

  lemma OrderedCons(t: CharTables, text: string, next: nat, first: Unit, rest: seq<Unit>)
    requires UnitOk(t, text, first) && first.end <= next && Ordered(t, text, rest)
    requires forall k :: 0 <= k < |rest| ==> next <= rest[k].start
    ensures Ordered(t, text, [first] + rest)
  {
    hide UnitOk;
  }

  lemma MoreTiles(t: CharTables, text: string, cursor: nat, next: nat, first: Unit, rest: seq<Unit>)
    requires UnitOk(t, text, first) && cursor <= first.start < first.end <= next <= |text|
    requires forall p :: cursor <= p < next && !(first.start <= p < first.end) ==> t.isSpace(text[p])
    requires Tiled(t, text, next, rest)
    ensures Tiled(t, text, cursor, [first] + rest)
  {
    hide UnitOk, Ordered, Covered;
    OrderedCons(t, text, next, first, rest);
    forall p | cursor <= p < |text| && !t.isSpace(text[p])
      ensures Covered([first] + rest, p)
    {
      CoveredByRest(first, rest, p);
    }
  }

  // No character is in two units.
  lemma UnitsDisjoint(t: CharTables, text: string, cursor: nat, units: seq<Unit>, j: nat, k: nat, p: nat)
    requires Tiled(t, text, cursor, units) && j < |units| && k < |units|
    requires units[j].start <= p < units[j].end && units[k].start <= p < units[k].end
    ensures j == k
  {
  }

  // --- What the spans are ---

  ghost predicate SpanOk(t: CharTables, text: string, spans: seq<SentenceSpan>, k: int)
    requires 0 <= k < |spans|
  {
    var s := spans[k];
    && s.index == k && s.start < s.end <= |text| && s.text == text[s.start..s.end]
    && !t.isSpace(text[s.start]) && !t.isSpace(text[s.end - 1])
    && (forall p :: s.start <= p < s.end ==> !IsBreak(text[p]))
    && EligibleSentenceText(t, s.text)
  }

  ghost predicate SpanOfUnit(s: SentenceSpan, u: Unit) {
    s.start == u.start && s.end == u.end && s.boundary == u.boundary
  }

  ghost predicate Eligible(t: CharTables, text: string, u: Unit) {
    u.start <= u.end <= |text| && EligibleSentenceText(t, text[u.start..u.end])
  }

  ghost predicate FromUnit(units: seq<Unit>, s: SentenceSpan) {
    exists i :: 0 <= i < |units| && SpanOfUnit(s, units[i])
  }

  ghost predicate HasSpan(spans: seq<SentenceSpan>, u: Unit) {
    exists k :: 0 <= k < |spans| && SpanOfUnit(spans[k], u)
  }

  // The spans are the eligible units, in order: consecutively indexed slices of the text.
  ghost predicate SpansMatch(t: CharTables, text: string, units: seq<Unit>, spans: seq<SentenceSpan>)
    requires Ordered(t, text, units)
  {
    && (forall k :: 0 <= k < |spans| ==> SpanOk(t, text, spans, k))
    && (forall j, k :: 0 <= j < k < |spans| ==> spans[j].end <= spans[k].start)
    && (forall k :: 0 <= k < |spans| ==> FromUnit(units, spans[k]))
    && (forall i :: 0 <= i < |units| && Eligible(t, text, units[i]) ==> HasSpan(spans, units[i]))
  }

  lemma FromMoreUnits(units: seq<Unit>, u: Unit, s: SentenceSpan)
    ensures FromUnit(units, s) || SpanOfUnit(s, u) ==> FromUnit(units + [u], s)
  {
    var all := units + [u];
    assert all[|units|] == u;
    if i :| 0 <= i < |units| && SpanOfUnit(s, units[i]) {
      assert all[i] == units[i];
    }
  }

  lemma HasMoreSpans(spans: seq<SentenceSpan>, s: SentenceSpan, u: Unit)
    ensures HasSpan(spans, u) || SpanOfUnit(s, u) ==> HasSpan(spans + [s], u)
  {
    var more := spans + [s];
    assert more[|spans|] == s;
    if k :| 0 <= k < |spans| && SpanOfUnit(spans[k], u) {
      assert more[k] == spans[k];
    }
  }

  // A span of an earlier unit ends before a later unit starts.
  lemma SpanBefore(t: CharTables, text: string, units: seq<Unit>, u: Unit, s: SentenceSpan)
    requires Ordered(t, text, units + [u]) && FromUnit(units, s)
    ensures s.end <= u.start
  {
    var i :| 0 <= i < |units| && SpanOfUnit(s, units[i]);
    assert (units + [u])[i] == units[i] && (units + [u])[|units|] == u;
  }

  lemma NewSpanOk(t: CharTables, text: string, u: Unit, spans: seq<SentenceSpan>)
    requires UnitOk(t, text, u) && Eligible(t, text, u)
    ensures var s := SentenceSpan(|spans|, u.start, u.end, text[u.start..u.end], u.boundary);
            SpanOk(t, text, spans + [s], |spans|) && SpanOfUnit(s, u)
  {
    hide EligibleSentenceText;
  }

  lemma SpanOkStays(t: CharTables, text: string, spans: seq<SentenceSpan>, s: SentenceSpan, k: nat)
    requires k < |spans| && SpanOk(t, text, spans, k)
    ensures SpanOk(t, text, spans + [s], k)
  {
    hide EligibleSentenceText;
  }

  lemma SpanAppended(t: CharTables, text: string, units: seq<Unit>, u: Unit, spans: seq<SentenceSpan>)
    requires Ordered(t, text, units + [u]) && Ordered(t, text, units) && SpansMatch(t, text, units, spans)
    requires UnitOk(t, text, u) && Eligible(t, text, u)
    ensures SpansMatch(t, text, units + [u],
                       spans + [SentenceSpan(|spans|, u.start, u.end, text[u.start..u.end], u.boundary)])
  {
    hide EligibleSentenceText, Ordered, FromUnit, HasSpan;
    var s := SentenceSpan(|spans|, u.start, u.end, text[u.start..u.end], u.boundary);
    var all, more := units + [u], spans + [s];
    NewSpanOk(t, text, u, spans);
    hide SpanOk, UnitOk, Eligible;
    forall k | 0 <= k < |more|
      ensures SpanOk(t, text, more, k) && FromUnit(all, more[k])
      ensures k < |spans| ==> more[k].end <= u.start
    {
      FromMoreUnits(units, u, more[k]);
      if k < |spans| {
        SpanOkStays(t, text, spans, s, k);
        SpanBefore(t, text, units, u, spans[k]);
      }
    }
    forall i | 0 <= i < |all| && Eligible(t, text, all[i])
      ensures HasSpan(more, all[i])
    {
      HasMoreSpans(spans, s, all[i]);
      if i < |units| {
        assert Eligible(t, text, units[i]);
      }
    }
  }

  lemma SpanSkipped(t: CharTables, text: string, units: seq<Unit>, u: Unit, spans: seq<SentenceSpan>)
    requires Ordered(t, text, units + [u]) && Ordered(t, text, units) && SpansMatch(t, text, units, spans)
    requires u.start <= u.end <= |text| && !Eligible(t, text, u)
    ensures SpansMatch(t, text, units + [u], spans)
  {
    hide EligibleSentenceText, Ordered, UnitOk, FromUnit, HasSpan, SpanOk;
    forall k | 0 <= k < |spans|
      ensures FromUnit(units + [u], spans[k])
    {
      FromMoreUnits(units, u, spans[k]);
    }
  }

  lemma OrderedPrefix(t: CharTables, text: string, units: seq<Unit>, u: Unit)
    requires Ordered(t, text, units + [u])
    ensures Ordered(t, text, units) && UnitOk(t, text, u) && u.start <= u.end <= |text|
  {
    hide UnitOk;
    var all := units + [u];
    assert forall k :: 0 <= k < |units| ==> all[k] == units[k];
    assert all[|units|] == u;
    UnitInText(t, text, u);
  }

  lemma UnitInText(t: CharTables, text: string, u: Unit)
    requires UnitOk(t, text, u)
    ensures u.start < u.end <= |text|
  {
  }

  lemma {:induction false} SpansFromUnits(t: CharTables, text: string, units: seq<Unit>)
    requires Ordered(t, text, units) && InText(text, units)
    ensures SpansMatch(t, text, units, SpansOf(t, text, units))
  {
    if |units| > 0 {
      hide EligibleSentenceText, Ordered, UnitOk, SpansMatch, SpansOf;
      var front, u := units[..|units| - 1], units[|units| - 1];
      assert units == front + [u];
      OrderedPrefix(t, text, front, u);
      UnitInText(t, text, u);
      SpansFromUnits(t, text, front);
      SpansNext(t, text, front, u);
      if Eligible(t, text, u) {
        SpanAppended(t, text, front, u, SpansOf(t, text, front));
      } else {
        SpanSkipped(t, text, front, u, SpansOf(t, text, front));
      }
    }
  }

  lemma SpansNext(t: CharTables, text: string, units: seq<Unit>, u: Unit)
    requires InText(text, units) && u.start <= u.end <= |text|
    ensures InText(text, units + [u])
    ensures var spans := SpansOf(t, text, units);
            SpansOf(t, text, units + [u]) ==
            if u.end > u.start && EligibleSentenceText(t, text[u.start..u.end])
            then spans + [SentenceSpan(|spans|, u.start, u.end, text[u.start..u.end], u.boundary)] else spans
  {
    hide EligibleSentenceText;
    assert (units + [u])[..|units|] == units;
  }

  // The inner loop over one unit.
  // Past the rest of a run of terminal characters and the closing characters after it.
  method PastPunctuation(text: string, from: nat) returns (punctuationEnd: nat)
    requires from <= |text|
    ensures punctuationEnd == SkipClosers(text, SkipTerminals(text, from))
  {
    punctuationEnd := from;
    while punctuationEnd < |text| && IsTerminal(text[punctuationEnd])
      invariant punctuationEnd <= |text|
      invariant SkipTerminals(text, from) == SkipTerminals(text, punctuationEnd)
    {
      punctuationEnd := punctuationEnd + 1;
    }
    while punctuationEnd < |text| && IsCloser(text[punctuationEnd])
      invariant punctuationEnd <= |text|
      invariant SkipClosers(text, SkipTerminals(text, from)) == SkipClosers(text, punctuationEnd)
    {
      punctuationEnd := punctuationEnd + 1;
    }
  }

  method FindEnd(t: CharTables, text: string, start: nat) returns (end: nat, boundary: Boundary)
    requires start < |text|
    ensures (end, boundary) == Scan(t, text, start, start)
  {
    var cursor := start;
    while cursor < |text|
      invariant start <= cursor <= |text|
      invariant Scan(t, text, start, start) == Scan(t, text, start, cursor)
    {
      var character := text[cursor];
      if IsBreak(character) {
        return cursor, Newline;
      }
      if IsTerminal(character) && !IsDecimalPoint(t, text, cursor) {
        var punctuationEnd := PastPunctuation(text, cursor + 1);
        var followsBoundary := punctuationEnd == |text| || t.isSpace(text[punctuationEnd]);
        var abbreviation := character == '.' && IsAbbreviation(text, start, cursor);
        if followsBoundary && !abbreviation {
          return punctuationEnd, Terminal;
        }
      }
      cursor := cursor + 1;
    }
    return |text|, End;
  }

  method Trim(t: CharTables, text: string, start: nat, end: nat) returns (trimmedEnd: nat)
    requires start <= end <= |text|
    ensures trimmedEnd == TrimEnd(t, text, start, end)
  {
    trimmedEnd := end;
    while trimmedEnd > start && t.isSpace(text[trimmedEnd - 1])
      invariant start <= trimmedEnd <= end
      invariant TrimEnd(t, text, start, end) == TrimEnd(t, text, start, trimmedEnd)
    {
      trimmedEnd := trimmedEnd - 1;
    }
  }

  method SkipLeadingSpace(t: CharTables, text: string, from: nat) returns (cursor: nat)
    requires from <= |text|
    ensures cursor == SkipSpace(t, text, from)
  {
    cursor := from;
    while cursor < |text| && t.isSpace(text[cursor])
      invariant from <= cursor <= |text| && SkipSpace(t, text, from) == SkipSpace(t, text, cursor)
    {
      cursor := cursor + 1;
    }
  }

  method PastBreaks(text: string, from: nat) returns (cursor: nat)
    requires from <= |text|
    ensures cursor == SkipBreaks(text, from)
  {
    cursor := from;
    while cursor < |text| && IsBreak(text[cursor])
      invariant from <= cursor <= |text| && SkipBreaks(text, from) == SkipBreaks(text, cursor)
    {
      cursor := cursor + 1;
    }
  }

  // What the scan from cursor adds: nothing more, or a unit and then what follows it.
  lemma UnitsStep(t: CharTables, text: string, cursor: nat)
    requires cursor <= |text| && TablesOk(t)
    ensures var start := SkipSpace(t, text, cursor);
            if start == |text| then Units(t, text, cursor) == [] else
              var (end, boundary) := Scan(t, text, start, start);
              && cursor <= start < end
              && Units(t, text, cursor) == [Unit(start, TrimEnd(t, text, start, end), boundary)]
                                           + if boundary.End? then [] else Units(t, text, SkipBreaks(text, end))
  {
    var start := SkipSpace(t, text, cursor);
    SkipSpaceStops(t, text, cursor);
    if start < |text| {
      ScanAdvances(t, text, start);
    }
  }

  // One pass of the outer loop: the next unit, if any, and where the scan resumes.
  method NextUnit(t: CharTables, text: string, from: nat) returns (unit: Unit, found: bool, cursor: nat)
    requires from < |text| && TablesOk(t)
    ensures found ==> unit.start <= unit.end <= |text|
    ensures found && !unit.boundary.End? ==> from < cursor <= |text|
    ensures Units(t, text, from) ==
            if !found then [] else [unit] + if unit.boundary.End? then [] else Units(t, text, cursor)
  {
    hide Units, Scan, TablesOk;
    UnitsStep(t, text, from);
    cursor := SkipLeadingSpace(t, text, from);
    if cursor >= |text| {
      return Unit(0, 0, End), false, cursor;
    }
    var end, boundary := FindEnd(t, text, cursor);
    var trimmedEnd := Trim(t, text, cursor, end);
    unit := Unit(cursor, trimmedEnd, boundary);
    found := true;
    if !boundary.End? {
      cursor := PastBreaks(text, end);
    }
  }

  lemma UnitsDone(t: CharTables, text: string)
    requires TablesOk(t)
    ensures Units(t, text, |text|) == []
  {
  }

  lemma Regroup(units: seq<Unit>, u: Unit, rest: seq<Unit>)
    ensures units + ([u] + rest) == units + [u] + rest
  {
  }

  // The scanner: every character is scanned, and the spans are the eligible units of the whole text.
  method Spans(t: CharTables, text: string) returns (spans: seq<SentenceSpan>)
    requires TablesOk(t)
    ensures Tiled(t, text, 0, Units(t, text, 0)) && SpansMatch(t, text, Units(t, text, 0), spans)
  {
    UnitsTile(t, text, 0);
    AllOrdered(t, text);
    UnitsDone(t, text);
    hide *;
    ghost var units: seq<Unit> := [];
    ghost var all := Units(t, text, 0);
    ghost var rest := all;
    spans := [];
    NoSpans(t, text);
    var cursor: nat := 0;
    var scanning := true;
    while cursor < |text| && scanning
      invariant cursor <= |text|
      invariant InText(text, units) && spans == SpansOf(t, text, units)
      invariant all == units + rest && rest == if scanning then Units(t, text, cursor) else []
      decreases scanning, |text| - cursor
    {
      var unit, found, next := NextUnit(t, text, cursor);
      if found {
        SpansNext(t, text, units, unit);
        rest := if unit.boundary.End? then [] else Units(t, text, next);
        Regroup(units, unit, rest);
        if unit.end > unit.start && EligibleSentenceText(t, text[unit.start..unit.end]) {
          spans := spans + [SentenceSpan(|spans|, unit.start, unit.end, text[unit.start..unit.end], unit.boundary)];
        }
        units := units + [unit];
      } else {
        rest := [];
      }
      if found && !unit.boundary.End? {
        cursor := next;
      } else {
        scanning := false;
      }
    }
    assert all == units;
    SpansFromUnits(t, text, units);
  }

  lemma NoSpans(t: CharTables, text: string)
    ensures InText(text, []) && SpansOf(t, text, []) == []
  {
  }

  lemma AllOrdered(t: CharTables, text: string)
    requires TablesOk(t) && Tiled(t, text, 0, Units(t, text, 0))
    ensures Ordered(t, text, Units(t, text, 0))
  {
  }
}
