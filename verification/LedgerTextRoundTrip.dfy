// Printing a ledger and reading it back returns the same document.
module LedgerTextRoundTrip {
  import opened Options
  import opened LedgerText

  // --- Scalars ---

  lemma {:induction false} DoubledThenUnquoted(s: string)
    ensures Unquoted(Doubled(s)) == Some(s)
  {
    if s != "" {
      var rest := Doubled(s[1..]);
      DoubledThenUnquoted(s[1..]);
      if s[0] == '\'' {
        assert ("''" + rest)[2..] == rest;
        assert "'" + s[1..] == s;
      } else {
        assert ([s[0]] + rest)[1..] == rest;
        assert [s[0]] + s[1..] == s;
      }
    }
  }

  lemma {:induction false} DoubledPrintable(s: string)
    requires Printable(s)
    ensures Printable(Doubled(s))
  {
    if s != "" {
      DoubledPrintable(s[1..]);
    }
  }

  // Any printable text is emitted so that the reader returns it, quoted or not.
  lemma EmittedIsRead(style: Style, field: string, s: string)
    requires Printable(s)
    ensures Scalar(style.lib, field, Emit(style, field, s)) == Some(s) && Printable(Emit(style, field, s))
  {
    if style.plain(field, s) && PlainAllowed(style.lib, field, s) {
    } else {
      var raw := Quoted(s);
      DoubledPrintable(s);
      DoubledThenUnquoted(s);
      assert raw[0] == '\'' && raw[|raw| - 1] == '\'';
      assert raw[1..|raw| - 1] == Doubled(s);
      assert Printable(raw);
    }
  }

  // --- Numbers ---

  predicate NumberChar(c: char) {
    Digit(c) || c == '-' || c == '+' || c == '.' || c == 'e' || c == 'E'
  }

  lemma FractionChars(s: string, i: nat)
    requires i <= |s| && Fraction(s, i).Some?
    ensures i < Fraction(s, i).value.1 <= |s|
    ensures forall k :: i <= k < Fraction(s, i).value.1 ==> NumberChar(s[k])
  {
  }

  // A number's text has only digits, signs, a point and an exponent mark.
  lemma NumberPrintable(s: string)
    requires NumberValue(s).Some?
    ensures Printable(s)
  {
    var start := if StartsWith(s, "-") then 1 else 0;
    FractionChars(s, start);
    var end := Fraction(s, start).value.1;
    forall k | 0 <= k < |s|
      ensures NumberChar(s[k])
    {
      if k < start {
        assert s[..1][0] == '-';
      }
    }
  }

  // --- One entry ---

  lemma AfterPrefix(lines: seq<string>, index: nat, prefix: string, raw: string)
    requires index < |lines| && lines[index] == prefix + raw
    ensures After(lines, index, prefix) == Some(raw)
  {
    assert lines[index][..|prefix|] == prefix;
    assert lines[index][|prefix|..] == raw;
  }

  lemma ScalarLine(style: Style, lines: seq<string>, index: nat, prefix: string, field: string, s: string)
    requires Printable(s) && index < |lines| && lines[index] == prefix + Emit(style, field, s)
    ensures ScalarAt(style.lib, lines, index, prefix, field) == Some(s)
  {
    EmittedIsRead(style, field, s);
    AfterPrefix(lines, index, prefix, Emit(style, field, s));
  }

  lemma NumberLine(style: Style, lines: seq<string>, index: nat, prefix: string, x: real)
    requires ShowsNumber(style, x) && index < |lines| && lines[index] == prefix + style.show(x)
    ensures NumberAt(lines, index, prefix) == Some(x)
  {
    AfterPrefix(lines, index, prefix, style.show(x));
  }

  // The line after an entry does not look like an entry id.
  ghost predicate Separated(lines: seq<string>, index: nat) {
    index < |lines| ==> StartsWith(lines[index], KIND)
  }

  lemma OwnLine(style: Style, lines: seq<string>, index: nat, e: TextEntry, k: nat)
    requires k < |EntryLines(style, e)|
    requires var n := |EntryLines(style, e)|; index + n <= |lines| && lines[index..index + n] == EntryLines(style, e)
    ensures index + k < |lines| && lines[index + k] == EntryLines(style, e)[k]
  {
    hide EntryLines;
    assert lines[index..index + |EntryLines(style, e)|][k] == lines[index + k];
  }

  lemma EntryIsRead(style: Style, lines: seq<string>, index: nat, e: TextEntry)
    requires PrintableEntry(style, e)
    requires var n := |EntryLines(style, e)|;
             && index + n <= |lines| && lines[index..index + n] == EntryLines(style, e)
             && Separated(lines, index + n)
    ensures ReadEntry(style.lib, lines, index) == Some((e, index + |EntryLines(style, e)|))
  {
    hide Scalar, NumberValue, Emit, StartsWith, Field, After, ScalarAt, NumberAt, Printable, Separated;
    EntryHasLines(style, e);
    forall k | 0 <= k < |EntryLines(style, e)| {
      OwnLine(style, lines, index, e, k);
    }
    ScalarLine(style, lines, index, KIND, "kind", e.kind);
    NumberLine(style, lines, index + 1, Field("amount_usd"), e.amount);
    ScalarLine(style, lines, index + 2, Field("description"), "description", e.description);
    ScalarLine(style, lines, index + 3, Field("status"), "status", e.status);
    ScalarLine(style, lines, index + 4, Field("occurred_at"), "occurred_at", e.occurredAt);
    if e.entryId.Some? {
      ScalarLine(style, lines, index + 5, Field("entry_id"), "entry_id", e.entryId.value);
      AfterPrefix(lines, index + 5, Field("entry_id"), Emit(style, "entry_id", e.entryId.value));
    } else {
      NotAnId(lines, index + 5);
    }
  }

  lemma OneStart(s: string, p: string, q: string)
    requires |p| > 0 && |q| > 0 && p[0] != q[0] && StartsWith(s, p)
    ensures !StartsWith(s, q)
  {
    assert s[0] == s[..|p|][0];
    assert |s| >= |q| ==> s[0] == s[..|q|][0];
  }

  lemma NotAnId(lines: seq<string>, index: nat)
    requires Separated(lines, index)
    ensures After(lines, index, Field("entry_id")).None?
  {
    if index < |lines| {
      OneStart(lines[index], KIND, Field("entry_id"));
    }
  }

  // --- All entries ---

  lemma FirstLine(style: Style, entries: seq<TextEntry>)
    requires |entries| > 0
    ensures |EntriesLines(style, entries)| > 0 && StartsWith(EntriesLines(style, entries)[0], KIND)
  {
    var first := EntryLines(style, entries[0])[0];
    assert first[..|KIND|] == KIND;
  }

  lemma {:induction false} EntriesAreRead(style: Style, head: seq<string>, entries: seq<TextEntry>)
    requires forall i :: 0 <= i < |entries| ==> PrintableEntry(style, entries[i])
    ensures ReadEntries(style.lib, head + EntriesLines(style, entries), |head|) == Some(entries)
    decreases |entries|
  {
    hide ReadEntry, EntryLines, PrintableEntry, StartsWith;
    var lines := head + EntriesLines(style, entries);
    if |entries| > 0 {
      var own, rest := EntryLines(style, entries[0]), EntriesLines(style, entries[1..]);
      assert lines == (head + own) + rest;
      assert lines[|head|..|head| + |own|] == own;
      if |entries| > 1 {
        FirstLine(style, entries[1..]);
      }
      EntryHasLines(style, entries[0]);
      EntryIsRead(style, lines, |head|, entries[0]);
      EntriesAreRead(style, head + own, entries[1..]);
      assert [entries[0]] + entries[1..] == entries;
    }
  }

  lemma EntryHasLines(style: Style, e: TextEntry)
    ensures |EntryLines(style, e)| >= 5
  {
  }

  // --- Splitting the text into lines ---

  lemma LineEndIs(text: string, i: nat, end: nat)
    requires i <= end < |text| && IsBreak(text[end]) && forall k :: i <= k < end ==> !IsBreak(text[k])
    ensures LineEnd(text, i) == end
  {
  }

  lemma {:induction false} SplitJoined(lines: seq<string>)
    requires forall i :: 0 <= i < |lines| ==> Printable(lines[i])
    ensures SplitLines(Joined(lines)) == lines
  {
    if |lines| > 0 {
      var text := Joined(lines);
      SplitJoined(lines[1..]);
      LineEndIs(text, 0, |lines[0]|);
      assert text[..|lines[0]|] == lines[0];
      assert text[|lines[0]| + 1..] == Joined(lines[1..]);
      assert [lines[0]] + lines[1..] == lines;
    }
  }

  lemma {:induction false} JoinedEncoded(lines: seq<string>)
    requires |lines| > 0 && forall i :: 0 <= i < |lines| ==> Printable(lines[i])
    ensures WellEncoded(Joined(lines))
  {
    var text := Joined(lines);
    if |lines| > 1 {
      JoinedEncoded(lines[1..]);
    }
    assert text == lines[0] + "\n" + Joined(lines[1..]);
  }

  lemma LinePrintable(prefix: string, raw: string)
    requires Printable(prefix) && Printable(raw)
    ensures Printable(prefix + raw)
  {
  }

  lemma EntryPrefixes()
    ensures Printable(KIND) && Printable(Field("amount_usd")) && Printable(Field("description"))
            && Printable(Field("status"))
    ensures Printable(Field("occurred_at")) && Printable(Field("entry_id"))
  {
  }

  lemma EntryLinesPrintable(style: Style, e: TextEntry)
    requires PrintableEntry(style, e)
    ensures forall i :: 0 <= i < |EntryLines(style, e)| ==> Printable(EntryLines(style, e)[i])
  {
    hide Emit, NumberValue, Printable, Field, Scalar;
    EntryPrefixes();
    EmittedLine(style, KIND, "kind", e.kind);
    NumberPrintable(style.show(e.amount));
    LinePrintable(Field("amount_usd"), style.show(e.amount));
    EmittedLine(style, Field("description"), "description", e.description);
    EmittedLine(style, Field("status"), "status", e.status);
    EmittedLine(style, Field("occurred_at"), "occurred_at", e.occurredAt);
    if e.entryId.Some? {
      EmittedLine(style, Field("entry_id"), "entry_id", e.entryId.value);
    }
  }

  lemma EmittedLine(style: Style, prefix: string, field: string, s: string)
    requires Printable(prefix) && Printable(s)
    ensures Printable(prefix + Emit(style, field, s))
  {
    EmittedIsRead(style, field, s);
    LinePrintable(prefix, Emit(style, field, s));
  }

  lemma {:induction false} EntriesLinesPrintable(style: Style, entries: seq<TextEntry>)
    requires forall i :: 0 <= i < |entries| ==> PrintableEntry(style, entries[i])
    ensures forall i :: 0 <= i < |EntriesLines(style, entries)| ==> Printable(EntriesLines(style, entries)[i])
  {
    hide EntryLines, PrintableEntry, Printable;
    if |entries| > 0 {
      EntryLinesPrintable(style, entries[0]);
      EntriesLinesPrintable(style, entries[1..]);
    }
  }

  lemma PreamblePrefixes()
    ensures Printable("schema_version: 1") && Printable("currency: USD") && Printable("hard_stops:")
    ensures Printable("entries: []") && Printable("entries:")
    ensures Printable(Field("gpu")) && Printable(Field("api")) && Printable(Field("total"))
  {
  }

  lemma PreamblePrintable(style: Style, d: Document)
    requires PrintableDocument(style, d)
    ensures forall i :: 0 <= i < |Preamble(style, d)| ==> Printable(Preamble(style, d)[i])
  {
    hide NumberValue, PrintableEntry, Printable, Field;
    PreamblePrefixes();
    NumberPrintable(style.show(d.gpu));
    NumberPrintable(style.show(d.api));
    NumberPrintable(style.show(d.total));
    LinePrintable(Field("gpu"), style.show(d.gpu));
    LinePrintable(Field("api"), style.show(d.api));
    LinePrintable(Field("total"), style.show(d.total));
  }

  // --- The document ---

  lemma LinesAreRead(style: Style, d: Document)
    requires PrintableDocument(style, d)
    ensures ReadLines(style.lib, Preamble(style, d) + EntriesLines(style, d.entries)) == Some(d)
  {
    hide NumberValue, PrintableEntry, ReadEntries, Field, After, StartsWith, NumberAt, EntriesLines, HEADER;
    var preamble := Preamble(style, d);
    var lines := preamble + EntriesLines(style, d.entries);
    PreambleLength(style, d);
    NumberLine(style, lines, 3, Field("gpu"), d.gpu);
    NumberLine(style, lines, 4, Field("api"), d.api);
    NumberLine(style, lines, 5, Field("total"), d.total);
    EntriesAreRead(style, preamble, d.entries);
    assert lines[..3] == preamble[..3] == HEADER;
    assert lines[6] == preamble[6];
    assert |"entries: []"| != |"entries:"|;
    if d.entries == [] {
      NoEntriesLines(style);
      assert lines == preamble;
    }
  }

  lemma NoEntriesLines(style: Style)
    ensures EntriesLines(style, []) == []
  {
  }

  // Reading back what was printed returns the same document, for any number of entries and any permitted quoting.
  lemma RoundTrip(style: Style, d: Document)
    requires PrintableDocument(style, d)
    ensures Loaded(style.lib, Printed(style, d)) == Some(d)
  {
    hide NumberValue, PrintableEntry, ReadLines, EntriesLines, Preamble, WellEncoded, SplitLines;
    var lines := Preamble(style, d) + EntriesLines(style, d.entries);
    PreamblePrintable(style, d);
    EntriesLinesPrintable(style, d.entries);
    LinesAreRead(style, d);
    SplitJoined(lines);
    assert |Preamble(style, d)| == 7 by {
      PreambleLength(style, d);
    }
    JoinedEncoded(lines);
  }

  lemma PreambleLength(style: Style, d: Document)
    ensures |Preamble(style, d)| == 7 && Preamble(style, d)[..3] == HEADER
  {
  }

  // Two documents that print the same are the same.
  lemma PrintingIsInjective(style: Style, a: Document, b: Document)
    requires PrintableDocument(style, a) && PrintableDocument(style, b)
    ensures Printed(style, a) == Printed(style, b) <==> a == b
  {
    RoundTrip(style, a);
    RoundTrip(style, b);
  }

  // --- A number printer that qualifies for every ledger amount ---

  function Decimal(n: nat): string
    decreases n
  {
    (if n < 10 then "" else Decimal(n / 10)) + [('0' as int + n % 10) as char]
  }

  // Exactly k digits, with leading zeros.
  function Padded(n: nat, k: nat): string
    decreases k
  {
    if k == 0 then "" else Padded(n / 10, k - 1) + [('0' as int + n % 10) as char]
  }

  function ShowMicro(micro: nat): string {
    Decimal(micro / 1_000_000) + "." + Padded(micro % 1_000_000, 6)
  }

  ghost predicate AllDigits(s: string) {
    forall k :: 0 <= k < |s| ==> Digit(s[k])
  }

  lemma {:induction false} DecimalIsNumeral(n: nat)
    ensures Numeral(Decimal(n)) == n && AllDigits(Decimal(n)) && |Decimal(n)| > 0
    ensures Decimal(n)[0] == '0' ==> n == 0
    ensures n < 10 ==> |Decimal(n)| == 1
    decreases n
  {
    var s := Decimal(n);
    if n >= 10 {
      DecimalIsNumeral(n / 10);
    }
    assert s[..|s| - 1] == (if n < 10 then "" else Decimal(n / 10));
  }

  lemma {:induction false} PaddedIsNumeral(n: nat, k: nat)
    requires n as real < PowerOfTen(k)
    ensures Numeral(Padded(n, k)) == n && AllDigits(Padded(n, k)) && |Padded(n, k)| == k
    decreases k
  {
    if k > 0 {
      var s := Padded(n, k);
      assert n == 10 * (n / 10) + n % 10;
      PaddedIsNumeral(n / 10, k - 1);
      assert s[..|s| - 1] == Padded(n / 10, k - 1);
    }
  }

  lemma DigitsEndIs(s: string, i: nat, end: nat)
    requires i <= end <= |s| && (forall k :: i <= k < end ==> Digit(s[k])) && (end < |s| ==> !Digit(s[end]))
    ensures DigitsEnd(s, i) == end
  {
  }

  lemma SixPlaces()
    ensures PowerOfTen(6) == 1_000_000.0
  {
    assert PowerOfTen(3) == 1000.0;
  }

  // Whole and fraction digits around a point are a number without sign or exponent.
  lemma PointText(whole: string, part: string)
    requires AllDigits(whole) && AllDigits(part) && |whole| > 0 && |part| > 0 && (whole[0] == '0' ==> |whole| == 1)
    ensures NumberText(whole + "." + part) == Some(PointValue(whole, part))
  {
    hide PointValue, Fraction;
    FractionIs(whole, part);
    NoSign(whole + "." + part);
  }

  lemma MicroParts(dollars: nat, rest: nat)
    ensures (1_000_000 * dollars + rest) as real / 1_000_000.0 == dollars as real + rest as real / 1_000_000.0
  {
    assert (1_000_000 * dollars + rest) as real == 1_000_000.0 * dollars as real + rest as real;
  }

  lemma MicroValue(dollars: nat, rest: nat)
    requires rest < 1_000_000
    ensures PointValue(Decimal(dollars), Padded(rest, 6)) == (1_000_000 * dollars + rest) as real / 1_000_000.0
  {
    hide Decimal, Padded, Numeral, PowerOfTen;
    SixPlaces();
    DecimalIsNumeral(dollars);
    PaddedIsNumeral(rest, 6);
    MicroParts(dollars, rest);
  }

  // Six fixed decimals stand for the amount in micro-dollars.
  lemma MicroText(micro: nat)
    ensures NumberText(ShowMicro(micro)) == Some(micro as real / 1_000_000.0)
  {
    hide NumberText, PointValue, Decimal, Padded, Numeral, PowerOfTen;
    var dollars, rest := micro / 1_000_000, micro % 1_000_000;
    SixPlaces();
    DecimalIsNumeral(dollars);
    PaddedIsNumeral(rest, 6);
    PointText(Decimal(dollars), Padded(rest, 6));
    MicroValue(dollars, rest);
    assert micro == 1_000_000 * dollars + rest;
  }

  // They are read back exactly, for every amount that does not overflow.
  lemma MicroIsRead(micro: nat)
    ensures var x := micro as real / 1_000_000.0;
            NumberValue(ShowMicro(micro)) == if x < OVERFLOW then Some(x) else None
  {
    hide NumberText, ShowMicro, PowerOfTwo;
    MicroText(micro);
    OverflowPositive();
    assert micro as real / 1_000_000.0 >= 0.0;
  }

  lemma {:induction false} PowersGrow(m: nat, n: nat)
    requires m < n
    ensures PowerOfTwo(m) < PowerOfTwo(n)
  {
    if m + 1 < n {
      PowersGrow(m, n - 1);
    }
  }

  lemma OverflowPositive()
    ensures OVERFLOW > 0.0
  {
    PowersGrow(970, 1024);
  }

  lemma NoSign(s: string)
    requires |s| > 0 && Digit(s[0])
    ensures !StartsWith(s, "-")
  {
    assert s[..1][0] == s[0];
  }

  lemma FractionIs(whole: string, part: string)
    requires AllDigits(whole) && AllDigits(part) && |whole| > 0 && |part| > 0 && (whole[0] == '0' ==> |whole| == 1)
    ensures var s := whole + "." + part;
            Fraction(s, 0) == Some((PointValue(whole, part), |s|))
  {
    hide PointValue, DigitsEnd;
    var s := whole + "." + part;
    DigitsEndIs(s, 0, |whole|);
    DigitsEndIs(s, |whole| + 1, |s|);
    assert s[0..|whole|] == whole;
    assert s[|whole| + 1..|s|] == part;
    assert s[0] == whole[0] && s[|whole|] == '.';
  }
}
