// The cost ledger as text: the strict reader used where no YAML library is installed, and a printer for its subset.
module LedgerText {
  import opened Options
  import opened PythonText

  datatype TextEntry = TextEntry(kind: string, amount: real, description: string, status: string, occurredAt: string,
                                 entryId: Option<string>)

  datatype Document = Document(gpu: real, api: real, total: real, entries: seq<TextEntry>)

  // json.loads on a quoted string, and str.casefold.
  datatype Library = Library(json: string -> Option<string>, casefold: string -> string)

  // --- Strings ---

  predicate StartsWith(s: string, prefix: string) {
    |prefix| <= |s| && s[..|prefix|] == prefix
  }

  predicate Contains(s: string, part: string) {
    exists i :: 0 <= i <= |s| && StartsWith(s[i..], part)
  }

  predicate Stripped(s: string) {
    s == "" || (!IsSpace(s[0]) && !IsSpace(s[|s| - 1]))
  }

  predicate NoControls(s: string) {
    forall i :: 0 <= i < |s| ==> s[i] >= ' '
  }

  // --- Numbers ---

  predicate Digit(c: char) {
    '0' <= c <= '9'
  }

  function DigitsEnd(s: string, i: nat): (end: nat)
    requires i <= |s|
    ensures i <= end <= |s| && (forall k :: i <= k < end ==> Digit(s[k])) && (end < |s| ==> !Digit(s[end]))
    decreases |s| - i
  {
    if i < |s| && Digit(s[i]) then DigitsEnd(s, i + 1) else i
  }

  function Numeral(s: string): int {
    if |s| == 0 then 0 else 10 * Numeral(s[..|s| - 1]) + (s[|s| - 1] as int - '0' as int)
  }

  function PowerOfTen(n: nat): (p: real)
    ensures p > 0.0
  {
    if n == 0 then 1.0 else 10.0 * PowerOfTen(n - 1)
  }

  function Scaled(x: real, negative: bool, exponent: nat): real {
    if negative then x / PowerOfTen(exponent) else x * PowerOfTen(exponent)
  }

  function PointValue(whole: string, part: string): real {
    Numeral(whole) as real + Numeral(part) as real / PowerOfTen(|part|)
  }

  // The integer and fraction part of a number starting at i: its value and where it ends.
  function Fraction(s: string, i: nat): Option<(real, nat)>
    requires i <= |s|
  {
    var whole := DigitsEnd(s, i);
    if whole == i || (s[i] == '0' && whole != i + 1) then None
    else if whole < |s| && s[whole] == '.' then
      var end := DigitsEnd(s, whole + 1);
      if end == whole + 1 then None
      else Some((PointValue(s[i..whole], s[whole + 1..end]), end))
    else Some((PointValue(s[i..whole], ""), whole))
  }

  // The number a text stands for; None where it is not written as one.
  function NumberText(s: string): Option<real> {
    var start := if StartsWith(s, "-") then 1 else 0;
    match Fraction(s, start)
    case None => None
    case Some((x, end)) =>
      var signed := if start == 1 then -x else x;
      if end == |s| then Some(signed)
      else if s[end] != 'e' && s[end] != 'E' then None
      else
        var digits := if end + 1 < |s| && (s[end + 1] == '+' || s[end + 1] == '-') then end + 2 else end + 1;
        if digits < |s| && DigitsEnd(s, digits) == |s|
        then Some(Scaled(signed, s[end + 1] == '-', Natural(s[digits..])))
        else None
  }

  function Natural(s: string): nat {
    if Numeral(s) >= 0 then Numeral(s) else 0
  }

  function PowerOfTwo(n: nat): (p: real)
    ensures p > 0.0
  {
    if n == 0 then 1.0 else 2.0 * PowerOfTwo(n - 1)
  }

  // 2^1024 - 2^970: from here on a number rounds to an infinite double (section 4.3.1 of IEEE 754-2019).
  const OVERFLOW: real := PowerOfTwo(1024) - PowerOfTwo(970)

  // A number field of the ledger: refused when it is not written as a number or is not finite as a double.
  function NumberValue(s: string): Option<real> {
    var x := NumberText(s);
    if x.Some? && -OVERFLOW < x.value < OVERFLOW then x else None
  }

  // --- Scalars ---

  function Unquoted(inner: string): Option<string> {
    if inner == "" then Some("")
    else if inner[0] != '\'' then Prepended([inner[0]], Unquoted(inner[1..]))
    else if |inner| >= 2 && inner[1] == '\'' then Prepended("'", Unquoted(inner[2..]))
    else None
  }

  function Prepended<T>(front: seq<T>, rest: Option<seq<T>>): Option<seq<T>> {
    if rest.None? then None else Some(front + rest.value)
  }

  lemma PrependedTwice<T>(a: seq<T>, b: seq<T>, rest: Option<seq<T>>)
    ensures Prepended(a, Prepended(b, rest)) == Prepended(a + b, rest)
    ensures Prepended([], rest) == rest
  {
    if rest.Some? {
      assert a + (b + rest.value) == (a + b) + rest.value;
      assert [] + rest.value == rest.value;
    }
  }

  const INDICATORS := "!&*{}[],#|>@`"

  const IMPLICIT: seq<string> :=
    ["null", "~", "true", "false", "yes", "no", "on", "off", ".nan", ".inf", "+.inf", "-.inf"]

  predicate UnsafePlain(lib: Library, field: string, raw: string)
    requires raw != ""
  {
    || raw[0] in INDICATORS
    || StartsWith(raw, "- ") || StartsWith(raw, "? ") || StartsWith(raw, ": ")
    || Contains(raw, " #") || Contains(raw, ": ")
    || raw[|raw| - 1] == ':'
    || lib.casefold(raw) in IMPLICIT
    || NumberText(raw).Some?
    || field == "occurred_at"
  }

  predicate WellFormedScalar(raw: string) {
    raw != "" && Stripped(raw) && NoControls(raw)
  }

  // _canonical_yaml_scalar
  function Scalar(lib: Library, field: string, raw: string): Option<string> {
    if !WellFormedScalar(raw) then None
    else if raw[0] == '\'' then
      (if |raw| < 2 || raw[|raw| - 1] != '\'' then None else Unquoted(raw[1..|raw| - 1]))
    else if raw[0] == '"' then lib.json(raw)
    else if UnsafePlain(lib, field, raw) then None
    else Some(raw)
  }

  method DecodeQuoted(inner: string) returns (decoded: Option<string>)
    ensures decoded == Unquoted(inner)
  {
    var done: string := [];
    var index := 0;
    PrependedTwice([], [], Unquoted(inner));
    assert inner[0..] == inner;
    while index < |inner|
      invariant 0 <= index <= |inner|
      invariant Unquoted(inner) == Prepended(done, Unquoted(inner[index..]))
    {
      var character := inner[index];
      var rest := inner[index..];
      if character != '\'' {
        assert rest[1..] == inner[index + 1..];
        PrependedTwice(done, [character], Unquoted(rest[1..]));
        done := done + [character];
        index := index + 1;
      } else {
        if index + 1 >= |inner| || inner[index + 1] != '\'' {
          return None;
        }
        assert rest[2..] == inner[index + 2..];
        PrependedTwice(done, "'", Unquoted(rest[2..]));
        done := done + "'";
        index := index + 2;
      }
    }
    assert done + "" == done;
    return Some(done);
  }

  method DecodeScalar(lib: Library, field: string, raw: string) returns (decoded: Option<string>)
    ensures decoded == Scalar(lib, field, raw)
  {
    hide UnsafePlain, Stripped, NoControls;
    if !WellFormedScalar(raw) {
      return None;
    }
    if raw[0] == '\'' {
      if |raw| < 2 || raw[|raw| - 1] != '\'' {
        return None;
      }
      decoded := DecodeQuoted(raw[1..|raw| - 1]);
      return;
    }
    if raw[0] == '"' {
      return lib.json(raw);
    }
    if UnsafePlain(lib, field, raw) {
      return None;
    }
    return Some(raw);
  }

  // --- Lines ---

  predicate IsBreak(c: char) {
    || c == '\n' || c == '\r' || c == '\U{000b}' || c == '\U{000c}' || '\U{001c}' <= c <= '\U{001e}'
    || c == '\U{0085}' || c == '\U{2028}' || c == '\U{2029}'
  }

  // str.splitlines on text without carriage returns.
  function SplitLines(text: string): seq<string> {
    if text == "" then []
    else
      var end := LineEnd(text, 0);
      if end == |text| then [text] else [text[..end]] + SplitLines(text[end + 1..])
  }

  function LineEnd(text: string, i: nat): (end: nat)
    requires i <= |text|
    ensures i <= end <= |text| && (forall k :: i <= k < end ==> !IsBreak(text[k]))
            && (end < |text| ==> IsBreak(text[end]))
    decreases |text| - i
  {
    if i < |text| && !IsBreak(text[i]) then LineEnd(text, i + 1) else i
  }

  function Field(name: string): string {
    "  " + name + ": "
  }

  const KIND := "- kind: "

  // What follows the prefix on one line, if the line is there and has it.
  function After(lines: seq<string>, index: nat, prefix: string): Option<string> {
    if index < |lines| && StartsWith(lines[index], prefix) then Some(lines[index][|prefix|..]) else None
  }

  function ScalarAt(lib: Library, lines: seq<string>, index: nat, prefix: string, field: string): Option<string> {
    var raw := After(lines, index, prefix);
    if raw.None? then None else Scalar(lib, field, raw.value)
  }

  function NumberAt(lines: seq<string>, index: nat, prefix: string): Option<real> {
    var raw := After(lines, index, prefix);
    if raw.None? then None else NumberValue(raw.value)
  }

  // One entry starting at a line: the entry and the line after it.
  function ReadEntry(lib: Library, lines: seq<string>, index: nat): (r: Option<(TextEntry, nat)>)
    ensures r.Some? ==> index + 5 <= r.value.1 <= |lines|
  {
    var kind := ScalarAt(lib, lines, index, KIND, "kind");
    var amount := NumberAt(lines, index + 1, Field("amount_usd"));
    var description := ScalarAt(lib, lines, index + 2, Field("description"), "description");
    var status := ScalarAt(lib, lines, index + 3, Field("status"), "status");
    var occurredAt := ScalarAt(lib, lines, index + 4, Field("occurred_at"), "occurred_at");
    if kind.None? || amount.None? || description.None? || status.None? || occurredAt.None? then None
    else WithId(lib, lines, index + 5,
                TextEntry(kind.value, amount.value, description.value, status.value, occurredAt.value, None))
  }

  // The optional last line of an entry.
  function WithId(lib: Library, lines: seq<string>, index: nat, e: TextEntry): (r: Option<(TextEntry, nat)>)
    requires index <= |lines|
    ensures r.Some? ==> index <= r.value.1 <= |lines|
  {
    if After(lines, index, Field("entry_id")).None? then Some((e, index))
    else
      var id := ScalarAt(lib, lines, index, Field("entry_id"), "entry_id");
      if id.None? then None else Some((e.(entryId := id), index + 1))
  }

  function ReadEntries(lib: Library, lines: seq<string>, index: nat): Option<seq<TextEntry>>
    decreases |lines| - index
  {
    if index >= |lines| then Some([])
    else
      var first := ReadEntry(lib, lines, index);
      if first.None? then None
      else Prepended([first.value.0], ReadEntries(lib, lines, first.value.1))
  }

  const HEADER: seq<string> := ["schema_version: 1", "currency: USD", "hard_stops:"]

  function ReadLines(lib: Library, lines: seq<string>): Option<Document> {
    if |lines| < 7 || lines[..3] != HEADER then None
    else
      var gpu, api, total := NumberAt(lines, 3, Field("gpu")), NumberAt(lines, 4, Field("api")),
        NumberAt(lines, 5, Field("total"));
      if gpu.None? || api.None? || total.None? then None
      else if lines[6] == "entries: []" then
        (if |lines| == 7 then Some(Document(gpu.value, api.value, total.value, [])) else None)
      else if lines[6] != "entries:" then None
      else
        var entries := ReadEntries(lib, lines, 7);
        if entries.None? then None else Some(Document(gpu.value, api.value, total.value, entries.value))
  }

  predicate WellEncoded(text: string) {
    '\r' !in text && '\t' !in text && text != "" && text[|text| - 1] == '\n'
  }

  function Loaded(lib: Library, text: string): Option<Document> {
    if !WellEncoded(text) then None else ReadLines(lib, SplitLines(text))
  }

  method TakeScalar(lib: Library, lines: seq<string>, index: nat, prefix: string, field: string)
    returns (value: Option<string>)
    ensures value == ScalarAt(lib, lines, index, prefix, field)
  {
    if index >= |lines| || !StartsWith(lines[index], prefix) {
      return None;
    }
    value := DecodeScalar(lib, field, lines[index][|prefix|..]);
  }

  method ReadOneEntry(lib: Library, lines: seq<string>, start: nat) returns (r: Option<(TextEntry, nat)>)
    ensures r == ReadEntry(lib, lines, start)
  {
    hide Scalar, NumberValue, StartsWith, Field;
    var kind := TakeScalar(lib, lines, start, KIND, "kind");
    if kind.None? {
      return None;
    }
    var index := start + 1;
    var amount := NumberAt(lines, index, Field("amount_usd"));
    if amount.None? {
      return None;
    }
    index := index + 1;
    var description := TakeScalar(lib, lines, index, Field("description"), "description");
    if description.None? {
      return None;
    }
    index := index + 1;
    var status := TakeScalar(lib, lines, index, Field("status"), "status");
    if status.None? {
      return None;
    }
    index := index + 1;
    var occurredAt := TakeScalar(lib, lines, index, Field("occurred_at"), "occurred_at");
    if occurredAt.None? {
      return None;
    }
    index := index + 1;
    var id: Option<string> := None;
    if index < |lines| && StartsWith(lines[index], Field("entry_id")) {
      id := TakeScalar(lib, lines, index, Field("entry_id"), "entry_id");
      if id.None? {
        return None;
      }
      index := index + 1;
    }
    return Some((TextEntry(kind.value, amount.value, description.value, status.value, occurredAt.value, id), index));
  }

  method Load(lib: Library, text: string) returns (document: Option<Document>)
    ensures document == Loaded(lib, text)
  {
    hide ReadEntry, SplitLines, NumberAt, WellEncoded, Field;
    if !WellEncoded(text) {
      return None;
    }
    var lines := SplitLines(text);
    if |lines| < 7 || lines[..3] != HEADER {
      return None;
    }
    var gpu, api, total := NumberAt(lines, 3, Field("gpu")), NumberAt(lines, 4, Field("api")),
      NumberAt(lines, 5, Field("total"));
    if gpu.None? || api.None? || total.None? {
      return None;
    }
    if lines[6] == "entries: []" {
      if |lines| != 7 {
        return None;
      }
      return Some(Document(gpu.value, api.value, total.value, []));
    }
    if lines[6] != "entries:" {
      return None;
    }
    var entries: seq<TextEntry> := [];
    var index := 7;
    PrependedTwice([], [], ReadEntries(lib, lines, 7));
    while index < |lines|
      invariant index >= 7
      invariant ReadEntries(lib, lines, 7) == Prepended(entries, ReadEntries(lib, lines, index))
      decreases |lines| - index
    {
      var entry := ReadOneEntry(lib, lines, index);
      if entry.None? {
        return None;
      }
      PrependedTwice(entries, [entry.value.0], ReadEntries(lib, lines, entry.value.1));
      entries := entries + [entry.value.0];
      index := entry.value.1;
    }
    assert entries + [] == entries;
    return Some(Document(gpu.value, api.value, total.value, entries));
  }

  // --- The printer ---

  function Doubled(s: string): string {
    if s == "" then "" else (if s[0] == '\'' then "''" else [s[0]]) + Doubled(s[1..])
  }

  function Quoted(s: string): string {
    "'" + Doubled(s) + "'"
  }

  predicate Printable(s: string) {
    forall i :: 0 <= i < |s| ==> ' ' <= s[i] <= '~'
  }

  // Text that may stand without quotes in a field.
  predicate PlainAllowed(lib: Library, field: string, s: string) {
    WellFormedScalar(s) && s[0] != '\'' && s[0] != '"' && !UnsafePlain(lib, field, s)
  }

  // How a writer lays a document out: numbers, and which strings it leaves unquoted.
  datatype Style = Style(lib: Library, show: real -> string, plain: (string, string) -> bool)

  function Emit(style: Style, field: string, s: string): string {
    if style.plain(field, s) && PlainAllowed(style.lib, field, s) then s else Quoted(s)
  }

  function EntryLines(style: Style, e: TextEntry): seq<string> {
    [KIND + Emit(style, "kind", e.kind),
     Field("amount_usd") + style.show(e.amount),
     Field("description") + Emit(style, "description", e.description),
     Field("status") + Emit(style, "status", e.status),
     Field("occurred_at") + Emit(style, "occurred_at", e.occurredAt)]
    + (if e.entryId.None? then [] else [Field("entry_id") + Emit(style, "entry_id", e.entryId.value)])
  }

  function EntriesLines(style: Style, entries: seq<TextEntry>): seq<string> {
    if |entries| == 0 then [] else EntryLines(style, entries[0]) + EntriesLines(style, entries[1..])
  }

  function Preamble(style: Style, d: Document): seq<string> {
    HEADER + [Field("gpu") + style.show(d.gpu), Field("api") + style.show(d.api), Field("total") + style.show(d.total),
              if d.entries == [] then "entries: []" else "entries:"]
  }

  function Joined(lines: seq<string>): string {
    if |lines| == 0 then "" else lines[0] + "\n" + Joined(lines[1..])
  }

  function Printed(style: Style, d: Document): string {
    Joined(Preamble(style, d) + EntriesLines(style, d.entries))
  }

  // The printer must write numbers the reader reads back.
  ghost predicate ShowsNumber(style: Style, x: real) {
    NumberValue(style.show(x)) == Some(x)
  }

  ghost predicate PrintableEntry(style: Style, e: TextEntry) {
    && ShowsNumber(style, e.amount)
    && Printable(e.kind) && Printable(e.description) && Printable(e.status) && Printable(e.occurredAt)
    && (e.entryId.Some? ==> Printable(e.entryId.value))
  }

  ghost predicate PrintableDocument(style: Style, d: Document) {
    && ShowsNumber(style, d.gpu) && ShowsNumber(style, d.api) && ShowsNumber(style, d.total)
    && forall i :: 0 <= i < |d.entries| ==> PrintableEntry(style, d.entries[i])
  }
}
