// The ledger of the spending operations as text: printed with six decimals it is read back as itself.
module LedgerDocuments {
  import opened Options
  import L = Ledger
  import opened LedgerText
  import opened LedgerTextRoundTrip

  function KindName(k: L.Kind): string {
    match k
    case Gpu => "gpu"
    case Api => "api"
    case Storage => "storage"
    case Other => "other"
  }

  function StatusName(s: L.Status): string {
    match s
    case Estimated => "estimated"
    case Incurred => "incurred"
  }

  function Dollars(micro: int): real {
    micro as real / 1_000_000.0
  }

  function TextOf(e: L.Entry): TextEntry {
    TextEntry(KindName(e.kind), Dollars(e.amount), e.description, StatusName(e.status), e.occurredAt, e.entryId)
  }

  function DocumentOf(limits: L.Limits, entries: seq<L.Entry>): Document {
    Document(Dollars(limits.gpu), Dollars(limits.api), Dollars(limits.total),
             seq(|entries|, i requires 0 <= i < |entries| => TextOf(entries[i])))
  }

  // A non-negative amount with six decimals.
  function SixDecimals(x: real): string {
    if x < 0.0 then "" else ShowMicro((x * 1_000_000.0).Floor)
  }

  function MicroStyle(lib: Library, plain: (string, string) -> bool): Style {
    Style(lib, SixDecimals, plain)
  }

  // Every text is printable and every amount finite as a double.
  ghost predicate PrintableLedger(limits: L.Limits, entries: seq<L.Entry>) {
    && Dollars(limits.gpu) < OVERFLOW && Dollars(limits.api) < OVERFLOW && Dollars(limits.total) < OVERFLOW
    && forall e :: e in entries ==>
      && e.amount >= 0 && Dollars(e.amount) < OVERFLOW && Printable(e.description) && Printable(e.occurredAt)
      && (e.entryId.Some? ==> Printable(e.entryId.value))
  }

  lemma ShownDollars(style: Style, micro: nat)
    requires style.show == SixDecimals && Dollars(micro) < OVERFLOW
    ensures ShowsNumber(style, Dollars(micro))
  {
    hide NumberValue, ShowMicro;
    MicroIsRead(micro);
    assert Dollars(micro) * 1_000_000.0 == micro as real;
  }

  lemma NamesPrintable(e: L.Entry)
    ensures Printable(KindName(e.kind)) && Printable(StatusName(e.status))
  {
  }

  // Every micro-dollar ledger with printable texts, printed with six decimals, is read back as itself.
  lemma LedgerRoundTrip(lib: Library, plain: (string, string) -> bool, limits: L.Limits, entries: seq<L.Entry>)
    requires PrintableLedger(limits, entries)
    ensures Loaded(lib, Printed(MicroStyle(lib, plain), DocumentOf(limits, entries))) ==
            Some(DocumentOf(limits, entries))
  {
    var style, d := MicroStyle(lib, plain), DocumentOf(limits, entries);
    hide Loaded, Printed, ShowsNumber, Printable, KindName, StatusName, SixDecimals, Dollars;
    ShownDollars(style, limits.gpu);
    ShownDollars(style, limits.api);
    ShownDollars(style, limits.total);
    forall i | 0 <= i < |d.entries|
      ensures PrintableEntry(style, d.entries[i])
    {
      assert entries[i] in entries;
      ShownDollars(style, entries[i].amount);
      NamesPrintable(entries[i]);
    }
    RoundTrip(style, d);
  }

  lemma KindsNamed(a: L.Kind, b: L.Kind)
    requires a != b
    ensures KindName(a) != KindName(b)
  {
    if |KindName(a)| == |KindName(b)| {
      assert KindName(a)[0] != KindName(b)[0];
    }
  }

  lemma TextDetermines(a: L.Entry, b: L.Entry)
    requires TextOf(a) == TextOf(b)
    ensures a == b
  {
    if a.kind != b.kind {
      KindsNamed(a.kind, b.kind);
    }
    assert |StatusName(a.status)| == |StatusName(b.status)|;
    assert Dollars(a.amount) * 1_000_000.0 == a.amount as real && Dollars(b.amount) * 1_000_000.0 == b.amount as real;
  }

  // The text determines the ledger: what is read back gives the caps and every entry again.
  lemma TextDeterminesLedger(lib: Library, plain: (string, string) -> bool, limits: L.Limits, entries: seq<L.Entry>,
                             limits': L.Limits, entries': seq<L.Entry>)
    requires PrintableLedger(limits, entries) && PrintableLedger(limits', entries')
    ensures Printed(MicroStyle(lib, plain), DocumentOf(limits, entries)) ==
            Printed(MicroStyle(lib, plain), DocumentOf(limits', entries'))
            <==> limits == limits' && entries == entries'
  {
    var d, d' := DocumentOf(limits, entries), DocumentOf(limits', entries');
    hide Loaded, Printed, PrintableLedger, KindName, StatusName;
    LedgerRoundTrip(lib, plain, limits, entries);
    LedgerRoundTrip(lib, plain, limits', entries');
    if Printed(MicroStyle(lib, plain), d) == Printed(MicroStyle(lib, plain), d') {
      DollarsDetermine(limits.gpu, limits'.gpu);
      DollarsDetermine(limits.api, limits'.api);
      DollarsDetermine(limits.total, limits'.total);
      hide Dollars, TextOf;
      assert |d.entries| == |d'.entries|;
      forall i | 0 <= i < |entries|
        ensures entries[i] == entries'[i]
      {
        assert d.entries[i] == TextOf(entries[i]) && d'.entries[i] == TextOf(entries'[i]);
        TextDetermines(entries[i], entries'[i]);
      }
    }
  }

  lemma DollarsDetermine(a: int, b: int)
    ensures Dollars(a) == Dollars(b) ==> a == b
  {
    assert Dollars(a) * 1_000_000.0 == a as real && Dollars(b) * 1_000_000.0 == b as real;
  }
}
