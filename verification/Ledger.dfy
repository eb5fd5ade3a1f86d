// The cost ledger: entries in integer micro-dollars, the hard caps, and the five operations.
module Ledger {
  import opened Options
  import opened PythonText
  import opened Sums

  datatype Kind = Gpu | Api | Storage | Other

  datatype Status = Estimated | Incurred

  datatype Entry = Entry(kind: Kind, amount: int, description: string, status: Status, occurredAt: string,
                         entryId: Option<string>)

  // A caller's cost, before normalisation.
  datatype CostEntry = CostEntry(kind: Kind, amount: int, description: string, status: Status, occurredAt: string)

  datatype Limits = Limits(gpu: nat, api: nat, total: nat)

  datatype LedgerError =
    | InvalidCost | InvalidId | WrongStatus | UnknownCeiling
    | BudgetExceeded | Conflict
    | SettledUnderOtherKind | DifferentContent | MissingReservation | RequiredMissing | IncurredRejected

  type Outcome = Result<seq<Entry>, LedgerError>

  // --- Totals ---

  predicate Counts(e: Entry, kind: Kind, estimates: bool) {
    e.kind == kind && (estimates || e.status == Incurred)
  }

  function Total(entries: seq<Entry>, kind: Kind, estimates: bool): int {
    if |entries| == 0 then 0 else
      var last := entries[|entries| - 1];
      Total(entries[..|entries| - 1], kind, estimates) + (if Counts(last, kind, estimates) then last.amount else 0)
  }

  datatype Totals = Totals(gpu: int, api: int, storage: int, other: int) {
    function total(): int {
      gpu + api + storage + other
    }
  }

  function TotalsOf(entries: seq<Entry>, estimates: bool): Totals {
    Totals(Total(entries, Gpu, estimates), Total(entries, Api, estimates),
           Total(entries, Storage, estimates), Total(entries, Other, estimates))
  }

  // totals: one pass over the entries.
  method ComputeTotals(entries: seq<Entry>, estimates: bool) returns (totals: Totals)
    ensures totals == TotalsOf(entries, estimates)
  {
    var sums := map[Gpu := 0, Api := 0, Storage := 0, Other := 0];
    var i := 0;
    forall k: Kind
      ensures k in sums && sums[k] == 0
    {
      match k
      case Gpu =>
      case Api =>
      case Storage =>
      case Other =>
    }
    while i < |entries|
      invariant i <= |entries|
      invariant forall k: Kind :: k in sums && sums[k] == Total(entries[..i], k, estimates)
    {
      var entry := entries[i];
      assert entries[..i + 1][..i] == entries[..i];
      if estimates || entry.status == Incurred {
        sums := sums[entry.kind := sums[entry.kind] + entry.amount];
      }
      i := i + 1;
    }
    assert entries[..i] == entries;
    return Totals(sums[Gpu], sums[Api], sums[Storage], sums[Other]);
  }

  predicate WithinLimits(limits: Limits, t: Totals) {
    t.gpu <= limits.gpu && t.api <= limits.api && t.total() <= limits.total
  }

  // --- What the stored document always satisfies ---

  ghost predicate UniqueIds(entries: seq<Entry>) {
    forall i, j :: 0 <= i < j < |entries| && entries[i].entryId.Some? ==> entries[i].entryId != entries[j].entryId
  }

  ghost predicate WellFormedEntries(entries: seq<Entry>) {
    forall e :: e in entries ==> e.amount >= 0 && !Blank(e.description) && e.entryId != Some("")
  }

  ghost predicate ValidLedger(limits: Limits, entries: seq<Entry>) {
    WellFormedEntries(entries) && UniqueIds(entries) && WithinLimits(limits, TotalsOf(entries, true))
  }

  // --- Normalisation ---

  predicate ValidCost(e: CostEntry) {
    e.amount >= 0 && !Blank(e.description)
  }

  function Normalized(e: CostEntry, id: Option<string>): Entry {
    Entry(e.kind, e.amount, e.description, e.status, e.occurredAt, id)
  }

  predicate SameContent(a: Entry, b: Entry) {
    a.kind == b.kind && a.amount == b.amount && a.description == b.description && a.status == b.status
  }

  function IndexOf(entries: seq<Entry>, id: string): (r: Option<nat>)
    ensures r.Some? ==> r.value < |entries| && entries[r.value].entryId == Some(id)
    ensures r.Some? ==> forall i :: 0 <= i < r.value ==> entries[i].entryId != Some(id)
    ensures r.None? ==> forall i :: 0 <= i < |entries| ==> entries[i].entryId != Some(id)
  {
    IndexFrom(entries, id, 0)
  }

  function IndexFrom(entries: seq<Entry>, id: string, i: nat): (r: Option<nat>)
    requires i <= |entries|
    ensures r.Some? ==> i <= r.value < |entries| && entries[r.value].entryId == Some(id)
    ensures r.Some? ==> forall k :: i <= k < r.value ==> entries[k].entryId != Some(id)
    ensures r.None? ==> forall k :: i <= k < |entries| ==> entries[k].entryId != Some(id)
    decreases |entries| - i
  {
    if i == |entries| then None
    else if entries[i].entryId == Some(id) then Some(i)
    else IndexFrom(entries, id, i + 1)
  }

  // Adding entries is allowed when the committed totals stay within the caps.
  function Capped(limits: Limits, candidate: seq<Entry>): Outcome {
    if WithinLimits(limits, TotalsOf(candidate, true)) then Ok(candidate) else Err(BudgetExceeded)
  }

  // --- The operations as functions of the stored entries ---

  function Append(limits: Limits, entries: seq<Entry>, e: CostEntry): Outcome {
    if !ValidCost(e) then Err(InvalidCost) else Capped(limits, entries + [Normalized(e, None)])
  }

  function Reserve(limits: Limits, entries: seq<Entry>, id: string, e: CostEntry): Outcome {
    if id == "" then Err(InvalidId)
    else if e.status != Estimated then Err(WrongStatus)
    else if !ValidCost(e) then Err(InvalidCost)
    else match IndexOf(entries, id)
      case None => Capped(limits, entries + [Normalized(e, Some(id))])
      case Some(i) => Covered(entries, entries[i], Normalized(e, Some(id)))
  }

  // An existing entry answers a repeated reservation, or contradicts it.
  function Covered(entries: seq<Entry>, existing: Entry, wanted: Entry): Outcome {
    if existing.status == Incurred then
      (if existing.kind != wanted.kind then Err(SettledUnderOtherKind) else Ok(entries))
    else if !SameContent(existing, wanted) then Err(DifferentContent)
    else Ok(entries)
  }

  datatype Ceilings = Ceilings(gpu: Option<int>, api: Option<int>, storage: Option<int>, other: Option<int>,
                               total: Option<int>)

  const NO_CEILINGS := Ceilings(None, None, None, None, None)

  predicate Under(ceiling: Option<int>, value: int) {
    ceiling.Some? ==> value <= ceiling.value
  }

  predicate UnderAll(c: Ceilings, t: Totals) {
    Under(c.gpu, t.gpu) && Under(c.api, t.api) && Under(c.storage, t.storage) && Under(c.other, t.other)
      && Under(c.total, t.total())
  }

  predicate ValidCeilings(c: Ceilings) {
    && (c.gpu.Some? ==> c.gpu.value >= 0) && (c.api.Some? ==> c.api.value >= 0)
      && (c.storage.Some? ==> c.storage.value >= 0)
    && (c.other.Some? ==> c.other.value >= 0) && (c.total.Some? ==> c.total.value >= 0)
  }

  predicate Outstanding(entries: seq<Entry>, kind: Kind) {
    exists i :: 0 <= i < |entries| && entries[i].kind == kind && entries[i].status == Estimated
  }

  function ReserveOnce(limits: Limits, entries: seq<Entry>, id: string, e: CostEntry, ceilings: Ceilings,
                       exclusive: bool): Outcome {
    if id == "" then Err(InvalidId)
    else if e.status != Estimated then Err(WrongStatus)
    else if !ValidCeilings(ceilings) then Err(UnknownCeiling)
    else if !ValidCost(e) then Err(InvalidCost)
    else if IndexOf(entries, id).Some? then Err(Conflict)
    else if exclusive && Outstanding(entries, e.kind) then Err(Conflict)
    else
      var candidate := entries + [Normalized(e, Some(id))];
      var after := TotalsOf(candidate, true);
      if WithinLimits(limits, after) && UnderAll(ceilings, after) then Ok(candidate) else Err(BudgetExceeded)
  }

  function Settle(limits: Limits, entries: seq<Entry>, id: string, e: CostEntry): Outcome {
    if id == "" then Err(InvalidId)
    else if e.status != Incurred then Err(WrongStatus)
    else match IndexOf(entries, id)
      case None => Err(MissingReservation)
      case Some(i) =>
        if !ValidCost(e) then Err(InvalidCost)
        else if entries[i].status == Incurred then
          (if SameContent(entries[i], Normalized(e, Some(id))) then Ok(entries) else Err(DifferentContent))
        else if entries[i].kind != e.kind then Err(SettledUnderOtherKind)
        else Capped(limits, entries[i := Normalized(e, Some(id))])
  }

  // --- Batch reservation ---

  datatype Reservation = Reservation(id: string, cost: CostEntry)

  // The distinct requests of a batch in order of first mention.
  function Requested(reservations: seq<Reservation>): Outcome {
    if |reservations| == 0 then Ok([]) else
      var front := Requested(reservations[..|reservations| - 1]);
      if front.Err? then front else NextRequest(front.value, reservations[|reservations| - 1])
  }

  function NextRequest(ordered: seq<Entry>, r: Reservation): Outcome {
    if r.id == "" then Err(InvalidId)
    else if r.cost.status != Estimated then Err(WrongStatus)
    else if !ValidCost(r.cost) then Err(InvalidCost)
    else
      var wanted := Normalized(r.cost, Some(r.id));
      match IndexOf(ordered, r.id)
      case None => Ok(ordered + [wanted])
      case Some(i) => if SameContent(ordered[i], wanted) then Ok(ordered) else Err(DifferentContent)
  }

  // The requests not in the ledger yet; an error if one contradicts the ledger.
  function Additions(entries: seq<Entry>, requested: seq<Entry>): Outcome {
    if |requested| == 0 then Ok([]) else
      var front := Additions(entries, requested[..|requested| - 1]);
      if front.Err? then front else NextAddition(entries, front.value, requested[|requested| - 1])
  }

  function NextAddition(entries: seq<Entry>, additions: seq<Entry>, wanted: Entry): Outcome {
    if wanted.entryId.None? then Err(InvalidId)
    else match IndexOf(entries, wanted.entryId.value)
      case None => Ok(additions + [wanted])
      case Some(i) =>
        var covered := Covered(entries, entries[i], wanted);
        if covered.Err? then covered else Ok(additions)
  }

  predicate HasId(entries: seq<Entry>, id: string) {
    IndexOf(entries, id).Some?
  }

  predicate HasIncurred(entries: seq<Entry>, id: string) {
    var i := IndexOf(entries, id);
    i.Some? && entries[i.value].status == Incurred
  }

  predicate UsableIds(ids: seq<string>) {
    forall i :: 0 <= i < |ids| ==> ids[i] != ""
  }

  function ReserveBatch(limits: Limits, entries: seq<Entry>, reservations: seq<Reservation>, required: seq<string>,
                        rejected: seq<string>): Outcome {
    var requested := Requested(reservations);
    if requested.Err? then requested
    else if !UsableIds(required) || !Distinct(required) || !UsableIds(rejected) then Err(InvalidId)
    else if exists i :: 0 <= i < |required| && !HasId(entries, required[i]) then Err(RequiredMissing)
    else if exists i :: 0 <= i < |rejected| && HasIncurred(entries, rejected[i]) then Err(IncurredRejected)
    else
      var additions := Additions(entries, requested.value);
      if additions.Err? then additions else Capped(limits, entries + additions.value)
  }
}
