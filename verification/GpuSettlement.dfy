// Using a GPU receipt again: the check against the ledger, and the settlement of a stopped session.
module GpuSettlement {
  import opened Options
  import opened PythonText
  import opened Ledger
  import opened CostLedgers
  import opened LedgerRuns
  import opened GpuBudget

  function Matching(entries: seq<Entry>, id: string): seq<Entry> {
    if |entries| == 0 then [] else
      Matching(entries[..|entries| - 1], id)
        + (if entries[|entries| - 1].entryId == Some(id) then [entries[|entries| - 1]] else [])
  }

  method CollectMatching(entries: seq<Entry>, id: string) returns (matching: seq<Entry>)
    ensures matching == Matching(entries, id)
  {
    matching := [];
    for i := 0 to |entries|
      invariant matching == Matching(entries[..i], id)
    {
      assert entries[..i + 1][..i] == entries[..i];
      if entries[i].entryId == Some(id) {
        matching := matching + [entries[i]];
      }
    }
    assert entries[..|entries|] == entries;
  }

  // Ids are unique in a valid ledger, so an id matches its one entry or nothing.
  lemma {:induction false} MatchingIsTheEntry(entries: seq<Entry>, id: string)
    requires UniqueIds(entries)
    ensures Matching(entries, id) == match IndexOf(entries, id) case None => [] case Some(i) => [entries[i]]
  {
    if |entries| > 0 {
      var front, last := entries[..|entries| - 1], entries[|entries| - 1];
      MatchingIsTheEntry(front, id);
      if IndexOf(front, id).Some? {
        assert front[IndexOf(front, id).value] == entries[IndexOf(front, id).value];
      }
    }
  }

  // Whether a matching entry still carries the receipt.
  predicate Carries(entries: seq<Entry>, e: Entry, r: Receipt) {
    && e.kind == Gpu && e.description == r.description()
    && (e.status == Estimated ==>
          Close(e.amount, r.phaseMaximum) && Close(Total(entries, Gpu, true), r.committedGpuAfter))
  }

  function ValidatedEntry(limits: Limits, entries: seq<Entry>, r: Receipt, active: bool): Result<Entry, GpuError> {
    var matching := Matching(entries, r.reservationId);
    if !Close(limits.gpu, r.gpuHardStop) || !Close(limits.total, r.priorCommittedTotal + r.remainingTotal)
      then Err(GateError)
    else if |matching| != 1 then Err(GateError)
    else if !Carries(entries, matching[0], r) then Err(GateError)
    else if active && matching[0].status != Estimated then Err(Inactive)
    else Ok(matching[0])
  }

  method ValidateLedgerEntry(ledger: CostLedger, r: Receipt, active: bool) returns (result: Result<Entry, GpuError>)
    ensures result == ValidatedEntry(ledger.limits, ledger.entries, r, active)
  {
    if !Close(ledger.limits.gpu, r.gpuHardStop) {
      return Err(GateError);
    }
    if !Close(ledger.limits.total, r.priorCommittedTotal + r.remainingTotal) {
      return Err(GateError);
    }
    var matching := CollectMatching(ledger.entries, r.reservationId);
    if |matching| != 1 {
      return Err(GateError);
    }
    var e := matching[0];
    if e.kind != Gpu || e.description != r.description() {
      return Err(GateError);
    }
    if e.status == Estimated {
      if !Close(e.amount, r.phaseMaximum) {
        return Err(GateError);
      }
      var committed := ComputeTotals(ledger.entries, true);
      if !Close(committed.gpu, r.committedGpuAfter) {
        return Err(GateError);
      }
    }
    if active && e.status != Estimated {
      return Err(Inactive);
    }
    return Ok(e);
  }

  function Settling(hash: Hash, limits: Limits, entries: seq<Entry>, r: Receipt, amount: int,
                    at: string): Result<seq<Entry>, GpuError> {
    if !ReceiptConsistent(hash, r) then Err(GateError)
    else
      var held := ValidatedEntry(limits, entries, r, false);
      if held.Err? then Err(held.error)
      else if amount < 0 then Err(InvalidArgument)
      else
        var o := Settle(limits, entries, r.reservationId, r.SettlementEntry(amount, at));
        if o.Err? then Err(Refused(o.error)) else Ok(o.value)
  }

  method SettleGpuPhaseBudget(hash: Hash, ledger: CostLedger, r: Receipt, amount: int, at: string)
    returns (result: Result<Totals, GpuError>)
    requires ledger.Valid()
    modifies ledger
    ensures var o := Settling(hash, ledger.limits, old(ledger.entries), r, amount, at);
            && ledger.entries == (if o.Ok? then o.value else old(ledger.entries))
            && result == (if o.Ok? then Ok(TotalsOf(ledger.entries, false)) else Err(o.error))
  {
    hide Settle, ValidatedEntry, ReceiptConsistent, ValidLedger, TotalsOf;
    if !ReceiptConsistent(hash, r) {
      return Err(GateError);
    }
    var held := ValidateLedgerEntry(ledger, r, false);
    if held.Err? {
      return Err(held.error);
    }
    if amount < 0 {
      return Err(InvalidArgument);
    }
    var settled := ledger.SettleReservation(r.reservationId, r.SettlementEntry(amount, at));
    if settled.Err? {
      return Err(Refused(settled.error));
    }
    return Ok(settled.value);
  }

  // --- A granted reservation over the rest of a run ---

  ghost predicate Reserved(limits: Limits, entries: seq<Entry>, r: Receipt) {
    && ValidLedger(limits, entries)
    && Close(limits.gpu, r.gpuHardStop) && Close(limits.total, r.priorCommittedTotal + r.remainingTotal)
    && HasId(entries, r.reservationId)
    && Held(entries, r).kind == Gpu
    && (Held(entries, r).status == Estimated ==>
          Held(entries, r).description == r.description() && Held(entries, r).amount == r.phaseMaximum)
  }

  function Held(entries: seq<Entry>, r: Receipt): (e: Entry)
    requires HasId(entries, r.reservationId)
    ensures e in entries && e.entryId == Some(r.reservationId)
  {
    entries[IndexOf(entries, r.reservationId).value]
  }

  lemma IndexUnique(entries: seq<Entry>, id: string, i: nat)
    requires UniqueIds(entries) && i < |entries| && entries[i].entryId == Some(id)
    ensures IndexOf(entries, id) == Some(i)
  {
  }

  // A reservation is in the ledger as soon as it is granted, and every run keeps it there.
  lemma GrantReserved(hash: Hash, limits: Limits, entries: seq<Entry>, q: Request, at: string, ops: seq<Op>)
    requires ValidLedger(limits, entries) && Reserving(hash, limits, entries, q, at).Ok?
    ensures var g := Reserving(hash, limits, entries, q, at).value;
            Reserved(limits, Run(limits, g.entries, ops), g.receipt)
  {
    hide Reserving, ReserveOnce, Run, IndexFrom, IndexOf, HoursFor, TotalsOf, SafetyCeiling, CeilMicro, Blank,
      Outstanding;
    var g := Reserving(hash, limits, entries, q, at).value;
    GrantFacts(hash, limits, entries, q, at);
    GrantSpend(hash, limits, entries, q, at);
    ReservingValid(hash, limits, entries, q, at);
    RunSafe(limits, g.entries, ops);
    var later := Run(limits, g.entries, ops);
    assert Kept(g.entries[|entries|], later[|entries|]);
    IndexUnique(later, g.receipt.reservationId, |entries|);
  }

  // The exact condition under which the ledger still backs a receipt:
  // an open reservation needs an unmoved GPU total, a settled one its own description and a caller that only reads.
  lemma BackedIff(limits: Limits, entries: seq<Entry>, r: Receipt, active: bool)
    requires Reserved(limits, entries, r)
    ensures ValidatedEntry(limits, entries, r, active).Ok? <==>
            if Held(entries, r).status == Estimated then Close(Total(entries, Gpu, true), r.committedGpuAfter)
            else !active && Held(entries, r).description == r.description()
  {
    MatchingIsTheEntry(entries, r.reservationId);
  }

  // Settling an open reservation at or below its maximum is always accepted, and frees the difference.
  lemma SettlementAccepted(hash: Hash, limits: Limits, entries: seq<Entry>, r: Receipt, amount: int, at: string)
    requires ReceiptConsistent(hash, r) && IsHash(r.reservationId) && Reserved(limits, entries, r)
    requires Held(entries, r).status == Estimated && Close(Total(entries, Gpu, true), r.committedGpuAfter)
    requires 0 <= amount <= r.phaseMaximum
    ensures var o := Settling(hash, limits, entries, r, amount, at);
            && o.Ok? && Reserved(limits, o.value, r)
            && Held(o.value, r) == Normalized(r.SettlementEntry(amount, at), Some(r.reservationId))
            && Total(o.value, Gpu, true) == Total(entries, Gpu, true) - r.phaseMaximum + amount
  {
    hide Total, WithinLimits, Blank, Description, IsHash, ReceiptConsistent, ValidatedEntry, IndexOf, WellFormedEntries;
    BackedIff(limits, entries, r, false);
    var e := r.SettlementEntry(amount, at);
    DescriptionNotBlank(r.phase, r.sessionHash);
    HashText(r.reservationId);
    SettleNeverOverCap(limits, entries, r.reservationId, e);
    StepValid(limits, entries, DoSettle(r.reservationId, e));
    var i := IndexOf(entries, r.reservationId).value;
    var next := entries[i := Normalized(e, Some(r.reservationId))];
    IndexUnique(next, r.reservationId, i);
    TotalShift(entries, i, Normalized(e, Some(r.reservationId)));
  }

  lemma HashText(h: string)
    requires IsHash(h)
    ensures h != ""
  {
  }

  lemma TotalShift(entries: seq<Entry>, i: nat, e: Entry)
    requires i < |entries| && entries[i].kind == Gpu && e.kind == Gpu
    ensures Total(entries[i := e], Gpu, true) == Total(entries, Gpu, true) - entries[i].amount + e.amount
  {
    TotalUpdate(entries, i, e, Gpu, true);
  }

  // Settling again with the same amount changes nothing at any later time; a different amount is refused.
  lemma SettlementIdempotent(hash: Hash, limits: Limits, entries: seq<Entry>, r: Receipt, amount: int, at: string,
                             ops: seq<Op>, again: int, at': string)
    requires ReceiptConsistent(hash, r) && IsHash(r.reservationId) && Reserved(limits, entries, r)
    requires Held(entries, r).status == Incurred && Held(entries, r).description == r.description()
    requires again >= 0
    ensures var later := Run(limits, entries, ops);
            Settling(hash, limits, later, r, again, at') ==
            if again == Held(entries, r).amount then Ok(later) else Err(Refused(DifferentContent))
  {
    hide Total, WithinLimits, Blank, Description, IsHash, ReceiptConsistent, ValidatedEntry, IndexOf,
      WellFormedEntries, Run;
    var later := Run(limits, entries, ops);
    RunSafe(limits, entries, ops);
    var i := IndexOf(entries, r.reservationId).value;
    assert Kept(entries[i], later[i]);
    IndexUnique(later, r.reservationId, i);
    BackedIff(limits, later, r, false);
    BackedBy(limits, later, r);
    DescriptionNotBlank(r.phase, r.sessionHash);
    HashText(r.reservationId);
  }

  lemma BackedBy(limits: Limits, entries: seq<Entry>, r: Receipt)
    requires Reserved(limits, entries, r) && ValidatedEntry(limits, entries, r, false).Ok?
    ensures ValidatedEntry(limits, entries, r, false).value == Held(entries, r)
  {
    MatchingIsTheEntry(entries, r.reservationId);
  }
}
