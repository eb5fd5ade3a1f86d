// CostLedger: the stored document and the methods that read, check and replace it.
// One method call is one locked transaction.
module CostLedgers {
  import opened Options
  import opened PythonText
  import opened Ledger
  import opened Sums

  datatype Snapshot = Snapshot(incurredBefore: Totals, committedBefore: Totals, committedAfter: Totals)

  datatype BatchSnapshot = BatchSnapshot(totals: Snapshot, created: seq<string>, covered: seq<string>)

  function SnapshotOf(before: seq<Entry>, after: seq<Entry>): Snapshot {
    Snapshot(TotalsOf(before, false), TotalsOf(before, true), TotalsOf(after, true))
  }

  // The ids of the requests the ledger already holds, or of those it lacks, in order.
  function IdsOf(entries: seq<Entry>, requested: seq<Entry>, held: bool): seq<string> {
    if |requested| == 0 then [] else
      var last := requested[|requested| - 1].entryId;
      IdsOf(entries, requested[..|requested| - 1], held)
      + (if last.Some? && HasId(entries, last.value) == held then [last.value] else [])
  }

  class CostLedger {
    const limits: Limits
    var entries: seq<Entry>

    ghost predicate Valid()
      reads this
    {
      ValidLedger(limits, entries)
    }

    // A ledger whose file does not exist yet.
    constructor (limits: Limits)
      ensures this.limits == limits && entries == [] && Valid()
    {
      this.limits := limits;
      entries := [];
    }

    method Append(e: CostEntry) returns (result: Result<Totals, LedgerError>)
      modifies this
      ensures var o := Ledger.Append(limits, old(entries), e);
              && entries == (if o.Ok? then o.value else old(entries))
              && result == (if o.Ok? then Ok(TotalsOf(entries, false)) else Err(o.error))
    {
      if !ValidCost(e) {
        return Err(InvalidCost);
      }
      var candidate := entries + [Normalized(e, None)];
      var committed := ComputeTotals(candidate, true);
      if !WithinLimits(limits, committed) {
        return Err(BudgetExceeded);
      }
      entries := candidate;
      var totals := ComputeTotals(candidate, false);
      return Ok(totals);
    }

    method FindId(id: string) returns (index: Option<nat>)
      ensures index == IndexOf(entries, id)
    {
      var i := 0;
      while i < |entries|
        invariant i <= |entries| && IndexOf(entries, id) == IndexFrom(entries, id, i)
      {
        if entries[i].entryId == Some(id) {
          return Some(i);
        }
        i := i + 1;
      }
      return None;
    }

    method Reserve(id: string, e: CostEntry) returns (result: Result<Totals, LedgerError>)
      modifies this
      ensures var o := Ledger.Reserve(limits, old(entries), id, e);
              && entries == (if o.Ok? then o.value else old(entries))
              && result == (if o.Ok? then Ok(TotalsOf(entries, true)) else Err(o.error))
    {
      if id == "" {
        return Err(InvalidId);
      }
      if e.status != Estimated {
        return Err(WrongStatus);
      }
      if !ValidCost(e) {
        return Err(InvalidCost);
      }
      var normalized := Normalized(e, Some(id));
      var existing := FindId(id);
      var candidate := entries;
      if existing.Some? {
        var item := entries[existing.value];
        if item.status == Incurred {
          if item.kind != normalized.kind {
            return Err(SettledUnderOtherKind);
          }
        } else if !SameContent(item, normalized) {
          return Err(DifferentContent);
        }
        var totals := ComputeTotals(entries, true);
        return Ok(totals);
      }
      candidate := entries + [normalized];
      var totals := ComputeTotals(candidate, true);
      if !WithinLimits(limits, totals) {
        return Err(BudgetExceeded);
      }
      entries := candidate;
      return Ok(totals);
    }

    method ReserveOnce(id: string, e: CostEntry, ceilings: Ceilings, exclusive: bool)
      returns (result: Result<Snapshot, LedgerError>)
      modifies this
      ensures var o := Ledger.ReserveOnce(limits, old(entries), id, e, ceilings, exclusive);
              && entries == (if o.Ok? then o.value else old(entries))
              && result == (if o.Ok? then Ok(SnapshotOf(old(entries), entries)) else Err(o.error))
    {
      if id == "" {
        return Err(InvalidId);
      }
      if e.status != Estimated {
        return Err(WrongStatus);
      }
      if !ValidCeilings(ceilings) {
        return Err(UnknownCeiling);
      }
      if !ValidCost(e) {
        return Err(InvalidCost);
      }
      var existing := FindId(id);
      if existing.Some? {
        return Err(Conflict);
      }
      if exclusive && Outstanding(entries, e.kind) {
        return Err(Conflict);
      }
      var incurredBefore := ComputeTotals(entries, false);
      var committedBefore := ComputeTotals(entries, true);
      var candidate := entries + [Normalized(e, Some(id))];
      var committedAfter := ComputeTotals(candidate, true);
      if !WithinLimits(limits, committedAfter) {
        return Err(BudgetExceeded);
      }
      if !UnderAll(ceilings, committedAfter) {
        return Err(BudgetExceeded);
      }
      entries := candidate;
      return Ok(Snapshot(incurredBefore, committedBefore, committedAfter));
    }

    method SettleReservation(id: string, e: CostEntry) returns (result: Result<Totals, LedgerError>)
      modifies this
      ensures var o := Settle(limits, old(entries), id, e);
              && entries == (if o.Ok? then o.value else old(entries))
              && result == (if o.Ok? then Ok(TotalsOf(entries, false)) else Err(o.error))
    {
      if id == "" {
        return Err(InvalidId);
      }
      if e.status != Incurred {
        return Err(WrongStatus);
      }
      var matching := FindId(id);
      if matching.None? {
        return Err(MissingReservation);
      }
      var existing := entries[matching.value];
      if !ValidCost(e) {
        return Err(InvalidCost);
      }
      var normalized := Normalized(e, Some(id));
      var totals;
      if existing.status == Incurred {
        if !SameContent(existing, normalized) {
          return Err(DifferentContent);
        }
        totals := ComputeTotals(entries, false);
        return Ok(totals);
      }
      if existing.kind != normalized.kind {
        return Err(SettledUnderOtherKind);
      }
      var candidate := entries[matching.value := normalized];
      var committed := ComputeTotals(candidate, true);
      if !WithinLimits(limits, committed) {
        return Err(BudgetExceeded);
      }
      entries := candidate;
      totals := ComputeTotals(candidate, false);
      return Ok(totals);
    }

    // The batch's requests without repetitions, or the first thing wrong with them.
    method CollectRequests(reservations: seq<Reservation>) returns (requested: Outcome)
      ensures requested == Requested(reservations)
    {
      hide Requested, IndexFrom, IndexOf, ValidCost;
      var wantedById: map<string, nat> := map[];
      NoRequests(reservations);
      var ordered: seq<Entry> := [];
      var i := 0;
      while i < |reservations|
        invariant i <= |reservations| && Requested(reservations[..i]) == Ok(ordered)
        invariant forall id :: id in wantedById <==> HasId(ordered, id)
        invariant forall id :: id in wantedById ==> IndexOf(ordered, id) == Some(wantedById[id])
      {
        var r := reservations[i];
        RequestedStep(reservations, i);
        if r.id == "" {
          RequestedStops(reservations, i + 1);
          return Err(InvalidId);
        }
        if r.cost.status != Estimated {
          RequestedStops(reservations, i + 1);
          return Err(WrongStatus);
        }
        if !ValidCost(r.cost) {
          RequestedStops(reservations, i + 1);
          return Err(InvalidCost);
        }
        var normalized := Normalized(r.cost, Some(r.id));
        if r.id in wantedById {
          if !SameContent(ordered[wantedById[r.id]], normalized) {
            RequestedStops(reservations, i + 1);
            return Err(DifferentContent);
          }
        } else {
          IndexAfterAppend(ordered, normalized);
          wantedById := wantedById[r.id := |ordered|];
          ordered := ordered + [normalized];
        }
        i := i + 1;
      }
      assert reservations[..i] == reservations;
      return Ok(ordered);
    }

    method CollectAdditions(requested: seq<Entry>)
      returns (additions: Outcome, created: seq<string>, covered: seq<string>)
      requires forall w :: w in requested ==> w.entryId.Some?
      ensures additions == Additions(entries, requested)
      ensures additions.Ok? ==>
              created == IdsOf(entries, requested, false) && covered == IdsOf(entries, requested, true)
    {
      hide Additions, IndexFrom, IndexOf, IdsOf;
      var fresh': seq<Entry> := [];
      created, covered := [], [];
      var i := 0;
      NoAdditions(entries, requested);
      while i < |requested|
        invariant i <= |requested| && Additions(entries, requested[..i]) == Ok(fresh')
        invariant created == IdsOf(entries, requested[..i], false) && covered == IdsOf(entries, requested[..i], true)
      {
        var wanted := requested[i];
        AdditionsStep(entries, requested, i);
        IdsStep(entries, requested, i);
        var existing := FindId(wanted.entryId.value);
        if existing.None? {
          fresh' := fresh' + [wanted];
          created := created + [wanted.entryId.value];
        } else {
          var item := entries[existing.value];
          if item.status == Incurred {
            if item.kind != wanted.kind {
              AdditionsStop(entries, requested, i + 1);
              return Err(SettledUnderOtherKind), [], [];
            }
          } else if !SameContent(item, wanted) {
            AdditionsStop(entries, requested, i + 1);
            return Err(DifferentContent), [], [];
          }
          covered := covered + [wanted.entryId.value];
        }
        i := i + 1;
      }
      assert requested[..i] == requested;
      return Ok(fresh'), created, covered;
    }

    method ReserveBatch(reservations: seq<Reservation>, required: seq<string>, rejected: seq<string>)
      returns (result: Result<BatchSnapshot, LedgerError>)
      modifies this
      ensures var o := Ledger.ReserveBatch(limits, old(entries), reservations, required, rejected);
              && entries == (if o.Ok? then o.value else old(entries))
              && (o.Err? ==> result == Err(o.error))
              && (o.Ok? ==> Requested(reservations).Ok? && result == Ok(BatchSnapshot(
                                SnapshotOf(old(entries), entries),
                                IdsOf(old(entries), Requested(reservations).value, false),
                                IdsOf(old(entries), Requested(reservations).value, true))))
    {
      var requested := CollectRequests(reservations);
      if requested.Err? {
        return Err(requested.error);
      }
      if !UsableIds(required) || !Distinct(required) || !UsableIds(rejected) {
        return Err(InvalidId);
      }
      if exists i :: 0 <= i < |required| && !HasId(entries, required[i]) {
        return Err(RequiredMissing);
      }
      if exists i :: 0 <= i < |rejected| && HasIncurred(entries, rejected[i]) {
        return Err(IncurredRejected);
      }
      RequestedIds(reservations);
      var additions, created, covered := CollectAdditions(requested.value);
      if additions.Err? {
        return Err(additions.error);
      }
      var incurredBefore := ComputeTotals(entries, false);
      var committedBefore := ComputeTotals(entries, true);
      var candidate := entries + additions.value;
      var committedAfter := ComputeTotals(candidate, true);
      if !WithinLimits(limits, committedAfter) {
        return Err(BudgetExceeded);
      }
      // An empty batch rewrites nothing; the candidate is then the stored document itself.
      if |additions.value| > 0 {
        entries := candidate;
      } else {
        assert candidate == entries;
      }
      return Ok(BatchSnapshot(Snapshot(incurredBefore, committedBefore, committedAfter), created, covered));
    }
  }

  lemma NoRequests(reservations: seq<Reservation>)
    ensures Requested(reservations[..0]) == Ok([]) && forall id :: !HasId([], id)
  {
  }

  lemma NoAdditions(entries: seq<Entry>, requested: seq<Entry>)
    ensures Additions(entries, requested[..0]) == Ok([])
    ensures IdsOf(entries, requested[..0], false) == [] && IdsOf(entries, requested[..0], true) == []
  {
  }

  lemma RequestedStep(reservations: seq<Reservation>, i: nat)
    requires i < |reservations|
    ensures Requested(reservations[..i + 1]) ==
            var front := Requested(reservations[..i]);
            if front.Err? then front else NextRequest(front.value, reservations[i])
  {
    hide NextRequest;
    assert reservations[..i + 1][..i] == reservations[..i];
  }

  lemma {:induction false} RequestedStops(reservations: seq<Reservation>, i: nat)
    requires i <= |reservations| && Requested(reservations[..i]).Err?
    ensures Requested(reservations) == Requested(reservations[..i])
    decreases |reservations| - i
  {
    if i == |reservations| {
      assert reservations[..i] == reservations;
    } else {
      RequestedStep(reservations, i);
      RequestedStops(reservations, i + 1);
    }
  }

  lemma AdditionsStep(entries: seq<Entry>, requested: seq<Entry>, i: nat)
    requires i < |requested|
    ensures Additions(entries, requested[..i + 1]) ==
            var front := Additions(entries, requested[..i]);
            if front.Err? then front else NextAddition(entries, front.value, requested[i])
  {
    hide NextAddition;
    assert requested[..i + 1][..i] == requested[..i];
  }

  lemma IdsStep(entries: seq<Entry>, requested: seq<Entry>, i: nat)
    requires i < |requested| && requested[i].entryId.Some?
    ensures var id := requested[i].entryId.value;
            forall held :: IdsOf(entries, requested[..i + 1], held) ==
              if HasId(entries, id) == held then IdsOf(entries, requested[..i], held) + [id]
                else IdsOf(entries, requested[..i], held)
  {
    hide HasId;
    assert requested[..i + 1][..i] == requested[..i];
  }

  lemma {:induction false} AdditionsStop(entries: seq<Entry>, requested: seq<Entry>, i: nat)
    requires i <= |requested| && Additions(entries, requested[..i]).Err?
    ensures Additions(entries, requested) == Additions(entries, requested[..i])
    decreases |requested| - i
  {
    if i == |requested| {
      assert requested[..i] == requested;
    } else {
      AdditionsStep(entries, requested, i);
      AdditionsStop(entries, requested, i + 1);
    }
  }

  lemma IndexAfterAppend(entries: seq<Entry>, e: Entry)
    requires e.entryId.Some? && !HasId(entries, e.entryId.value)
    ensures IndexOf(entries + [e], e.entryId.value) == Some(|entries|)
    ensures forall id :: id != e.entryId.value ==> IndexOf(entries + [e], id) == IndexOf(entries, id)
  {
    forall id
      ensures IndexOf(entries + [e], id) == if id == e.entryId.value then Some(|entries|) else IndexOf(entries, id)
    {
      var before, after := IndexOf(entries, id), IndexOf(entries + [e], id);
      assert forall k :: 0 <= k < |entries| ==> (entries + [e])[k] == entries[k];
      assert (entries + [e])[|entries|] == e;
    }
  }

  lemma {:induction false} RequestedIds(reservations: seq<Reservation>)
    requires Requested(reservations).Ok?
    ensures forall w :: w in Requested(reservations).value ==> w.entryId.Some? && w.status == Estimated && w.amount >= 0
                                                               && !Blank(w.description) && w.entryId.value != ""
    ensures UniqueIds(Requested(reservations).value)
  {
    if |reservations| > 0 {
      RequestedIds(reservations[..|reservations| - 1]);
    }
  }
}
