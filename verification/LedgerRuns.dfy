// Every interleaving of ledger operations: what no run can break.
module LedgerRuns {
  import opened Options
  import opened PythonText
  import opened Ledger
  import opened CostLedgers
  import opened Sums

  datatype Op =
    | DoAppend(cost: CostEntry)
    | DoReserve(id: string, cost: CostEntry)
    | DoReserveOnce(id: string, cost: CostEntry, ceilings: Ceilings, exclusive: bool)
    | DoReserveBatch(reservations: seq<Reservation>, required: seq<string>, rejected: seq<string>)
    | DoSettle(id: string, cost: CostEntry)

  function Outcomes(limits: Limits, entries: seq<Entry>, op: Op): Outcome {
    match op
    case DoAppend(e) => Append(limits, entries, e)
    case DoReserve(id, e) => Reserve(limits, entries, id, e)
    case DoReserveOnce(id, e, c, x) => ReserveOnce(limits, entries, id, e, c, x)
    case DoReserveBatch(rs, req, rej) => ReserveBatch(limits, entries, rs, req, rej)
    case DoSettle(id, e) => Settle(limits, entries, id, e)
  }

  // A refused operation leaves the ledger as it was.
  function Step(limits: Limits, entries: seq<Entry>, op: Op): seq<Entry> {
    var o := Outcomes(limits, entries, op);
    if o.Ok? then o.value else entries
  }

  function Run(limits: Limits, entries: seq<Entry>, ops: seq<Op>): seq<Entry> {
    if |ops| == 0 then entries else Step(limits, Run(limits, entries, ops[..|ops| - 1]), ops[|ops| - 1])
  }

  // --- Arithmetic of totals ---

  lemma {:induction false} TotalAppend(a: seq<Entry>, b: seq<Entry>, kind: Kind, estimates: bool)
    ensures Total(a + b, kind, estimates) == Total(a, kind, estimates) + Total(b, kind, estimates)
    decreases |b|
  {
    if |b| == 0 {
      assert a + b == a;
    } else {
      assert (a + b)[..|a + b| - 1] == a + b[..|b| - 1];
      TotalAppend(a, b[..|b| - 1], kind, estimates);
    }
  }

  function Share(e: Entry, kind: Kind, estimates: bool): int {
    if Counts(e, kind, estimates) then e.amount else 0
  }

  lemma {:induction false} TotalUpdate(entries: seq<Entry>, i: nat, e: Entry, kind: Kind, estimates: bool)
    requires i < |entries|
    ensures Total(entries[i := e], kind, estimates) ==
            Total(entries, kind, estimates) - Share(entries[i], kind, estimates) + Share(e, kind, estimates)
  {
    var last := |entries| - 1;
    if i < last {
      TotalUpdate(entries[..last], i, e, kind, estimates);
      assert entries[i := e][..last] == entries[..last][i := e];
    } else {
      assert entries[i := e][..last] == entries[..last];
    }
  }

  lemma {:induction false} TotalNonNegative(entries: seq<Entry>, kind: Kind)
    requires WellFormedEntries(entries)
    ensures 0 <= Total(entries, kind, false) <= Total(entries, kind, true)
  {
    if |entries| > 0 {
      TotalNonNegative(entries[..|entries| - 1], kind);
      assert entries[|entries| - 1] in entries;
    }
  }

  // --- One step ---

  // Entries keep their place; an incurred entry never changes, and an estimate changes only by being settled in kind.
  ghost predicate Grows(before: seq<Entry>, after: seq<Entry>) {
    && |before| <= |after|
    && forall i :: 0 <= i < |before| ==> Kept(before[i], after[i])
  }

  ghost predicate Kept(a: Entry, b: Entry) {
    || b == a
    || (a.status == Estimated && b.status == Incurred && b.kind == a.kind && b.entryId == a.entryId && a.entryId.Some?)
  }

  lemma GrowsTransitive(a: seq<Entry>, b: seq<Entry>, c: seq<Entry>)
    requires Grows(a, b) && Grows(b, c)
    ensures Grows(a, c)
  {
    forall i | 0 <= i < |a|
      ensures Kept(a[i], c[i])
    {
      assert Kept(a[i], b[i]) && Kept(b[i], c[i]);
    }
  }

  lemma AppendedValid(entries: seq<Entry>, e: Entry)
    requires WellFormedEntries(entries) && UniqueIds(entries)
    requires e.amount >= 0 && !Blank(e.description) && e.entryId != Some("")
    requires e.entryId.Some? ==> IndexOf(entries, e.entryId.value).None?
    ensures WellFormedEntries(entries + [e]) && UniqueIds(entries + [e])
  {
  }

  lemma SettledValid(entries: seq<Entry>, i: nat, e: Entry)
    requires WellFormedEntries(entries) && UniqueIds(entries) && i < |entries|
    requires e.amount >= 0 && !Blank(e.description) && e.entryId == entries[i].entryId && e.entryId.Some?
    ensures WellFormedEntries(entries[i := e]) && UniqueIds(entries[i := e])
  {
    var next := entries[i := e];
    assert entries[i] in entries;
    forall x | x in next
      ensures x.amount >= 0 && !Blank(x.description) && x.entryId != Some("")
    {
      assert x == e || x in entries;
    }
  }

  lemma NextAdditionIs(entries: seq<Entry>, additions: seq<Entry>, wanted: Entry)
    requires wanted.entryId.Some? && NextAddition(entries, additions, wanted).Ok?
    ensures NextAddition(entries, additions, wanted).value ==
            if HasId(entries, wanted.entryId.value) then additions else additions + [wanted]
  {
  }

  lemma UniqueAppend(additions: seq<Entry>, front: seq<Entry>, last: Entry)
    requires UniqueIds(additions) && UniqueIds(front + [last]) && last.entryId.Some?
    requires forall w :: w in additions ==> w in front
    ensures UniqueIds(additions + [last])
  {
    forall k | 0 <= k < |additions|
      ensures additions[k].entryId != last.entryId
    {
      assert additions[k] in front;
      var j :| 0 <= j < |front| && front[j] == additions[k];
      assert (front + [last])[j].entryId != (front + [last])[|front|].entryId;
    }
  }

  // The additions are the requested entries whose ids the ledger does not know.
  lemma {:induction false} AdditionsFresh(entries: seq<Entry>, requested: seq<Entry>)
    requires UniqueIds(requested) && forall w :: w in requested ==> w.entryId.Some?
    requires Additions(entries, requested).Ok?
    ensures var a := Additions(entries, requested).value;
            && UniqueIds(a)
            && (forall w :: w in a <==> w in requested && !HasId(entries, w.entryId.value))
            && (forall w :: w in a ==> w.entryId.Some?)
  {
    hide HasId, NextAddition;
    if |requested| > 0 {
      var front, last := requested[..|requested| - 1], requested[|requested| - 1];
      assert requested == front + [last];
      assert last in requested;
      AdditionsFresh(entries, front);
      var a := Additions(entries, front).value;
      NextAdditionIs(entries, a, last);
      hide UniqueIds;
      UniqueAppend(a, front, last);
    }
  }

  lemma BatchValid(entries: seq<Entry>, additions: seq<Entry>)
    requires WellFormedEntries(entries) && UniqueIds(entries) && WellFormedEntries(additions) && UniqueIds(additions)
    requires forall w :: w in additions ==> w.entryId.Some? && !HasId(entries, w.entryId.value)
    ensures WellFormedEntries(entries + additions) && UniqueIds(entries + additions)
  {
    var all := entries + additions;
    forall i, j | 0 <= i < j < |all| && all[i].entryId.Some?
      ensures all[i].entryId != all[j].entryId
    {
      if i < |entries| <= j {
        assert additions[j - |entries|] in additions;
      }
    }
  }

  // What an accepted batch has added.
  lemma BatchOutcome(limits: Limits, entries: seq<Entry>, rs: seq<Reservation>, required: seq<string>,
                     rejected: seq<string>)
    requires ReserveBatch(limits, entries, rs, required, rejected).Ok?
    ensures Requested(rs).Ok? && Additions(entries, Requested(rs).value).Ok?
    ensures ReserveBatch(limits, entries, rs, required, rejected).value ==
            entries + Additions(entries, Requested(rs).value).value
    ensures WithinLimits(limits, TotalsOf(entries + Additions(entries, Requested(rs).value).value, true))
  {
    hide Requested, Additions, UsableIds, Distinct, HasId, HasIncurred, TotalsOf, WithinLimits;
  }

  lemma AppendGrows(entries: seq<Entry>, additions: seq<Entry>)
    ensures Grows(entries, entries + additions)
  {
  }

  lemma AdditionsWellFormed(entries: seq<Entry>, requested: seq<Entry>, additions: seq<Entry>)
    requires WellFormedEntries(requested)
    requires forall w :: w in additions ==> w in requested
    ensures WellFormedEntries(additions)
  {
  }

  lemma StepBatch(limits: Limits, entries: seq<Entry>, rs: seq<Reservation>, required: seq<string>,
                  rejected: seq<string>)
    requires ValidLedger(limits, entries) && ReserveBatch(limits, entries, rs, required, rejected).Ok?
    ensures ValidLedger(limits, ReserveBatch(limits, entries, rs, required, rejected).value)
    ensures Grows(entries, ReserveBatch(limits, entries, rs, required, rejected).value)
  {
    hide ReserveBatch, Requested, Additions, HasId, WellFormedEntries, UniqueIds, WithinLimits, Grows, TotalsOf;
    BatchOutcome(limits, entries, rs, required, rejected);
    var requested := Requested(rs).value;
    RequestedIds(rs);
    AdditionsFresh(entries, requested);
    var additions := Additions(entries, requested).value;
    AdditionsWellFormed(entries, requested, additions);
    BatchValid(entries, additions);
    AppendGrows(entries, additions);
  }

  lemma GrowsSelf(entries: seq<Entry>)
    ensures Grows(entries, entries)
  {
  }

  // Appending one valid entry with a new id, or none, under the caps.
  lemma StepOne(limits: Limits, entries: seq<Entry>, e: Entry)
    requires ValidLedger(limits, entries) && WithinLimits(limits, TotalsOf(entries + [e], true))
    requires e.amount >= 0 && !Blank(e.description) && e.entryId != Some("")
    requires e.entryId.Some? ==> IndexOf(entries, e.entryId.value).None?
    ensures ValidLedger(limits, entries + [e]) && Grows(entries, entries + [e])
  {
    hide WithinLimits, TotalsOf, Blank, IndexOf, UniqueIds, WellFormedEntries, Grows;
    AppendedValid(entries, e);
    AppendGrows(entries, [e]);
  }

  lemma StepAppend(limits: Limits, entries: seq<Entry>, e: CostEntry)
    requires ValidLedger(limits, entries) && Append(limits, entries, e).Ok?
    ensures ValidLedger(limits, Append(limits, entries, e).value) && Grows(entries, Append(limits, entries, e).value)
  {
    hide WithinLimits, TotalsOf, Blank, ValidLedger, Grows;
    StepOne(limits, entries, Normalized(e, None));
  }

  lemma StepReserve(limits: Limits, entries: seq<Entry>, id: string, e: CostEntry)
    requires ValidLedger(limits, entries) && Reserve(limits, entries, id, e).Ok?
    ensures ValidLedger(limits, Reserve(limits, entries, id, e).value)
            && Grows(entries, Reserve(limits, entries, id, e).value)
  {
    hide WithinLimits, TotalsOf, Blank, ValidLedger, Grows, IndexOf;
    if IndexOf(entries, id).None? {
      StepOne(limits, entries, Normalized(e, Some(id)));
    } else {
      GrowsSelf(entries);
    }
  }

  lemma StepReserveOnce(limits: Limits, entries: seq<Entry>, id: string, e: CostEntry, c: Ceilings, x: bool)
    requires ValidLedger(limits, entries) && ReserveOnce(limits, entries, id, e, c, x).Ok?
    ensures ValidLedger(limits, ReserveOnce(limits, entries, id, e, c, x).value)
    ensures Grows(entries, ReserveOnce(limits, entries, id, e, c, x).value)
  {
    hide WithinLimits, UnderAll, TotalsOf, Blank, ValidLedger, Grows, IndexOf, ValidCeilings, Outstanding;
    StepOne(limits, entries, Normalized(e, Some(id)));
  }

  lemma SettledGrows(entries: seq<Entry>, i: nat, e: Entry)
    requires i < |entries| && entries[i].status == Estimated && e.status == Incurred && e.kind == entries[i].kind
    requires e.entryId == entries[i].entryId && e.entryId.Some?
    ensures Grows(entries, entries[i := e])
  {
  }

  lemma StepSettle(limits: Limits, entries: seq<Entry>, id: string, e: CostEntry)
    requires ValidLedger(limits, entries) && Settle(limits, entries, id, e).Ok?
    ensures ValidLedger(limits, Settle(limits, entries, id, e).value)
            && Grows(entries, Settle(limits, entries, id, e).value)
  {
    hide WithinLimits, TotalsOf, Blank, UniqueIds, WellFormedEntries, Grows, IndexOf;
    var i := IndexOf(entries, id).value;
    if entries[i].status == Estimated {
      SettledValid(entries, i, Normalized(e, Some(id)));
      SettledGrows(entries, i, Normalized(e, Some(id)));
    } else {
      GrowsSelf(entries);
    }
  }

  // Every operation keeps the ledger valid, loses nothing and never touches an incurred entry.
  lemma StepValid(limits: Limits, entries: seq<Entry>, op: Op)
    requires ValidLedger(limits, entries)
    ensures ValidLedger(limits, Step(limits, entries, op)) && Grows(entries, Step(limits, entries, op))
  {
    hide ValidLedger, Grows, Append, Reserve, ReserveOnce, ReserveBatch, Settle;
    GrowsSelf(entries);
    if Outcomes(limits, entries, op).Ok? {
      match op
      case DoAppend(e) => StepAppend(limits, entries, e);
      case DoReserve(id, e) => StepReserve(limits, entries, id, e);
      case DoReserveOnce(id, e, c, x) => StepReserveOnce(limits, entries, id, e, c, x);
      case DoReserveBatch(rs, required, rejected) => StepBatch(limits, entries, rs, required, rejected);
      case DoSettle(id, e) => StepSettle(limits, entries, id, e);
    }
  }

  // --- Whole runs ---

  // Over every run the caps hold, ids stay unique, no entry disappears and no incurred entry changes.
  lemma {:induction false} RunSafe(limits: Limits, entries: seq<Entry>, ops: seq<Op>)
    requires ValidLedger(limits, entries)
    ensures ValidLedger(limits, Run(limits, entries, ops)) && Grows(entries, Run(limits, entries, ops))
  {
    if |ops| > 0 {
      var front := ops[..|ops| - 1];
      RunSafe(limits, entries, front);
      var middle := Run(limits, entries, front);
      StepValid(limits, middle, ops[|ops| - 1]);
      GrowsTransitive(entries, middle, Step(limits, middle, ops[|ops| - 1]));
    }
  }

  lemma GrowsKeepsIds(before: seq<Entry>, after: seq<Entry>, id: string)
    requires Grows(before, after) && HasId(before, id)
    ensures HasId(after, id)
  {
    var i := IndexOf(before, id).value;
    assert Kept(before[i], after[i]);
  }

  // A one-use id that has been granted is refused for the rest of every run.
  lemma OneUseOnce(limits: Limits, entries: seq<Entry>, id: string, e: CostEntry, ceilings: Ceilings, exclusive: bool,
                   ops: seq<Op>, e': CostEntry, ceilings': Ceilings, exclusive': bool)
    requires ValidLedger(limits, entries) && ReserveOnce(limits, entries, id, e, ceilings, exclusive).Ok?
    requires e'.status == Estimated && ValidCost(e') && ValidCeilings(ceilings')
    ensures var granted := ReserveOnce(limits, entries, id, e, ceilings, exclusive).value;
            ReserveOnce(limits, Run(limits, granted, ops), id, e', ceilings', exclusive') == Err(Conflict)
  {
    var granted := ReserveOnce(limits, entries, id, e, ceilings, exclusive).value;
    StepValid(limits, entries, DoReserveOnce(id, e, ceilings, exclusive));
    assert granted[|entries|].entryId == Some(id);
    RunSafe(limits, granted, ops);
    GrowsKeepsIds(granted, Run(limits, granted, ops), id);
  }

  lemma HasIdAppend(entries: seq<Entry>, additions: seq<Entry>, id: string)
    ensures HasId(entries + additions, id) <==> HasId(entries, id) || HasId(additions, id)
  {
    var all := entries + additions;
    if HasId(entries, id) {
      assert all[IndexOf(entries, id).value].entryId == Some(id);
    } else if HasId(additions, id) {
      assert all[|entries| + IndexOf(additions, id).value].entryId == Some(id);
    }
  }

  lemma HasIdMember(entries: seq<Entry>, id: string)
    ensures HasId(entries, id) <==> exists e :: e in entries && e.entryId == Some(id)
  {
    if HasId(entries, id) {
      assert entries[IndexOf(entries, id).value] in entries;
    }
  }

  // Where an added entry comes from.
  ghost predicate AddedFor(entries: seq<Entry>, rs: seq<Reservation>, e: Entry) {
    && e.entryId.Some? && !HasId(entries, e.entryId.value)
    && exists r :: r in rs && e == Normalized(r.cost, Some(r.id)) && r.cost.status == Estimated
  }

  // The created ids are exactly the requested ones the ledger lacked, the covered ids the ones it held.
  lemma {:induction false} CreatedOrCovered(entries: seq<Entry>, requested: seq<Entry>, held: bool)
    requires forall w :: w in requested ==> w.entryId.Some?
    ensures forall id :: id in IdsOf(entries, requested, held) <==>
              HasId(entries, id) == held && exists w :: w in requested && w.entryId == Some(id)
  {
    hide HasId;
    if |requested| > 0 {
      var front, last := requested[..|requested| - 1], requested[|requested| - 1];
      CreatedOrCovered(entries, front, held);
      assert forall w :: w in requested <==> w in front || w == last;
    }
  }

  // A batch that succeeds leaves every requested id in the ledger, having added exactly the missing ones;
  // a batch that fails changes nothing (Step).
  lemma BatchAllOrNothing(limits: Limits, entries: seq<Entry>, rs: seq<Reservation>, required: seq<string>,
                          rejected: seq<string>)
    requires ValidLedger(limits, entries) && ReserveBatch(limits, entries, rs, required, rejected).Ok?
    ensures var after := ReserveBatch(limits, entries, rs, required, rejected).value;
            && entries <= after
            && (forall k :: 0 <= k < |rs| ==> HasId(after, rs[k].id))
            && (forall e :: e in after[|entries|..] ==> AddedFor(entries, rs, e))
            && (after == entries <==> forall k :: 0 <= k < |rs| ==> HasId(entries, rs[k].id))
  {
    hide ReserveBatch, Requested, Additions, HasId, WellFormedEntries, UniqueIds, WithinLimits, TotalsOf;
    BatchOutcome(limits, entries, rs, required, rejected);
    var requested := Requested(rs).value;
    var additions := Additions(entries, requested).value;
    var after := entries + additions;
    RequestedIds(rs);
    RequestedCover(rs);
    AdditionsFresh(entries, requested);
    assert after[|entries|..] == additions;
    forall k | 0 <= k < |rs|
      ensures HasId(after, rs[k].id)
      ensures additions == [] ==> HasId(entries, rs[k].id)
    {
      HasIdAppend(entries, additions, rs[k].id);
      HasIdMember(requested, rs[k].id);
      HasIdMember(additions, rs[k].id);
    }
    forall e | e in additions
      ensures AddedFor(entries, rs, e)
    {
      assert e in requested;
    }
    if additions != [] {
      assert AddedFor(entries, rs, additions[0]);
      var r :| r in rs && additions[0] == Normalized(r.cost, Some(r.id));
      var k :| 0 <= k < |rs| && rs[k] == r;
      assert !HasId(entries, rs[k].id);
    }
  }

  lemma {:induction false} RequestedCover(rs: seq<Reservation>)
    requires Requested(rs).Ok?
    ensures forall k :: 0 <= k < |rs| ==> HasId(Requested(rs).value, rs[k].id)
    ensures forall w :: w in Requested(rs).value ==>
              exists r :: r in rs && w == Normalized(r.cost, Some(r.id)) && r.cost.status == Estimated
  {
    if |rs| > 0 {
      var front, last := rs[..|rs| - 1], rs[|rs| - 1];
      RequestedCover(front);
      var before, after := Requested(front).value, Requested(rs).value;
      forall k | 0 <= k < |rs|
        ensures HasId(after, rs[k].id)
      {
        if k < |front| {
          assert front[k] == rs[k];
          var i := IndexOf(before, rs[k].id).value;
          assert after[i] == before[i];
        } else if IndexOf(before, last.id).None? {
          assert after[|before|].entryId == Some(last.id);
        }
      }
      forall w | w in after
        ensures exists r :: r in rs && w == Normalized(r.cost, Some(r.id)) && r.cost.status == Estimated
      {
        if w in before {
          var r :| r in front && w == Normalized(r.cost, Some(r.id)) && r.cost.status == Estimated;
          assert r in rs;
        } else {
          assert last in rs;
        }
      }
    }
  }

  // Settling an outstanding estimate in kind at or below its amount always succeeds.
  lemma SettleNeverOverCap(limits: Limits, entries: seq<Entry>, id: string, e: CostEntry)
    requires ValidLedger(limits, entries) && id != "" && HasId(entries, id)
    requires e.status == Incurred && ValidCost(e)
    requires var held := entries[IndexOf(entries, id).value];
             held.status == Estimated && held.kind == e.kind && e.amount <= held.amount
    ensures Settle(limits, entries, id, e).Ok?
    ensures forall kind :: Total(Settle(limits, entries, id, e).value, kind, true) <= Total(entries, kind, true)
  {
    var i := IndexOf(entries, id).value;
    var next := entries[i := Normalized(e, Some(id))];
    forall kind
      ensures Total(next, kind, true) <= Total(entries, kind, true)
    {
      TotalUpdate(entries, i, Normalized(e, Some(id)), kind, true);
    }
  }

  // The object's methods take exactly these steps, so the run theorems speak about every sequence of calls.
  method Perform(ledger: CostLedger, op: Op) returns (accepted: bool)
    requires ledger.Valid()
    modifies ledger
    ensures ledger.Valid() && Grows(old(ledger.entries), ledger.entries)
    ensures ledger.entries == Step(ledger.limits, old(ledger.entries), op)
    ensures accepted <==> Outcomes(ledger.limits, old(ledger.entries), op).Ok?
  {
    hide Ledger.Append, Ledger.Reserve, Ledger.ReserveOnce, Ledger.ReserveBatch, Grows, ValidLedger;
    StepValid(ledger.limits, ledger.entries, op);
    match op
    case DoAppend(e) => var r := ledger.Append(e); accepted := r.Ok?;
    case DoReserve(id, e) => var r := ledger.Reserve(id, e); accepted := r.Ok?;
    case DoReserveOnce(id, e, c, x) => var r := ledger.ReserveOnce(id, e, c, x); accepted := r.Ok?;
    case DoReserveBatch(rs, required, rejected) =>
      var r := ledger.ReserveBatch(rs, required, rejected);
      accepted := r.Ok?;
    case DoSettle(id, e) => var r := ledger.SettleReservation(id, e); accepted := r.Ok?;
  }
}
