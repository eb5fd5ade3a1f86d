// When each ledger operation is accepted or refused, in terms of the stored fields, the category sums and the caps.
module LedgerDecisions {
  import opened Options
  import opened PythonText
  import opened Sums
  import opened Ledger
  import opened LedgerRuns

  // --- The caps ---

  ghost function SumOfKinds(entries: seq<Entry>): int {
    Total(entries, Gpu, true) + Total(entries, Api, true) + Total(entries, Storage, true) + Total(entries, Other, true)
  }

  // The committed sums with an amount more of one kind pass no cap.
  ghost predicate Affords(limits: Limits, entries: seq<Entry>, kind: Kind, more: int) {
    && Total(entries, Gpu, true) + (if kind == Gpu then more else 0) <= limits.gpu
    && Total(entries, Api, true) + (if kind == Api then more else 0) <= limits.api
    && SumOfKinds(entries) + more <= limits.total
  }

  // Over every run the GPU and API costs and the sum of all four stay under their caps, estimates included.
  lemma CapsHold(limits: Limits, entries: seq<Entry>, ops: seq<Op>)
    requires ValidLedger(limits, entries)
    ensures var after := Run(limits, entries, ops);
            && Total(after, Gpu, true) <= limits.gpu
            && Total(after, Api, true) <= limits.api
            && SumOfKinds(after) <= limits.total
  {
    hide Run, Total, WellFormedEntries, UniqueIds;
    RunSafe(limits, entries, ops);
  }

  // No entry is lost, no kind or id changes, and only an estimate is ever replaced, by an incurred cost.
  lemma EntriesStay(limits: Limits, entries: seq<Entry>, ops: seq<Op>, i: nat)
    requires ValidLedger(limits, entries) && i < |entries|
    ensures var after := Run(limits, entries, ops);
            && |entries| <= |after| && after[i].kind == entries[i].kind && after[i].entryId == entries[i].entryId
            && (after[i] != entries[i] ==> entries[i].status == Estimated && after[i].status == Incurred)
  {
    hide Run, ValidLedger;
    RunSafe(limits, entries, ops);
    assert Kept(entries[i], Run(limits, entries, ops)[i]);
  }

  lemma EmptyLedgerValid(limits: Limits)
    ensures ValidLedger(limits, [])
  {
  }

  lemma CappedIff(limits: Limits, entries: seq<Entry>, e: Entry)
    ensures Capped(limits, entries + [e]) ==
            if Affords(limits, entries, e.kind, e.amount) then Ok(entries + [e]) else Err(BudgetExceeded)
  {
    TotalAppend(entries, [e], Gpu, true);
    TotalAppend(entries, [e], Api, true);
    TotalAppend(entries, [e], Storage, true);
    TotalAppend(entries, [e], Other, true);
    OneTotal(e, Gpu);
    OneTotal(e, Api);
    OneTotal(e, Storage);
    OneTotal(e, Other);
    hide Total;
  }

  lemma OneTotal(e: Entry, kind: Kind)
    ensures Total([e], kind, true) == if e.kind == kind then e.amount else 0
  {
    assert [e][..0] == [];
  }

  // --- What is stored ---

  // A cost the ledger takes: no negative amount, and some character of the description is no space.
  ghost predicate Receivable(e: CostEntry) {
    e.amount >= 0 && exists i :: 0 <= i < |e.description| && !IsSpace(e.description[i])
  }

  ghost predicate StoredAs(x: Entry, e: CostEntry, id: Option<string>) {
    && x.kind == e.kind && x.amount == e.amount && x.description == e.description && x.status == e.status
    && x.occurredAt == e.occurredAt && x.entryId == id
  }

  // The same cost, whenever it occurred.
  ghost predicate SameCost(x: Entry, e: CostEntry) {
    x.kind == e.kind && x.amount == e.amount && x.description == e.description && x.status == e.status
  }

  ghost predicate Held(entries: seq<Entry>, id: string) {
    exists i :: 0 <= i < |entries| && entries[i].entryId == Some(id)
  }

  lemma HeldAt(entries: seq<Entry>, id: string, i: nat)
    requires UniqueIds(entries) && i < |entries| && entries[i].entryId == Some(id)
    ensures IndexOf(entries, id) == Some(i)
  {
  }

  // One new entry, or a refusal by the caps.
  ghost predicate AddsOne(o: Outcome, limits: Limits, entries: seq<Entry>, e: CostEntry, id: Option<string>) {
    if !Affords(limits, entries, e.kind, e.amount) then o == Err(BudgetExceeded)
    else o.Ok? && |o.value| == |entries| + 1 && o.value[..|entries|] == entries && StoredAs(o.value[|entries|], e, id)
  }

  // --- Each operation ---

  lemma AppendDecided(limits: Limits, entries: seq<Entry>, e: CostEntry)
    ensures var o := Append(limits, entries, e);
            if !Receivable(e) then o == Err(InvalidCost) else AddsOne(o, limits, entries, e, None)
  {
    hide Affords, Capped;
    CappedIff(limits, entries, Normalized(e, None));
  }

  // A new id is reserved exactly under the caps; a known id answers a repetition or contradicts it.
  lemma ReserveDecided(limits: Limits, entries: seq<Entry>, id: string, e: CostEntry)
    requires UniqueIds(entries)
    ensures var o := Reserve(limits, entries, id, e);
            if id == "" then o == Err(InvalidId)
            else if e.status == Incurred then o == Err(WrongStatus)
            else if !Receivable(e) then o == Err(InvalidCost)
            else
              && (!Held(entries, id) ==> AddsOne(o, limits, entries, e, Some(id)))
              && forall i :: 0 <= i < |entries| && entries[i].entryId == Some(id) ==>
                   o == if entries[i].status == Incurred
                        then (if entries[i].kind == e.kind then Ok(entries) else Err(SettledUnderOtherKind))
                        else if SameCost(entries[i], e) then Ok(entries) else Err(DifferentContent)
  {
    hide Affords, Capped, UniqueIds;
    CappedIff(limits, entries, Normalized(e, Some(id)));
    forall i | 0 <= i < |entries| && entries[i].entryId == Some(id)
      ensures IndexOf(entries, id) == Some(i)
    {
      HeldAt(entries, id, i);
    }
  }

  // The totals after a new amount stay under the ceilings of the transaction.
  ghost predicate UnderCeilings(c: Ceilings, entries: seq<Entry>, kind: Kind, more: int) {
    && (c.gpu.Some? ==> Total(entries, Gpu, true) + (if kind == Gpu then more else 0) <= c.gpu.value)
    && (c.api.Some? ==> Total(entries, Api, true) + (if kind == Api then more else 0) <= c.api.value)
    && (c.storage.Some? ==> Total(entries, Storage, true) + (if kind == Storage then more else 0) <= c.storage.value)
    && (c.other.Some? ==> Total(entries, Other, true) + (if kind == Other then more else 0) <= c.other.value)
    && (c.total.Some? ==> SumOfKinds(entries) + more <= c.total.value)
  }

  ghost predicate NoNegativeCeiling(c: Ceilings) {
    && (c.gpu.Some? ==> c.gpu.value >= 0) && (c.api.Some? ==> c.api.value >= 0)
    && (c.storage.Some? ==> c.storage.value >= 0) && (c.other.Some? ==> c.other.value >= 0)
    && (c.total.Some? ==> c.total.value >= 0)
  }

  lemma TotalsAfter(entries: seq<Entry>, e: Entry)
    ensures forall k: Kind :: Total(entries + [e], k, true) ==
                              Total(entries, k, true) + (if e.kind == k then e.amount else 0)
  {
    forall k: Kind
      ensures Total(entries + [e], k, true) == Total(entries, k, true) + (if e.kind == k then e.amount else 0)
    {
      TotalAppend(entries, [e], k, true);
      OneTotal(e, k);
    }
  }

  // A one-use reservation: no known id, with exclusivity no open estimate of the kind, and room under caps and
  // ceilings.
  lemma ReserveOnceDecided(limits: Limits, entries: seq<Entry>, id: string, e: CostEntry, c: Ceilings, exclusive: bool)
    ensures var o := ReserveOnce(limits, entries, id, e, c, exclusive);
            if id == "" then o == Err(InvalidId)
            else if e.status == Incurred then o == Err(WrongStatus)
            else if !NoNegativeCeiling(c) then o == Err(UnknownCeiling)
            else if !Receivable(e) then o == Err(InvalidCost)
            else if Held(entries, id) then o == Err(Conflict)
            else if exclusive && exists i :: 0 <= i < |entries| && entries[i].kind == e.kind
                                              && entries[i].status == Estimated then o == Err(Conflict)
            else if !UnderCeilings(c, entries, e.kind, e.amount) then o == Err(BudgetExceeded)
            else AddsOne(o, limits, entries, e, Some(id))
  {
    hide Total;
    TotalsAfter(entries, Normalized(e, Some(id)));
    if Held(entries, id) {
      assert IndexOf(entries, id).Some?;
    }
  }

  // Settling replaces the estimate under the caps, and repeats only with the same cost.
  lemma SettleDecided(limits: Limits, entries: seq<Entry>, id: string, e: CostEntry)
    requires UniqueIds(entries)
    ensures var o := Settle(limits, entries, id, e);
            if id == "" then o == Err(InvalidId)
            else if e.status == Estimated then o == Err(WrongStatus)
            else
              && (!Held(entries, id) ==> o == Err(MissingReservation))
              && forall i :: 0 <= i < |entries| && entries[i].entryId == Some(id) ==>
                   if !Receivable(e) then o == Err(InvalidCost)
                   else if entries[i].status == Incurred then
                     o == if SameCost(entries[i], e) then Ok(entries) else Err(DifferentContent)
                   else if entries[i].kind != e.kind then o == Err(SettledUnderOtherKind)
                   else if !Affords(limits, entries, e.kind, e.amount - entries[i].amount) then o == Err(BudgetExceeded)
                   else
                     && o.Ok? && |o.value| == |entries| && StoredAs(o.value[i], e, Some(id))
                     && forall k :: 0 <= k < |entries| && k != i ==> o.value[k] == entries[k]
  {
    forall i | 0 <= i < |entries| && entries[i].entryId == Some(id)
      ensures IndexOf(entries, id) == Some(i)
      ensures entries[i].kind == e.kind && entries[i].status == Estimated ==>
                Capped(limits, entries[i := Normalized(e, Some(id))]) ==
                if Affords(limits, entries, e.kind, e.amount - entries[i].amount)
                then Ok(entries[i := Normalized(e, Some(id))]) else Err(BudgetExceeded)
    {
      HeldAt(entries, id, i);
      TotalUpdate(entries, i, Normalized(e, Some(id)), Gpu, true);
      TotalUpdate(entries, i, Normalized(e, Some(id)), Api, true);
      TotalUpdate(entries, i, Normalized(e, Some(id)), Storage, true);
      TotalUpdate(entries, i, Normalized(e, Some(id)), Other, true);
    }
  }

  // --- Batches ---

  ghost predicate Requestable(r: Reservation) {
    r.id != "" && r.cost.status == Estimated && Receivable(r.cost)
  }

  ghost predicate SameRequest(a: CostEntry, b: CostEntry) {
    a.kind == b.kind && a.amount == b.amount && a.description == b.description
  }

  // Requests for one id ask for the same cost.
  ghost predicate Agree(rs: seq<Reservation>) {
    forall j, k :: 0 <= j < k < |rs| && rs[j].id == rs[k].id ==> SameRequest(rs[j].cost, rs[k].cost)
  }

  // w asks what the first request for its id asks.
  ghost predicate FirstMention(rs: seq<Reservation>, k: int, w: Entry) {
    && 0 <= k < |rs| && StoredAs(w, rs[k].cost, Some(rs[k].id))
    && forall j :: 0 <= j < k ==> rs[j].id != rs[k].id
  }

  ghost predicate Mentioned(rs: seq<Reservation>, w: Entry) {
    exists k :: FirstMention(rs, k, w)
  }

  // Each requested id once, as its first mention asks.
  ghost predicate FirstMentions(rs: seq<Reservation>, requested: seq<Entry>) {
    && (forall i :: 0 <= i < |requested| ==> Mentioned(rs, requested[i]))
    && (forall k :: 0 <= k < |rs| ==> Held(requested, rs[k].id))
    && UniqueIds(requested)
  }

  // A batch's requests are taken exactly when each can be reserved and those for one id agree.
  lemma {:induction false} RequestedDecided(rs: seq<Reservation>)
    ensures Requested(rs).Ok? <==> (forall k :: 0 <= k < |rs| ==> Requestable(rs[k])) && Agree(rs)
    ensures Requested(rs).Ok? ==> FirstMentions(rs, Requested(rs).value)
  {
    hide NextRequest, FirstMentions, Agree, Requestable;
    if |rs| == 0 {
      NoMentions();
    } else {
      var front, last := rs[..|rs| - 1], rs[|rs| - 1];
      RequestedDecided(front);
      AgreeLast(front, last);
      assert rs == front + [last];
      if Requested(front).Ok? {
        NextDecided(front, Requested(front).value, last);
      }
    }
  }

  lemma NoMentions()
    ensures FirstMentions([], []) && Agree([])
  {
  }

  ghost predicate AgreesWith(rs: seq<Reservation>, r: Reservation) {
    forall k :: 0 <= k < |rs| && rs[k].id == r.id ==> SameRequest(rs[k].cost, r.cost)
  }

  lemma AgreeLast(rs: seq<Reservation>, r: Reservation)
    ensures Agree(rs + [r]) <==> Agree(rs) && AgreesWith(rs, r)
  {
    var all := rs + [r];
    if Agree(all) {
      forall j, k | 0 <= j < k < |rs| && rs[j].id == rs[k].id
        ensures SameRequest(rs[j].cost, rs[k].cost)
      {
        assert all[j] == rs[j] && all[k] == rs[k];
      }
      forall k | 0 <= k < |rs| && rs[k].id == r.id
        ensures SameRequest(rs[k].cost, r.cost)
      {
        assert all[k] == rs[k] && all[|rs|] == r;
      }
    }
  }

  lemma NextDecided(rs: seq<Reservation>, ordered: seq<Entry>, r: Reservation)
    requires FirstMentions(rs, ordered) && Agree(rs) && forall k :: 0 <= k < |rs| ==> Requestable(rs[k])
    ensures NextRequest(ordered, r).Ok? <==> Requestable(r) && AgreesWith(rs, r)
    ensures NextRequest(ordered, r).Ok? ==> FirstMentions(rs + [r], NextRequest(ordered, r).value)
  {
    hide UniqueIds, Receivable;
    Received(r.cost);
    if Held(ordered, r.id) {
      var i: nat :| i < |ordered| && ordered[i].entryId == Some(r.id);
      HeldAt(ordered, r.id, i);
      assert Mentioned(rs, ordered[i]);
      var k :| FirstMention(rs, k, ordered[i]);
      assert Requestable(rs[k]);
      FirstAgrees(rs, r, k);
      if NextRequest(ordered, r).Ok? {
        MentionsAgain(rs, ordered, r);
      }
    } else {
      forall k | 0 <= k < |rs|
        ensures rs[k].id != r.id
      {
        assert Held(ordered, rs[k].id);
      }
      assert IndexOf(ordered, r.id).None?;
      if NextRequest(ordered, r).Ok? {
        MentionsNew(rs, ordered, r, Normalized(r.cost, Some(r.id)));
      }
    }
  }

  lemma Received(e: CostEntry)
    ensures ValidCost(e) <==> Receivable(e)
  {
  }

  lemma FirstAgrees(rs: seq<Reservation>, r: Reservation, k: int)
    requires Agree(rs) && 0 <= k < |rs| && rs[k].id == r.id && forall j :: 0 <= j < k ==> rs[j].id != r.id
    ensures AgreesWith(rs, r) <==> SameRequest(rs[k].cost, r.cost)
  {
    if SameRequest(rs[k].cost, r.cost) {
      forall j | 0 <= j < |rs| && rs[j].id == r.id
        ensures SameRequest(rs[j].cost, r.cost)
      {
        assert j != k ==> SameRequest(rs[k].cost, rs[j].cost);
      }
    }
  }

  lemma MentionKept(rs: seq<Reservation>, r: Reservation, w: Entry)
    requires Mentioned(rs, w)
    ensures Mentioned(rs + [r], w)
  {
    var all := rs + [r];
    var k :| FirstMention(rs, k, w);
    assert forall j :: 0 <= j <= k ==> all[j] == rs[j];
    assert FirstMention(all, k, w);
  }

  lemma MentionsAgain(rs: seq<Reservation>, ordered: seq<Entry>, r: Reservation)
    requires FirstMentions(rs, ordered) && Held(ordered, r.id)
    ensures FirstMentions(rs + [r], ordered)
  {
    hide Mentioned, Held, UniqueIds;
    forall i | 0 <= i < |ordered|
      ensures Mentioned(rs + [r], ordered[i])
    {
      MentionKept(rs, r, ordered[i]);
    }
    forall k | 0 <= k < |rs + [r]|
      ensures Held(ordered, (rs + [r])[k].id)
    {
      assert k < |rs| ==> Held(ordered, rs[k].id);
    }
  }

  lemma NewUnique(ordered: seq<Entry>, w: Entry, id: string)
    requires UniqueIds(ordered) && !Held(ordered, id) && w.entryId == Some(id)
    ensures UniqueIds(ordered + [w])
  {
    var next := ordered + [w];
    forall i, j | 0 <= i < j < |next| && next[i].entryId.Some?
      ensures next[i].entryId != next[j].entryId
    {
      assert next[i] == ordered[i];
      assert ordered[i].entryId != Some(id);
    }
  }

  lemma HeldStays(ordered: seq<Entry>, w: Entry, id: string)
    requires Held(ordered, id) || w.entryId == Some(id)
    ensures Held(ordered + [w], id)
  {
    if Held(ordered, id) {
      var i :| 0 <= i < |ordered| && ordered[i].entryId == Some(id);
      assert (ordered + [w])[i] == ordered[i];
    } else {
      assert (ordered + [w])[|ordered|] == w;
    }
  }

  lemma MentionsNew(rs: seq<Reservation>, ordered: seq<Entry>, r: Reservation, w: Entry)
    requires FirstMentions(rs, ordered) && !Held(ordered, r.id) && StoredAs(w, r.cost, Some(r.id))
    requires forall k :: 0 <= k < |rs| ==> rs[k].id != r.id
    ensures FirstMentions(rs + [r], ordered + [w])
  {
    var all, next := rs + [r], ordered + [w];
    NewUnique(ordered, w, r.id);
    assert FirstMention(all, |rs|, w);
    hide Mentioned, Held, UniqueIds;
    forall i | 0 <= i < |next|
      ensures Mentioned(all, next[i])
    {
      if i < |ordered| {
        MentionKept(rs, r, ordered[i]);
        assert next[i] == ordered[i];
      } else {
        assert next[i] == w;
      }
    }
    forall k | 0 <= k < |all|
      ensures Held(next, all[k].id)
    {
      if k < |rs| {
        assert all[k] == rs[k];
      }
      HeldStays(ordered, w, all[k].id);
    }
  }

  // What is requested beyond the ledger: an error exactly when some request contradicts a stored entry.
  ghost predicate Contradicts(x: Entry, w: Entry) {
    if x.status == Incurred then x.kind != w.kind
    else !(x.kind == w.kind && x.amount == w.amount && x.description == w.description && x.status == w.status)
  }

  lemma {:induction false} AdditionsDecided(entries: seq<Entry>, requested: seq<Entry>)
    requires UniqueIds(entries) && forall w :: w in requested ==> w.entryId.Some?
    ensures Additions(entries, requested).Ok? <==>
            forall i, w :: 0 <= i < |entries| && w in requested && entries[i].entryId == w.entryId ==>
              !Contradicts(entries[i], w)
    ensures Additions(entries, requested).Ok? ==>
              forall w :: w in Additions(entries, requested).value <==>
                w in requested && !Held(entries, w.entryId.value)
  {
    if |requested| > 0 {
      var front, last := requested[..|requested| - 1], requested[|requested| - 1];
      AdditionsDecided(entries, front);
      assert forall w :: w in requested <==> w in front || w == last;
      NextAdded(entries, last);
      hide Contradicts, Held, UniqueIds, Covered;
    }
  }

  lemma NextAdded(entries: seq<Entry>, w: Entry)
    requires UniqueIds(entries) && w.entryId.Some?
    ensures IndexOf(entries, w.entryId.value).None? <==> !Held(entries, w.entryId.value)
    ensures forall i :: 0 <= i < |entries| && entries[i].entryId == w.entryId ==>
              && IndexOf(entries, w.entryId.value) == Some(i)
              && (Covered(entries, entries[i], w).Err? <==> Contradicts(entries[i], w))
  {
    forall i | 0 <= i < |entries| && entries[i].entryId == w.entryId
      ensures IndexOf(entries, w.entryId.value) == Some(i)
    {
      HeldAt(entries, w.entryId.value, i);
    }
  }

  ghost predicate Settled(entries: seq<Entry>, id: string) {
    exists i :: 0 <= i < |entries| && entries[i].entryId == Some(id) && entries[i].status == Incurred
  }

  // The missing requests of a batch are stored together, or nothing is, for the first reason that applies.
  lemma BatchDecided(limits: Limits, entries: seq<Entry>, rs: seq<Reservation>, required: seq<string>,
                     rejected: seq<string>)
    requires UniqueIds(entries) && Requested(rs).Ok?
    ensures var o, requested := ReserveBatch(limits, entries, rs, required, rejected), Requested(rs).value;
            if "" in required || "" in rejected || !Distinct(required) then o == Err(InvalidId)
            else if exists id :: id in required && !Held(entries, id) then o == Err(RequiredMissing)
            else if exists id :: id in rejected && Settled(entries, id) then o == Err(IncurredRejected)
            else
              var additions := Additions(entries, requested);
              if additions.Err? then o == additions
              else if Total(entries, Gpu, true) + Total(additions.value, Gpu, true) <= limits.gpu
                      && Total(entries, Api, true) + Total(additions.value, Api, true) <= limits.api
                      && SumOfKinds(entries) + SumOfKinds(additions.value) <= limits.total
              then o == Ok(entries + additions.value)
              else o == Err(BudgetExceeded)
  {
    hide Total, Requested, Additions, Distinct;
    forall id
      ensures HasId(entries, id) <==> Held(entries, id)
      ensures HasIncurred(entries, id) <==> Settled(entries, id)
    {
      HeldIs(entries, id);
    }
    if Additions(entries, Requested(rs).value).Ok? {
      var a := Additions(entries, Requested(rs).value).value;
      TotalAppend(entries, a, Gpu, true);
      TotalAppend(entries, a, Api, true);
      TotalAppend(entries, a, Storage, true);
      TotalAppend(entries, a, Other, true);
    }
    hide HasId, HasIncurred, Held, Settled;
    assert (exists i :: 0 <= i < |required| && !HasId(entries, required[i])) <==>
           exists id :: id in required && !Held(entries, id);
    assert (exists i :: 0 <= i < |rejected| && HasIncurred(entries, rejected[i])) <==>
           exists id :: id in rejected && Settled(entries, id);
  }

  lemma HeldIs(entries: seq<Entry>, id: string)
    requires UniqueIds(entries)
    ensures HasId(entries, id) <==> Held(entries, id)
    ensures HasIncurred(entries, id) <==> Settled(entries, id)
  {
    if Held(entries, id) {
      var i: nat :| i < |entries| && entries[i].entryId == Some(id);
      HeldAt(entries, id, i);
    }
  }
}
