// Exactly when an accepted review is enough for its plan: carrying out the planned GPU phases then meets no refusal.
module PaidPlanRuns {
  import opened Options
  import opened Sums
  import opened PythonText
  import opened Ledger
  import opened LedgerRuns
  import opened GpuBudget
  import opened GpuSettlement
  import opened PaidPlan

  // --- Ledger operations that only concern API costs ---

  ghost predicate Bystander(op: Op, ids: set<string>) {
    match op
    case DoAppend(e) => e.kind == Api
    case DoReserve(id, e) => e.kind == Api && id !in ids
    case DoReserveOnce(id, e, c, x) => e.kind == Api && id !in ids
    case DoReserveBatch(rs, required, rejected) => forall r :: r in rs ==> r.cost.kind == Api && r.id !in ids
    case DoSettle(id, e) => e.kind == Api && id !in ids
  }

  ghost predicate Bystanders(ops: seq<Op>, ids: set<string>) {
    forall i :: 0 <= i < |ops| ==> Bystander(ops[i], ids)
  }

  // Nothing but API costs moved, and none of the ids was taken.
  ghost predicate ApiGrowth(before: seq<Entry>, after: seq<Entry>, ids: set<string>) {
    && |before| <= |after|
    && (forall i :: 0 <= i < |before| ==> ApiKept(before[i], after[i]))
    && (forall i :: |before| <= i < |after| ==> ApiNew(after[i], ids))
  }

  ghost predicate ApiKept(a: Entry, b: Entry) {
    b == a || (a.kind == Api && b.kind == Api && b.entryId == a.entryId)
  }

  ghost predicate ApiNew(e: Entry, ids: set<string>) {
    e.kind == Api && (e.entryId.Some? ==> e.entryId.value !in ids)
  }

  lemma ApiGrowthTransitive(a: seq<Entry>, b: seq<Entry>, c: seq<Entry>, ids: set<string>)
    requires ApiGrowth(a, b, ids) && ApiGrowth(b, c, ids)
    ensures ApiGrowth(a, c, ids)
  {
    forall i | 0 <= i < |a|
      ensures ApiKept(a[i], c[i])
    {
      assert ApiKept(a[i], b[i]) && ApiKept(b[i], c[i]);
    }
    forall i | |a| <= i < |c|
      ensures ApiNew(c[i], ids)
    {
      if i < |b| {
        assert ApiNew(b[i], ids) && ApiKept(b[i], c[i]);
      }
    }
  }

  lemma ApiAppended(entries: seq<Entry>, added: seq<Entry>, ids: set<string>)
    requires forall e :: e in added ==> ApiNew(e, ids)
    ensures ApiGrowth(entries, entries + added, ids)
  {
    var after := entries + added;
    forall i | |entries| <= i < |after|
      ensures ApiNew(after[i], ids)
    {
      assert after[i] == added[i - |entries|];
    }
  }

  lemma BystanderBatch(limits: Limits, entries: seq<Entry>, rs: seq<Reservation>, required: seq<string>,
                       rejected: seq<string>, ids: set<string>)
    requires ValidLedger(limits, entries) && ReserveBatch(limits, entries, rs, required, rejected).Ok?
    requires Bystander(DoReserveBatch(rs, required, rejected), ids)
    ensures ApiGrowth(entries, ReserveBatch(limits, entries, rs, required, rejected).value, ids)
  {
    hide ReserveBatch, ValidLedger, HasId, ApiGrowth;
    BatchAllOrNothing(limits, entries, rs, required, rejected);
    var after := ReserveBatch(limits, entries, rs, required, rejected).value;
    var added := after[|entries|..];
    assert after == entries + added;
    forall e | e in added
      ensures ApiNew(e, ids)
    {
      assert AddedFor(entries, rs, e);
      var r :| r in rs && e == Normalized(r.cost, Some(r.id)) && r.cost.status == Estimated;
    }
    ApiAppended(entries, added, ids);
  }

  lemma BystanderStep(limits: Limits, entries: seq<Entry>, op: Op, ids: set<string>)
    requires ValidLedger(limits, entries) && Bystander(op, ids)
    ensures ApiGrowth(entries, Step(limits, entries, op), ids)
  {
    hide TotalsOf, UnderAll, WithinLimits, ValidLedger, ReserveBatch;
    if Outcomes(limits, entries, op).Ok? {
      match op
      case DoAppend(e) => ApiAppended(entries, [Normalized(e, None)], ids);
      case DoReserve(id, e) => ApiAppended(entries, [Normalized(e, Some(id))], ids);
      case DoReserveOnce(id, e, c, x) => ApiAppended(entries, [Normalized(e, Some(id))], ids);
      case DoReserveBatch(rs, required, rejected) => BystanderBatch(limits, entries, rs, required, rejected, ids);
      case DoSettle(id, e) =>
    }
  }

  lemma {:induction false} BystanderRun(limits: Limits, entries: seq<Entry>, ops: seq<Op>, ids: set<string>)
    requires ValidLedger(limits, entries) && Bystanders(ops, ids)
    ensures ApiGrowth(entries, Run(limits, entries, ops), ids)
  {
    hide Step, ValidLedger, Bystander, ApiNew;
    if |ops| > 0 {
      var front, last := ops[..|ops| - 1], ops[|ops| - 1];
      BystanderRun(limits, entries, front, ids);
      var middle := Run(limits, entries, front);
      RunSafe(limits, entries, front);
      BystanderStep(limits, middle, last, ids);
      ApiGrowthTransitive(entries, middle, Step(limits, middle, last), ids);
    }
  }

  lemma {:induction false} ApiGrowthTotal(before: seq<Entry>, after: seq<Entry>, ids: set<string>, kind: Kind)
    requires ApiGrowth(before, after, ids) && kind != Api
    ensures Total(after, kind, true) == Total(before, kind, true)
    decreases |after|
  {
    if |after| > 0 {
      var last := |after| - 1;
      if |after| > |before| {
        assert ApiNew(after[last], ids);
        ApiGrowthTotal(before, after[..last], ids, kind);
      } else {
        assert ApiKept(before[last], after[last]);
        ApiGrowthTotal(before[..last], after[..last], ids, kind);
      }
    }
  }

  lemma ApiGrowthGpu(before: seq<Entry>, after: seq<Entry>, ids: set<string>)
    requires ApiGrowth(before, after, ids)
    ensures Outstanding(after, Gpu) <==> Outstanding(before, Gpu)
    ensures forall id :: id in ids ==> (HasId(after, id) <==> HasId(before, id))
  {
    if Outstanding(before, Gpu) {
      var i :| 0 <= i < |before| && before[i].kind == Gpu && before[i].status == Estimated;
      assert ApiKept(before[i], after[i]);
    }
    if Outstanding(after, Gpu) {
      var i :| 0 <= i < |after| && after[i].kind == Gpu && after[i].status == Estimated;
      assert i < |before| ==> ApiKept(before[i], after[i]);
      assert i >= |before| ==> ApiNew(after[i], ids);
    }
    forall id | id in ids
      ensures HasId(after, id) <==> HasId(before, id)
    {
      if HasId(before, id) {
        var i := IndexOf(before, id).value;
        assert ApiKept(before[i], after[i]);
      }
      if HasId(after, id) {
        var i := IndexOf(after, id).value;
        assert i < |before|;
        assert ApiKept(before[i], after[i]);
      }
    }
  }

  // --- One planned phase ---

  // API work, the reservation, API work beside the session, and the settlement of what it cost.
  datatype PhaseRun = PhaseRun(before: seq<Op>, request: Request, at: string, during: seq<Op>, amount: int,
                               settledAt: string)

  function RunPhase(hash: Hash, limits: Limits, entries: seq<Entry>, p: PhaseRun): Result<seq<Entry>, GpuError> {
    var granted := Reserving(hash, limits, Run(limits, entries, p.before), p.request, p.at);
    if granted.Err? then Err(granted.error)
    else Settling(hash, limits, Run(limits, granted.value.entries, p.during), granted.value.receipt, p.amount,
                  p.settledAt)
  }

  function RunPhases(hash: Hash, limits: Limits, entries: seq<Entry>,
                     phases: seq<PhaseRun>): Result<seq<Entry>, GpuError>
    decreases |phases|
  {
    if |phases| == 0 then Ok(entries) else
      var first := RunPhase(hash, limits, entries, phases[0]);
      if first.Err? then first else RunPhases(hash, limits, first.value, phases[1..])
  }

  // What a phase reserves. Its safety margin is the caller's own choice.
  function Reserves(p: PhaseRun): int {
    CeilMicro(p.request.maximum)
  }

  // A reservation with valid arguments, settled at or below what it reserved.
  ghost predicate Orderly(p: PhaseRun) {
    ValidRequest(p.request) && 0 <= p.amount <= Reserves(p)
  }

  // A phase carried out under its reviewed maximum.
  ghost predicate Fits(p: PhaseRun, m: PhaseMaximum) {
    Orderly(p) && p.request.phase == Name(m.command) && Reserves(p) <= m.maximum
  }

  ghost predicate AllFit(phases: seq<PhaseRun>, chosen: seq<PhaseMaximum>) {
    |phases| == |chosen| && forall i :: 0 <= i < |phases| ==> Fits(phases[i], chosen[i])
  }

  // Some of the planned phases, in any order, each at most once.
  ghost predicate Chosen(chosen: seq<PhaseMaximum>, planned: seq<PhaseMaximum>) {
    multiset(chosen) <= multiset(planned)
  }

  // The reservation ids do not collide, are unused, and the API work does not take them.
  ghost predicate Fresh(hash: Hash, entries: seq<Entry>, phases: seq<PhaseRun>, ids: set<string>) {
    && (forall i, j :: 0 <= i < j < |phases| ==>
        RequestId(hash, phases[i].request) != RequestId(hash, phases[j].request))
    && (forall i :: 0 <= i < |phases| ==>
          && RequestId(hash, phases[i].request) in ids && !HasId(entries, RequestId(hash, phases[i].request))
          && Bystanders(phases[i].before, ids) && Bystanders(phases[i].during, ids))
  }

  function Spent(phases: seq<PhaseRun>): int {
    if |phases| == 0 then 0 else phases[0].amount + Spent(phases[1..])
  }

  function AllReserved(phases: seq<PhaseRun>): int {
    if |phases| == 0 then 0 else Reserves(phases[0]) + AllReserved(phases[1..])
  }

  // Each phase in turn finds room under the ceiling of its own margin, above what the earlier phases have cost.
  ghost predicate Affordable(caps: Limits, spent: int, phases: seq<PhaseRun>) {
    forall i :: 0 <= i < |phases| ==> FindsRoom(caps, spent + Spent(phases[..i]), phases[i])
  }

  ghost predicate FindsRoom(caps: Limits, spent: int, p: PhaseRun) {
    spent + Reserves(p) <= SafetyCeiling(caps.gpu, p.request.margin)
  }

  // The ledger after one phase, in terms of the ledger before it.
  ghost predicate AfterPhase(limits: Limits, before: seq<Entry>, after: seq<Entry>, id: string, amount: int,
                             ids: set<string>) {
    && ValidLedger(limits, after) && !Outstanding(after, Gpu)
    && Total(after, Gpu, true) == Total(before, Gpu, true) + amount
    && Total(after, Storage, true) == Total(before, Storage, true)
    && Total(after, Other, true) == Total(before, Other, true)
    && forall other :: other in ids && other != id ==> (HasId(after, other) <==> HasId(before, other))
  }

  // After any API work a phase is granted exactly when it finds room under its own ceiling.
  lemma PhaseDecided(hash: Hash, limits: Limits, entries: seq<Entry>, p: PhaseRun, ids: set<string>)
    requires Digests(hash) && ValidCaps(limits) && ValidLedger(limits, entries) && Orderly(p)
    requires !Outstanding(entries, Gpu) && TotalFits(limits, entries, Reserves(p)) && Bystanders(p.before, ids)
    requires RequestId(hash, p.request) in ids && !HasId(entries, RequestId(hash, p.request))
    ensures var ready := Run(limits, entries, p.before);
            var o := Reserving(hash, limits, ready, p.request, p.at);
            && ValidLedger(limits, ready) && ApiGrowth(entries, ready, ids) && !Outstanding(ready, Gpu)
            && (o.Ok? <==> FindsRoom(limits, Total(entries, Gpu, true), p))
            && (o.Ok? ==> o.value.receipt.phaseMaximum == Reserves(p))
  {
    hide Run, Reserving, RequestId, Outstanding, HasId, Total, SafetyCeiling, ValidRequest, Bystanders, ApiGrowth,
      CeilMicro;
    hide WellFormedEntries, UniqueIds, Digests;
    var ready := Run(limits, entries, p.before);
    RunSafe(limits, entries, p.before);
    BystanderRun(limits, entries, p.before, ids);
    ApiGrowthTotal(entries, ready, ids, Gpu);
    ApiGrowthTotal(entries, ready, ids, Storage);
    ApiGrowthTotal(entries, ready, ids, Other);
    ApiGrowthGpu(entries, ready, ids);
    GrantedIff(hash, limits, ready, p.request, p.at);
    if Reserving(hash, limits, ready, p.request, p.at).Ok? {
      GrantFacts(hash, limits, ready, p.request, p.at);
    }
  }

  // An outstanding GPU estimate makes the reservation of any phase fail.
  lemma OutstandingBlocks(hash: Hash, limits: Limits, entries: seq<Entry>, p: PhaseRun, ids: set<string>)
    requires Digests(hash) && ValidLedger(limits, entries) && Outstanding(entries, Gpu) && Bystanders(p.before, ids)
    ensures RunPhase(hash, limits, entries, p).Err?
  {
    hide Run, Reserving, Settling, RequestId, Outstanding, HasId, Total, SafetyCeiling, ValidRequest, Bystanders,
      ApiGrowth, CeilMicro, Digests;
    var ready := Run(limits, entries, p.before);
    RunSafe(limits, entries, p.before);
    BystanderRun(limits, entries, p.before, ids);
    ApiGrowthGpu(entries, ready, ids);
    GrantedIff(hash, limits, ready, p.request, p.at);
  }

  // The one GPU estimate that a grant leaves open, and what API work beside it keeps.
  lemma BesideSession(hash: Hash, limits: Limits, ready: seq<Entry>, q: Request, at: string, during: seq<Op>,
                      ids: set<string>)
    requires Digests(hash) && ValidLedger(limits, ready) && Reserving(hash, limits, ready, q, at).Ok?
    requires Bystanders(during, ids)
    ensures var g := Reserving(hash, limits, ready, q, at).value;
            var busy := Run(limits, g.entries, during);
            && Reserved(limits, busy, g.receipt) && ApiGrowth(g.entries, busy, ids)
            && IndexOf(busy, g.receipt.reservationId) == Some(|ready|) && busy[|ready|] == g.entries[|ready|]
            && (forall i :: 0 <= i < |busy| && i != |ready| ==> !(busy[i].kind == Gpu && busy[i].status == Estimated))
  {
    var g := Reserving(hash, limits, ready, q, at).value;
    hide Run, Reserving, ReserveOnce, HoursFor, TotalsOf, SafetyCeiling, CeilMicro, Blank, Bystanders,
      WellFormedEntries, IndexFrom, IndexOf;
    GrantFacts(hash, limits, ready, q, at);
    ReservingValid(hash, limits, ready, q, at);
    GrantReserved(hash, limits, ready, q, at, during);
    BystanderRun(limits, g.entries, during, ids);
    var busy := Run(limits, g.entries, during);
    assert ApiKept(g.entries[|ready|], busy[|ready|]);
    IndexUnique(busy, g.receipt.reservationId, |ready|);
    forall i | 0 <= i < |busy| && i != |ready|
      ensures !(busy[i].kind == Gpu && busy[i].status == Estimated)
    {
      if i < |ready| {
        assert ApiKept(g.entries[i], busy[i]) && g.entries[i] == ready[i];
      } else {
        assert ApiNew(busy[i], ids);
      }
    }
  }

  lemma TotalOne(entries: seq<Entry>, e: Entry, kind: Kind)
    ensures Total(entries + [e], kind, true) == Total(entries, kind, true) + Share(e, kind, true)
  {
    assert (entries + [e])[..|entries|] == entries;
  }

  lemma SettleEffect(entries: seq<Entry>, i: nat, e: Entry)
    requires i < |entries| && entries[i].kind == Gpu && e.kind == Gpu && e.status == Incurred
             && e.entryId == entries[i].entryId
    requires forall k :: 0 <= k < |entries| && k != i ==> !(entries[k].kind == Gpu && entries[k].status == Estimated)
    ensures !Outstanding(entries[i := e], Gpu)
    ensures Total(entries[i := e], Gpu, true) == Total(entries, Gpu, true) - entries[i].amount + e.amount
    ensures Total(entries[i := e], Storage, true) == Total(entries, Storage, true)
    ensures Total(entries[i := e], Other, true) == Total(entries, Other, true)
    ensures forall id :: HasId(entries[i := e], id) <==> HasId(entries, id)
  {
    hide Total;
    TotalUpdate(entries, i, e, Gpu, true);
    TotalUpdate(entries, i, e, Storage, true);
    TotalUpdate(entries, i, e, Other, true);
    var next := entries[i := e];
    forall id
      ensures HasId(next, id) <==> HasId(entries, id)
    {
      if HasId(entries, id) {
        assert next[IndexOf(entries, id).value].entryId == Some(id);
      }
      if HasId(next, id) {
        assert entries[IndexOf(next, id).value].entryId == Some(id);
      }
    }
  }

  lemma SettlingWrites(hash: Hash, limits: Limits, entries: seq<Entry>, r: Receipt, amount: int, at: string, i: nat)
    requires Settling(hash, limits, entries, r, amount, at).Ok? && IndexOf(entries, r.reservationId) == Some(i)
    requires entries[i].status == Estimated
    ensures Settling(hash, limits, entries, r, amount, at).value ==
            entries[i := Normalized(r.SettlementEntry(amount, at), Some(r.reservationId))]
  {
    hide ValidatedEntry, ReceiptConsistent, TotalsOf, WithinLimits, Blank;
  }

  // The settlement of a granted phase at or below its maximum is accepted and closes it.
  lemma PhaseSettled(hash: Hash, limits: Limits, ready: seq<Entry>, q: Request, at: string, during: seq<Op>,
                     amount: int, settledAt: string, ids: set<string>)
    requires Digests(hash) && ValidLedger(limits, ready) && Reserving(hash, limits, ready, q, at).Ok?
    requires Bystanders(during, ids)
    requires 0 <= amount <= Reserving(hash, limits, ready, q, at).value.receipt.phaseMaximum
    ensures var g := Reserving(hash, limits, ready, q, at).value;
            var o := Settling(hash, limits, Run(limits, g.entries, during), g.receipt, amount, settledAt);
            o.Ok? && AfterPhase(limits, ready, o.value, g.receipt.reservationId, amount, ids)
  {
    hide Run, Reserving, Settling, ReceiptConsistent, HoursFor, SafetyCeiling, CeilMicro, Bystanders, IndexOf,
      ApiGrowth, HasId, Total, Outstanding, ValidLedger, Description, Digests, Reserved, Close;
    var g := Reserving(hash, limits, ready, q, at).value;
    var r := g.receipt;
    var busy := Run(limits, g.entries, during);
    GrantFacts(hash, limits, ready, q, at);
    BesideSession(hash, limits, ready, q, at, during, ids);
    IssuedConsistent(hash, limits, ready, q, at);
    GpuTotals(ready, g.entries, busy, ids);
    var held := g.entries[|ready|];
    OpenSettled(hash, limits, busy, r, amount, settledAt, |ready|);
    SettleEffect(busy, |ready|, Normalized(r.SettlementEntry(amount, settledAt), Some(r.reservationId)));
    forall other | other in ids && other != r.reservationId
      ensures HasId(busy, other) <==> HasId(ready, other)
    {
      ApiGrowthGpu(g.entries, busy, ids);
      OtherId(ready, held, other);
    }
  }

  lemma OtherId(entries: seq<Entry>, e: Entry, id: string)
    requires e.entryId != Some(id)
    ensures HasId(entries + [e], id) <==> HasId(entries, id)
  {
    var all := entries + [e];
    if HasId(entries, id) {
      assert all[IndexOf(entries, id).value].entryId == Some(id);
    }
  }

  lemma IssuedConsistent(hash: Hash, limits: Limits, entries: seq<Entry>, q: Request, at: string)
    requires Digests(hash) && ValidLedger(limits, entries) && Reserving(hash, limits, entries, q, at).Ok?
    ensures ReceiptConsistent(hash, Reserving(hash, limits, entries, q, at).value.receipt)
    ensures IsHash(Reserving(hash, limits, entries, q, at).value.receipt.reservationId)
  {
    IssuedReceiptsConsistent(hash, limits, entries, q, at);
  }

  lemma GpuTotals(ready: seq<Entry>, granted: seq<Entry>, busy: seq<Entry>, ids: set<string>)
    requires |granted| == |ready| + 1 && granted == ready + [granted[|ready|]] && granted[|ready|].kind == Gpu
    requires ApiGrowth(granted, busy, ids)
    ensures Total(busy, Gpu, true) == Total(ready, Gpu, true) + granted[|ready|].amount
    ensures Total(busy, Storage, true) == Total(ready, Storage, true)
            && Total(busy, Other, true) == Total(ready, Other, true)
  {
    hide Total, ApiGrowth;
    ApiGrowthTotal(granted, busy, ids, Gpu);
    ApiGrowthTotal(granted, busy, ids, Storage);
    ApiGrowthTotal(granted, busy, ids, Other);
    TotalOne(ready, granted[|ready|], Gpu);
    TotalOne(ready, granted[|ready|], Storage);
    TotalOne(ready, granted[|ready|], Other);
  }

  lemma OpenSettled(hash: Hash, limits: Limits, busy: seq<Entry>, r: Receipt, amount: int, at: string, i: nat)
    requires ReceiptConsistent(hash, r) && IsHash(r.reservationId) && Reserved(limits, busy, r)
    requires IndexOf(busy, r.reservationId) == Some(i) && busy[i].status == Estimated
    requires Total(busy, Gpu, true) == r.committedGpuAfter && 0 <= amount <= r.phaseMaximum
    ensures var o := Settling(hash, limits, busy, r, amount, at);
            && o.Ok? && o.value == busy[i := Normalized(r.SettlementEntry(amount, at), Some(r.reservationId))]
            && ValidLedger(limits, o.value)
  {
    hide ReceiptConsistent, IsHash, Total, Settling, Reserved, ValidLedger, Description;
    SettlementAccepted(hash, limits, busy, r, amount, at);
    SettlingWrites(hash, limits, busy, r, amount, at, i);
    StillValid(limits, Settling(hash, limits, busy, r, amount, at).value, r);
  }

  lemma StillValid(limits: Limits, entries: seq<Entry>, r: Receipt)
    requires Reserved(limits, entries, r)
    ensures ValidLedger(limits, entries)
  {
  }

  // One phase, start to finish: it succeeds exactly when it finds room.
  lemma PhaseRuns(hash: Hash, limits: Limits, entries: seq<Entry>, p: PhaseRun, ids: set<string>)
    requires Digests(hash) && ValidCaps(limits) && ValidLedger(limits, entries) && Orderly(p)
    requires !Outstanding(entries, Gpu) && TotalFits(limits, entries, Reserves(p))
    requires RequestId(hash, p.request) in ids && !HasId(entries, RequestId(hash, p.request))
    requires Bystanders(p.before, ids) && Bystanders(p.during, ids)
    ensures var o := RunPhase(hash, limits, entries, p);
            && (o.Ok? <==> FindsRoom(limits, Total(entries, Gpu, true), p))
            && (o.Ok? ==> AfterPhase(limits, entries, o.value, RequestId(hash, p.request), p.amount, ids))
  {
    hide Run, Reserving, Settling, Bystanders, ApiGrowth, HasId, Total, Outstanding, ValidLedger, Digests, ValidRequest;
    hide TotalFits, ValidCaps, FindsRoom, CeilMicro;
    PhaseDecided(hash, limits, entries, p, ids);
    var ready := Run(limits, entries, p.before);
    if Reserving(hash, limits, ready, p.request, p.at).Ok? {
      GrantFacts(hash, limits, ready, p.request, p.at);
      PhaseSettled(hash, limits, ready, p.request, p.at, p.during, p.amount, p.settledAt, ids);
      ApiGrowthTotal(entries, ready, ids, Gpu);
      ApiGrowthTotal(entries, ready, ids, Storage);
      ApiGrowthTotal(entries, ready, ids, Other);
      ApiGrowthGpu(entries, ready, ids);
    }
  }

  // --- The whole plan ---

  lemma AffordableSplit(caps: Limits, spent: int, phases: seq<PhaseRun>)
    requires |phases| > 0
    ensures Affordable(caps, spent, phases) <==>
            FindsRoom(caps, spent, phases[0]) && Affordable(caps, spent + phases[0].amount, phases[1..])
  {
    hide FindsRoom;
    var rest := phases[1..];
    assert Spent(phases[..0]) == 0;
    forall i | 0 <= i < |rest|
      ensures Spent(phases[..i + 1]) == phases[0].amount + Spent(rest[..i])
    {
      assert phases[..i + 1][1..] == rest[..i];
    }
    if FindsRoom(caps, spent, phases[0]) && Affordable(caps, spent + phases[0].amount, rest) {
      forall i | 0 <= i < |phases|
        ensures FindsRoom(caps, spent + Spent(phases[..i]), phases[i])
      {
        if i > 0 {
          assert FindsRoom(caps, spent + phases[0].amount + Spent(rest[..i - 1]), rest[i - 1]);
          assert Spent(phases[..i - 1 + 1]) == phases[0].amount + Spent(rest[..i - 1]);
        }
      }
    }
    if Affordable(caps, spent, phases) {
      assert FindsRoom(caps, spent + Spent(phases[..0]), phases[0]);
      forall i | 0 <= i < |rest|
        ensures FindsRoom(caps, spent + phases[0].amount + Spent(rest[..i]), rest[i])
      {
        assert FindsRoom(caps, spent + Spent(phases[..i + 1]), phases[i + 1]);
      }
    }
  }

  lemma LessFits(caps: Limits, entries: seq<Entry>, future: int, less: int)
    requires TotalFits(caps, entries, future) && less <= future
    ensures TotalFits(caps, entries, less)
  {
    hide Total;
  }

  // What is left of the plan still fits after a phase.
  lemma RestFits(caps: Limits, before: seq<Entry>, after: seq<Entry>, id: string, amount: int, ids: set<string>,
                 now: int, rest: int)
    requires TotalFits(caps, before, now + rest) && AfterPhase(caps, before, after, id, amount, ids) && amount <= now
    ensures TotalFits(caps, after, rest)
  {
    hide Total, ValidLedger, Outstanding, HasId;
  }

  lemma {:induction false} ReservedNonNegative(phases: seq<PhaseRun>)
    requires forall i :: 0 <= i < |phases| ==> Orderly(phases[i])
    ensures 0 <= Spent(phases) <= AllReserved(phases)
  {
    hide Reserves, ValidRequest;
    if |phases| > 0 {
      ReservedNonNegative(phases[1..]);
      assert Orderly(phases[0]);
    }
  }

  // A sequence of phases succeeds exactly when each finds room in turn.
  lemma {:induction false} PlanRuns(hash: Hash, limits: Limits, entries: seq<Entry>, phases: seq<PhaseRun>,
                                    ids: set<string>)
    requires Digests(hash) && ValidCaps(limits) && ValidLedger(limits, entries) && !Outstanding(entries, Gpu)
    requires (forall i :: 0 <= i < |phases| ==> Orderly(phases[i])) && Fresh(hash, entries, phases, ids)
    requires TotalFits(limits, entries, AllReserved(phases))
    ensures var o := RunPhases(hash, limits, entries, phases);
            && (o.Ok? <==> Affordable(limits, Total(entries, Gpu, true), phases))
            && (o.Ok? ==> && ValidLedger(limits, o.value) && !Outstanding(o.value, Gpu)
                          && Total(o.value, Gpu, true) == Total(entries, Gpu, true) + Spent(phases))
    decreases |phases|
  {
    hide RunPhase, ValidLedger, Outstanding, Total, HasId, RequestId, Bystanders, Digests, ValidCaps, ValidRequest;
    hide TotalFits, FindsRoom, Reserves, Affordable;
    if |phases| == 0 {
      NothingToAfford(limits, Total(entries, Gpu, true), phases);
    } else {
      var p, rest := phases[0], phases[1..];
      assert Orderly(p);
      ReservedNonNegative(rest);
      LessFits(limits, entries, AllReserved(phases), Reserves(p));
      PhaseRuns(hash, limits, entries, p, ids);
      AffordableSplit(limits, Total(entries, Gpu, true), phases);
      if RunPhase(hash, limits, entries, p).Ok? {
        var next := RunPhase(hash, limits, entries, p).value;
        forall i | 0 <= i < |rest|
          ensures !HasId(next, RequestId(hash, rest[i].request))
        {
          assert rest[i] == phases[i + 1];
        }
        RestFits(limits, entries, next, RequestId(hash, p.request), p.amount, ids, Reserves(p), AllReserved(rest));
        PlanRuns(hash, limits, next, rest, ids);
      }
    }
  }

  lemma NothingToAfford(caps: Limits, spent: int, phases: seq<PhaseRun>)
    requires |phases| == 0
    ensures Affordable(caps, spent, phases)
  {
  }

  // --- Choosing from the plan ---

  // Taking out one maximum.
  lemma TakeOut(planned: seq<PhaseMaximum>, k: nat)
    requires k < |planned|
    ensures var rest := planned[..k] + planned[k + 1..];
            && PlanTotal(planned) == planned[k].maximum + PlanTotal(rest)
            && multiset(planned) == multiset(rest) + multiset{planned[k]}
            && forall i :: 0 <= i < |rest| ==> rest[i] in planned
  {
    var left, right := planned[..k], planned[k + 1..];
    assert planned == left + ([planned[k]] + right);
    SumAppend(left, [planned[k]] + right, MaximumOf());
    SumAppend([planned[k]], right, MaximumOf());
    SumAppend(left, right, MaximumOf());
  }

  lemma FirstMaximum(maxima: seq<PhaseMaximum>)
    requires |maxima| > 0
    ensures PlanTotal(maxima) == maxima[0].maximum + PlanTotal(maxima[1..])
  {
    TakeOut(maxima, 0);
    assert maxima[..0] + maxima[1..] == maxima[1..];
  }

  lemma ChosenRest(chosen: seq<PhaseMaximum>, planned: seq<PhaseMaximum>) returns (k: nat)
    requires |chosen| > 0 && Chosen(chosen, planned)
    ensures k < |planned| && planned[k] == chosen[0] && Chosen(chosen[1..], planned[..k] + planned[k + 1..])
  {
    hide PlanTotal;
    assert chosen == [chosen[0]] + chosen[1..];
    assert multiset(chosen) == multiset{chosen[0]} + multiset(chosen[1..]);
    assert chosen[0] in multiset(planned);
    k :| 0 <= k < |planned| && planned[k] == chosen[0];
    TakeOut(planned, k);
    forall x
      ensures multiset(chosen[1..])[x] <= multiset(planned[..k] + planned[k + 1..])[x]
    {
      assert multiset(chosen)[x] <= multiset(planned)[x];
    }
  }

  // Some of the maxima sum to at most all of them.
  lemma {:induction false} ChosenSum(chosen: seq<PhaseMaximum>, planned: seq<PhaseMaximum>)
    requires Chosen(chosen, planned) && forall m :: m in planned ==> m.maximum > 0
    ensures PlanTotal(chosen) <= PlanTotal(planned)
    decreases |chosen|
  {
    hide Chosen;
    if |chosen| == 0 {
      SumPositive(planned);
    } else {
      hide PlanTotal;
      var k := ChosenRest(chosen, planned);
      TakeOut(planned, k);
      FirstMaximum(chosen);
      ChosenSum(chosen[1..], planned[..k] + planned[k + 1..]);
    }
  }

  lemma {:induction false} SumPositive(maxima: seq<PhaseMaximum>)
    requires forall m :: m in maxima ==> m.maximum > 0
    ensures PlanTotal(maxima) >= 0
  {
    if |maxima| > 0 {
      SumPositive(maxima[..|maxima| - 1]);
    }
  }

  lemma {:induction false} ReservedWithin(phases: seq<PhaseRun>, chosen: seq<PhaseMaximum>)
    requires AllFit(phases, chosen)
    ensures AllReserved(phases) <= PlanTotal(chosen)
    decreases |phases|
  {
    hide Reserves, Orderly;
    if |phases| == 0 {
    } else {
      hide PlanTotal;
      ReservedWithin(phases[1..], chosen[1..]);
      assert Fits(phases[0], chosen[0]);
      FirstMaximum(chosen);
    }
  }

  // The planned maxima of an accepted review, all positive.
  lemma PlannedPositive(quote: Quote, planned: seq<Command>)
    requires ValidQuote(quote) && Maxima(quote, GPU_ORDER).Some?
    ensures forall m :: m in PlannedMaxima(Maxima(quote, GPU_ORDER).value, planned) ==> m.maximum > 0
  {
    hide Maxima, PlannedMaxima, ValidQuote;
    QuotedMaxima(quote);
    SumNonNegative(Maxima(quote, GPU_ORDER).value, planned);
  }

  // After an accepted review, any choice of its phases in any order, each with a margin of its own and with any API
  // work in between, is granted and settled throughout exactly when no GPU estimate is outstanding at the review and
  // each phase in turn finds room under the ceiling of its margin; the GPU total then grows by what the phases were
  // settled at.
  lemma AcceptedPlanDecided(hash: Hash, caps: Limits, quote: Quote, entries: seq<Entry>, margin: real,
                            names: seq<string>, phases: seq<PhaseRun>, chosen: seq<PhaseMaximum>, ids: set<string>)
    requires Digests(hash) && ValidCaps(caps) && ValidQuote(quote) && ValidLedger(caps, entries)
    requires Review(caps, quote, entries, margin, names).Ok?
    requires var payload := Review(caps, quote, entries, margin, names).value;
             AllFit(phases, chosen) && Chosen(chosen, PlannedMaxima(payload.maxima, payload.planned))
    requires Fresh(hash, entries, phases, ids)
    ensures var o := RunPhases(hash, caps, entries, phases);
            && (o.Ok? <==>
                phases == [] || (!Outstanding(entries, Gpu) && Affordable(caps, Total(entries, Gpu, true), phases)))
            && (o.Ok? ==> Total(o.value, Gpu, true) == Total(entries, Gpu, true) + Spent(phases))
  {
    hide Review, RunPhase, ValidLedger, Outstanding, Total, SafetyCeiling, HasId, RequestId, Bystanders, Digests,
      ValidCaps;
    hide ValidQuote, Canonical, Maxima, PlannedMaxima, PlanTotal, TotalFits, Affordable, Chosen, Orderly, Reserves;
    ReviewAcceptedIff(caps, quote, entries, margin, names);
    PlannedPositive(quote, Canonical(names).value);
    ChosenSum(chosen, PlannedMaxima(Maxima(quote, GPU_ORDER).value, Canonical(names).value));
    ReservedWithin(phases, chosen);
    if phases != [] && Outstanding(entries, Gpu) {
      OutstandingBlocks(hash, caps, entries, phases[0], ids);
    } else if phases != [] {
      LessFits(caps, entries, PlanTotal(PlannedMaxima(Maxima(quote, GPU_ORDER).value, Canonical(names).value)),
               AllReserved(phases));
      forall i | 0 <= i < |phases|
        ensures Orderly(phases[i])
      {
        assert Fits(phases[i], chosen[i]);
      }
      PlanRuns(hash, caps, entries, phases, ids);
    }
  }

  // A larger margin never raises the ceiling.
  lemma CeilingAntitone(gpuCap: nat, a: real, b: real)
    requires a <= b
    ensures SafetyCeiling(gpuCap, b) <= SafetyCeiling(gpuCap, a)
  {
    assert gpuCap as real * (1.0 - b) <= gpuCap as real * (1.0 - a);
  }

  ghost predicate MarginsAtMost(phases: seq<PhaseRun>, margin: real) {
    forall i :: 0 <= i < |phases| ==> phases[i].request.margin <= margin
  }

  lemma PartReserved(phases: seq<PhaseRun>, i: nat)
    requires i < |phases| && forall k :: 0 <= k < |phases| ==> Orderly(phases[k])
    ensures Spent(phases[..i]) + Reserves(phases[i]) <= AllReserved(phases)
    decreases i
  {
    hide Reserves, ValidRequest;
    ReservedNonNegative(phases[1..]);
    assert Orderly(phases[0]);
    if i > 0 {
      assert phases[..i][1..] == phases[1..][..i - 1];
      PartReserved(phases[1..], i - 1);
    }
  }

  // With no margin above the reviewed one every phase finds room.
  lemma ReviewedMarginsAffordable(caps: Limits, spent: int, margin: real, phases: seq<PhaseRun>)
    requires forall k :: 0 <= k < |phases| ==> Orderly(phases[k])
    requires MarginsAtMost(phases, margin) && spent + AllReserved(phases) <= SafetyCeiling(caps.gpu, margin)
    ensures Affordable(caps, spent, phases)
  {
    hide Orderly, Reserves, SafetyCeiling, Spent, AllReserved;
    forall i | 0 <= i < |phases|
      ensures FindsRoom(caps, spent + Spent(phases[..i]), phases[i])
    {
      PartReserved(phases, i);
      CeilingAntitone(caps.gpu, phases[i].request.margin, margin);
    }
  }

  // An accepted review is enough for the whole plan when no reservation asks for a wider margin than the review did:
  // no planned phase is then ever refused, exactly when no GPU estimate is outstanding at the review,
  // and the GPU total stays under the reviewed ceiling.
  lemma AcceptedPlanNeverRefused(hash: Hash, caps: Limits, quote: Quote, entries: seq<Entry>, margin: real,
                                 names: seq<string>, phases: seq<PhaseRun>, chosen: seq<PhaseMaximum>, ids: set<string>)
    requires Digests(hash) && ValidCaps(caps) && ValidQuote(quote) && ValidLedger(caps, entries)
    requires Review(caps, quote, entries, margin, names).Ok?
    requires var payload := Review(caps, quote, entries, margin, names).value;
             AllFit(phases, chosen) && Chosen(chosen, PlannedMaxima(payload.maxima, payload.planned))
    requires Fresh(hash, entries, phases, ids) && MarginsAtMost(phases, margin)
    ensures var o := RunPhases(hash, caps, entries, phases);
            && (o.Ok? <==> phases == [] || !Outstanding(entries, Gpu))
            && (o.Ok? ==> && Total(o.value, Gpu, true) == Total(entries, Gpu, true) + Spent(phases)
                          && Total(o.value, Gpu, true) <= SafetyCeiling(caps.gpu, margin))
  {
    hide Review, RunPhases, ValidLedger, Outstanding, Total, SafetyCeiling, Fresh, Digests, ValidCaps, ValidQuote;
    hide Canonical, Maxima, PlannedMaxima, PlanTotal, TotalFits, Affordable, Chosen, Orderly, Reserves, MarginsAtMost;
    AcceptedPlanDecided(hash, caps, quote, entries, margin, names, phases, chosen, ids);
    ReviewAcceptedIff(caps, quote, entries, margin, names);
    PlannedPositive(quote, Canonical(names).value);
    ChosenSum(chosen, PlannedMaxima(Maxima(quote, GPU_ORDER).value, Canonical(names).value));
    ReservedWithin(phases, chosen);
    forall i | 0 <= i < |phases|
      ensures Orderly(phases[i])
    {
      assert Fits(phases[i], chosen[i]);
    }
    ReservedNonNegative(phases);
    ReviewedMarginsAffordable(caps, Total(entries, Gpu, true), margin, phases);
  }

  // --- The two ways an accepted plan is refused ---

  // A quote for eight GPUs, 20 cents an hour in all.
  function SmallQuote(hours: Command -> real): Quote {
    Quote(8, 0.0125, 0.1, hours)
  }

  const CAPS := Limits(1_000_000, 0, 1_000_000)

  lemma QuotedMaximum(quote: Quote, c: Command, m: int)
    requires quote == SmallQuote(quote.hours) && quote.hours(c) * 200_000.0 == m as real && m > 0
    ensures Maximum(quote, c) == Some(m)
  {
    ApprovedMaximumCovers(8, 0.0125, 0.1, quote.hours(c));
    assert HourlyRate(8, 0.0125, 0.1) * quote.hours(c) * MICRO == m as real;
  }

  lemma MaximaStep(quote: Quote, commands: seq<Command>, c: Command, next: seq<Command>, front: seq<PhaseMaximum>,
                   m: int, all: seq<PhaseMaximum>)
    requires Maxima(quote, commands) == Some(front) && Maximum(quote, c) == Some(m)
    requires next == commands + [c] && all == front + [PhaseMaximum(c, m)]
    ensures Maxima(quote, next) == Some(all)
  {
    hide Maximum;
    assert next[..|commands|] == commands;
  }

  lemma FourMaxima(quote: Quote, others: int, lens: int)
    requires forall c :: Maximum(quote, c) == Some(if c == LensGpu then lens else others)
    ensures Maxima(quote, GPU_ORDER) == Some(Four(others, lens))
  {
    assert Maxima(quote, []) == Some([]);
    hide Maximum, Maxima;
    var four := Four(others, lens);
    MaximaStep(quote, [], BaselineGpu, GPU_ORDER[..1], [], others, four[..1]);
    MaximaStep(quote, GPU_ORDER[..1], TreatmentGpu, GPU_ORDER[..2], four[..1], others, four[..2]);
    MaximaStep(quote, GPU_ORDER[..2], ResampleGpu, GPU_ORDER[..3], four[..2], others, four[..3]);
    MaximaStep(quote, GPU_ORDER[..3], LensGpu, GPU_ORDER, four[..3], lens, four);
  }

  function Four(others: int, lens: int): seq<PhaseMaximum> {
    [PhaseMaximum(BaselineGpu, others), PhaseMaximum(TreatmentGpu, others), PhaseMaximum(ResampleGpu, others),
     PhaseMaximum(LensGpu, lens)]
  }

  lemma SingleCommand(scope: seq<Command>, c: Command)
    requires Distinct(scope) && scope != [] && forall i :: 0 <= i < |scope| ==> scope[i] == c
    ensures scope == [c]
  {
    if |scope| >= 2 {
      FirstTwoDiffer(scope);
    }
  }

  lemma FirstTwoDiffer(scope: seq<Command>)
    requires Distinct(scope) && |scope| >= 2
    ensures scope[0] != scope[1]
  {
  }

  // The scope that plans the lens phase alone.
  lemma LensScope()
    ensures Canonical(["lens_gpu"]) == Some([LensGpu])
  {
    assert IsName("lens_gpu") by {
      assert Name(ORDER[8]) == "lens_gpu";
    }
    CanonicalScope(["lens_gpu"]);
    var scope := Canonical(["lens_gpu"]).value;
    OrderDistinct();
    SubsequenceMembers(scope, ORDER);
    hide ORDER, Subsequence, Canonical;
    forall c | c in scope
      ensures c == LensGpu
    {
      if c != LensGpu {
        NamesDiffer(c, LensGpu);
      }
    }
    forall i | 0 <= i < |scope|
      ensures scope[i] == LensGpu
    {
      assert scope[i] in scope;
    }
    SingleCommand(scope, LensGpu);
  }

  lemma PlannedStep(m: PhaseMaximum, rest: seq<PhaseMaximum>, all: seq<PhaseMaximum>, planned: seq<Command>)
    requires all == [m] + rest
    ensures PlannedMaxima(all, planned) ==
            if m.command in planned then [m] + PlannedMaxima(rest, planned) else PlannedMaxima(rest, planned)
  {
    assert all[1..] == rest;
  }

  lemma LensPlanned(planned: seq<Command>, others: int, lens: int)
    requires LensGpu in planned && BaselineGpu !in planned && TreatmentGpu !in planned && ResampleGpu !in planned
    ensures PlannedMaxima(Four(others, lens), planned) == [PhaseMaximum(LensGpu, lens)]
  {
    var four := Four(others, lens);
    assert PlannedMaxima([], planned) == [];
    hide PlannedMaxima;
    PlannedStep(four[3], [], four[3..], planned);
    PlannedStep(four[2], four[3..], four[2..], planned);
    PlannedStep(four[1], four[2..], four[1..], planned);
    PlannedStep(four[0], four[1..], four, planned);
  }

  // A ledger whose only entry is a GPU estimate of at most one micro-dollar.
  function Speck(amount: nat): seq<Entry> {
    [Entry(Gpu, amount, "speck", Estimated, "2026-01-01T00:00:00+00:00", Some("speck"))]
  }

  lemma SpeckLedger(amount: nat, caps: Limits)
    requires amount <= 1 && caps.gpu >= 1 && caps.total >= 1
    ensures ValidLedger(caps, Speck(amount))
    ensures Total(Speck(amount), Gpu, true) == amount && Total(Speck(amount), Gpu, false) == 0
    ensures Total(Speck(amount), Storage, true) == 0 && Total(Speck(amount), Other, true) == 0
  {
    var entries := Speck(amount);
    assert entries[..0] == [];
    assert entries[0].description[0] == 's';
  }

  // An hour of each phase.
  function OneHour(): Command -> real {
    (c: Command) => 1.0
  }

  // Four hours of the lens phase and three minutes of each other one.
  function LongLens(): Command -> real {
    (c: Command) => if c == LensGpu then 4.0 else 0.05
  }

  // A plan of the lens phase alone is accepted when it fits with room to spare.
  lemma LensReviewAccepted(quote: Quote, entries: seq<Entry>, maximum: int, others: int)
    requires quote == SmallQuote(quote.hours) && maximum > 0 && others > 0
    requires forall c :: quote.hours(c) * 200_000.0 == (if c == LensGpu then maximum else others) as real
    requires ValidLedger(CAPS, entries) && Total(entries, Gpu, true) - Total(entries, Gpu, false) <= 1
    requires Total(entries, Storage, true) == 0 && Total(entries, Other, true) == 0
    requires Total(entries, Gpu, true) + maximum <= 900_000
    ensures ValidQuote(quote) && Review(CAPS, quote, entries, 0.1, ["lens_gpu"]).Ok?
    ensures var payload := Review(CAPS, quote, entries, 0.1, ["lens_gpu"]).value;
            PlannedMaxima(payload.maxima, payload.planned) == [PhaseMaximum(LensGpu, maximum)]
  {
    hide Total, ValidLedger, Review, Maximum, Canonical, Maxima, PlannedMaxima;
    forall c
      ensures Maximum(quote, c) == Some(if c == LensGpu then maximum else others) && quote.hours(c) > 0.0
    {
      QuotedMaximum(quote, c, if c == LensGpu then maximum else others);
    }
    FourMaxima(quote, others, maximum);
    LensScope();
    QuotedMaxima(quote);
    LensPlanned([LensGpu], others, maximum);
    FirstMaximum([PhaseMaximum(LensGpu, maximum)]);
    ReviewAcceptedIff(CAPS, quote, entries, 0.1, ["lens_gpu"]);
  }

  // Such a ledger passes the review of a plan with room to spare, yet no planned phase can be reserved.
  lemma SpeckPassesReview(hash: Hash, amount: nat, p: PhaseRun, ids: set<string>)
    requires amount <= 1 && Digests(hash) && Bystanders(p.before, ids)
    ensures ValidLedger(CAPS, Speck(amount))
    ensures Review(CAPS, SmallQuote(OneHour()), Speck(amount), 0.1, ["lens_gpu"]).Ok?
    ensures RunPhase(hash, CAPS, Speck(amount), p).Err?
  {
    SpeckLedger(amount, CAPS);
    assert Speck(amount)[0].kind == Gpu && Speck(amount)[0].status == Estimated;
    OutstandingBlocks(hash, CAPS, Speck(amount), p, ids);
    hide RunPhase, ValidLedger, Total, Speck, Review;
    LensReviewAccepted(SmallQuote(OneHour()), Speck(amount), 200_000, 200_000);
  }

  lemma EmptyTotal(kind: Kind, estimates: bool)
    ensures Total([], kind, estimates) == 0
  {
  }

  lemma EmptyLedger(caps: Limits)
    ensures ValidLedger(caps, []) && !Outstanding([], Gpu)
  {
    EmptyTotal(Gpu, true);
    EmptyTotal(Api, true);
    EmptyTotal(Storage, true);
    EmptyTotal(Other, true);
    hide Total;
  }

  // With an empty ledger an accepted plan is refused at a wider margin than the reviewed one, and granted at the
  // reviewed one.
  lemma WiderMarginRefused(hash: Hash, p: PhaseRun, ids: set<string>)
    requires Digests(hash) && Orderly(p) && Fresh(hash, [], [p], ids)
    requires p.request.phase == "lens_gpu" && Reserves(p) == 800_000
    ensures ValidLedger(CAPS, []) && !Outstanding([], Gpu)
    ensures Review(CAPS, SmallQuote(LongLens()), [], 0.1, ["lens_gpu"]).Ok?
    ensures var payload := Review(CAPS, SmallQuote(LongLens()), [], 0.1, ["lens_gpu"]).value;
            AllFit([p], PlannedMaxima(payload.maxima, payload.planned))
    ensures p.request.margin == 0.24 ==> RunPhase(hash, CAPS, [], p).Err?
    ensures p.request.margin == 0.1 ==> RunPhase(hash, CAPS, [], p).Ok?
  {
    hide Outstanding, Total, Review, RunPhase, ValidLedger, Digests, Orderly, Reserves, HasId, Bystanders, RequestId;
    EmptyLedger(CAPS);
    EmptyTotal(Gpu, true);
    EmptyTotal(Gpu, false);
    EmptyTotal(Storage, true);
    EmptyTotal(Other, true);
    LensReviewAccepted(SmallQuote(LongLens()), [], 800_000, 10_000);
    assert SafetyCeiling(CAPS.gpu, 0.24) == 760_000 && SafetyCeiling(CAPS.gpu, 0.1) == 900_000;
    assert [p][0] == p;
    PhaseRuns(hash, CAPS, [], p, ids);
  }
}
