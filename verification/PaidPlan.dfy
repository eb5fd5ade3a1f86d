// The review of a paid plan: which command phases are planned, and whether their worst case fits under every cap.
module PaidPlan {
  import opened Options
  import opened Sums
  import opened Ledger
  import opened LedgerRuns
  import opened GpuBudget

  // --- Command phases ---

  datatype Command =
    | BaselineGpu | BaselineApi | TreatmentGpu | TreatmentApi | AnchorsApi | ResampleGpu | ResampleApi | PositionsApi
    | LensGpu

  const ORDER: seq<Command> :=
    [BaselineGpu, BaselineApi, TreatmentGpu, TreatmentApi, AnchorsApi, ResampleGpu, ResampleApi, PositionsApi, LensGpu]

  const GPU_ORDER: seq<Command> := [BaselineGpu, TreatmentGpu, ResampleGpu, LensGpu]

  function Name(c: Command): string {
    match c
    case BaselineGpu => "behavior_baseline_gpu"
    case BaselineApi => "behavior_baseline_api"
    case TreatmentGpu => "behavior_treatment_gpu"
    case TreatmentApi => "behavior_treatment_api"
    case AnchorsApi => "anchors_api"
    case ResampleGpu => "resample_gpu"
    case ResampleApi => "resample_api"
    case PositionsApi => "positions_api"
    case LensGpu => "lens_gpu"
  }

  predicate IsName(s: string) {
    exists i :: 0 <= i < |ORDER| && Name(ORDER[i]) == s
  }

  function Selected(order: seq<Command>, phases: seq<string>): seq<Command> {
    if |order| == 0 then [] else
      Selected(order[..|order| - 1], phases) + (if Name(order[|order| - 1]) in phases then [order[|order| - 1]] else [])
  }

  predicate Acceptable(phases: seq<string>) {
    phases != [] && Distinct(phases) && forall i :: 0 <= i < |phases| ==> IsName(phases[i])
  }

  // The canonical scope of a list of phase names, refused when empty, repeated or unknown.
  function Canonical(phases: seq<string>): Option<seq<Command>> {
    if Acceptable(phases) then Some(Selected(ORDER, phases)) else None
  }

  function Names(commands: seq<Command>): seq<string> {
    seq(|commands|, i requires 0 <= i < |commands| => Name(commands[i]))
  }

  ghost predicate Subsequence(a: seq<Command>, b: seq<Command>) {
    a == [] || (b != [] && (Subsequence(a, b[..|b| - 1])
                            || (a[|a| - 1] == b[|b| - 1] && Subsequence(a[..|a| - 1], b[..|b| - 1]))))
  }

  lemma {:induction false} SelectedMembers(order: seq<Command>, phases: seq<string>)
    ensures forall c :: c in Selected(order, phases) <==> c in order && Name(c) in phases
    ensures Subsequence(Selected(order, phases), order)
  {
    if |order| > 0 {
      var front, last := order[..|order| - 1], order[|order| - 1];
      SelectedMembers(front, phases);
      assert forall c :: c in order <==> c in front || c == last;
      var s := Selected(order, phases);
      if Name(last) in phases {
        assert s[..|s| - 1] == Selected(front, phases);
      } else {
        assert s == Selected(front, phases);
      }
    }
  }

  lemma EveryCommandOrdered(c: Command)
    ensures c in ORDER && IsName(Name(c))
  {
    match c
    case BaselineGpu => assert ORDER[0] == c;
    case BaselineApi => assert ORDER[1] == c;
    case TreatmentGpu => assert ORDER[2] == c;
    case TreatmentApi => assert ORDER[3] == c;
    case AnchorsApi => assert ORDER[4] == c;
    case ResampleGpu => assert ORDER[5] == c;
    case ResampleApi => assert ORDER[6] == c;
    case PositionsApi => assert ORDER[7] == c;
    case LensGpu => assert ORDER[8] == c;
  }

  // The canonical scope keeps the fixed order and names exactly the phases that were asked for.
  lemma CanonicalScope(phases: seq<string>)
    requires Canonical(phases).Some?
    ensures var scope := Canonical(phases).value;
            && scope != [] && Subsequence(scope, ORDER)
            && (forall c :: c in scope <==> Name(c) in phases)
            && (forall s :: s in phases ==> exists c :: c in scope && Name(c) == s)
  {
    SelectedMembers(ORDER, phases);
    forall c: Command {
      EveryCommandOrdered(c);
    }
    var scope := Canonical(phases).value;
    forall s | s in phases
      ensures exists c :: c in scope && Name(c) == s
    {
      var k :| 0 <= k < |phases| && phases[k] == s;
      var i :| 0 <= i < |ORDER| && Name(ORDER[i]) == s;
      assert ORDER[i] in scope;
    }
    assert phases[0] in phases;
  }

  lemma {:induction false} SelectedSame(order: seq<Command>, a: seq<string>, b: seq<string>)
    requires forall s :: s in a <==> s in b
    ensures Selected(order, a) == Selected(order, b)
  {
    if |order| > 0 {
      SelectedSame(order[..|order| - 1], a, b);
    }
  }

  // Two acceptable lists have one canonical scope exactly when they ask for the same phases.
  lemma SameScope(a: seq<string>, b: seq<string>)
    requires Canonical(a).Some? && Canonical(b).Some?
    ensures Canonical(a) == Canonical(b) <==> forall s :: s in a <==> s in b
  {
    CanonicalScope(a);
    CanonicalScope(b);
    if forall s :: s in a <==> s in b {
      SelectedSame(ORDER, a, b);
    }
  }

  // --- The quote and the phase maxima ---

  datatype Quote = Quote(gpuCount: int, perGpu: real, storage: real, hours: Command -> real)

  predicate ValidQuote(q: Quote) {
    && q.gpuCount >= 1 && q.perGpu > 0.0 && q.storage > 0.0
    && forall i :: 0 <= i < |GPU_ORDER| ==> q.hours(GPU_ORDER[i]) > 0.0
  }

  datatype PhaseMaximum = PhaseMaximum(command: Command, maximum: int)

  function Maximum(q: Quote, c: Command): Option<int> {
    ApprovedMaximum(q.gpuCount, q.perGpu, q.storage, q.hours(c))
  }

  function Maxima(q: Quote, commands: seq<Command>): Option<seq<PhaseMaximum>> {
    if |commands| == 0 then Some([]) else
      var last := commands[|commands| - 1];
      var front, m := Maxima(q, commands[..|commands| - 1]), Maximum(q, last);
      if front.Some? && m.Some? then Some(front.value + [PhaseMaximum(last, m.value)]) else None
  }

  function PlannedMaxima(maxima: seq<PhaseMaximum>, planned: seq<Command>): seq<PhaseMaximum> {
    if |maxima| == 0 then [] else
      (if maxima[0].command in planned then [maxima[0]] else []) + PlannedMaxima(maxima[1..], planned)
  }

  function MaximumOf(): PhaseMaximum -> int {
    (m: PhaseMaximum) => m.maximum
  }

  function PlanTotal(maxima: seq<PhaseMaximum>): int {
    Sum(maxima, MaximumOf())
  }

  // --- The review payload and its validators ---

  datatype CostTotals = CostTotals(gpu: int, api: int, storage: int, other: int, total: int)

  function CostsOf(entries: seq<Entry>, estimates: bool): CostTotals {
    var t := TotalsOf(entries, estimates);
    CostTotals(t.gpu, t.api, t.storage, t.other, t.total())
  }

  datatype Cumulative = Cumulative(
    incurred: CostTotals, committed: CostTotals, futureGpu: int, gpuWorst: int, margin: real,
    ceiling: int, safetyHeadroom: int, hardHeadroom: int, apiHardStop: int, totalWorst: int, totalHeadroom: int)

  datatype Payload = Payload(planned: seq<Command>, maxima: seq<PhaseMaximum>, caps: Limits, cost: Cumulative)

  predicate ValidCaps(caps: Limits) {
    caps.total >= caps.gpu + caps.api
  }

  predicate ValidCosts(t: CostTotals) {
    && t.gpu >= 0 && t.api >= 0 && t.storage >= 0 && t.other >= 0 && t.total >= 0
    && Close(t.total, t.gpu + t.api + t.storage + t.other)
  }

  predicate ValidCumulative(c: Cumulative) {
    && ValidCosts(c.incurred) && ValidCosts(c.committed)
    && c.futureGpu >= 0 && c.gpuWorst >= 0 && c.ceiling >= 0 && c.safetyHeadroom >= 0 && c.hardHeadroom >= 0
    && c.apiHardStop >= 0 && c.totalWorst >= 0 && c.totalHeadroom >= 0
    && 0.0 < c.margin < 0.25
  }

  predicate Dominated(a: CostTotals, b: CostTotals) {
    a.gpu <= b.gpu + 1 && a.api <= b.api + 1 && a.storage <= b.storage + 1 && a.other <= b.other + 1
      && a.total <= b.total + 1
  }

  predicate ValidMaxima(maxima: seq<PhaseMaximum>) {
    && |maxima| == |GPU_ORDER|
    && forall i :: 0 <= i < |maxima| ==> maxima[i].command == GPU_ORDER[i] && maxima[i].maximum > 0
  }

  // cumulative_values_match_review
  predicate CumulativeMatches(p: Payload) {
    var c := p.cost;
    var ceiling := SafetyCeiling(p.caps.gpu, c.margin);
    && Dominated(c.incurred, c.committed)
    && c.committed.api <= p.caps.api + 1 && c.committed.total <= p.caps.total + 1
    && Close(c.committed.gpu, c.incurred.gpu)
    && Close(c.futureGpu, PlanTotal(PlannedMaxima(p.maxima, p.planned)))
    && Close(c.gpuWorst, c.committed.gpu + PlanTotal(PlannedMaxima(p.maxima, p.planned)))
    && Close(c.ceiling, ceiling)
    && Close(c.safetyHeadroom, ceiling - c.gpuWorst)
    && Close(c.apiHardStop, p.caps.api)
    && Close(c.hardHeadroom, p.caps.gpu - c.gpuWorst)
    && Close(c.totalWorst, c.gpuWorst + p.caps.api + c.committed.storage + c.committed.other)
    && Close(c.totalHeadroom, p.caps.total - c.totalWorst)
  }

  predicate PayloadAccepted(p: Payload) {
    && Canonical(Names(p.planned)) == Some(p.planned)
    && ValidMaxima(p.maxima) && ValidCaps(p.caps) && ValidCumulative(p.cost) && CumulativeMatches(p)
  }

  // --- The review itself ---

  datatype PlanError =
    | MarginOutOfRange | BadPhases | BadQuote | GpuOutstanding | OverGpuCeiling | OverTotal | PayloadRefused

  function CumulativeOf(caps: Limits, entries: seq<Entry>, margin: real, future: int): Cumulative {
    CumulativeFrom(caps, CostsOf(entries, false), CostsOf(entries, true), margin, future)
  }

  function CumulativeFrom(caps: Limits, incurred: CostTotals, committed: CostTotals, margin: real,
                          future: int): Cumulative {
    var gpuWorst := committed.gpu + future;
    var ceiling := SafetyCeiling(caps.gpu, margin);
    var totalWorst := gpuWorst + caps.api + committed.storage + committed.other;
    Cumulative(incurred, committed, future, gpuWorst, margin, ceiling, ceiling - gpuWorst, caps.gpu - gpuWorst,
               caps.api, totalWorst, caps.total - totalWorst)
  }

  function Review(caps: Limits, quote: Quote, entries: seq<Entry>, margin: real,
                  phases: seq<string>): Result<Payload, PlanError> {
    if !(0.0 < margin < 0.25) then Err(MarginOutOfRange)
    else
      var planned := Canonical(phases);
      if planned.None? then Err(BadPhases)
      else
        var maxima := Maxima(quote, GPU_ORDER);
        if maxima.None? then Err(BadQuote)
        else
          var cost := CumulativeOf(caps, entries, margin, PlanTotal(PlannedMaxima(maxima.value, planned.value)));
          if !Close(cost.committed.gpu, cost.incurred.gpu) then Err(GpuOutstanding)
          else if cost.gpuWorst > cost.ceiling + 1 then Err(OverGpuCeiling)
          else if cost.totalWorst > caps.total + 1 then Err(OverTotal)
          else
            var payload := Payload(planned.value, maxima.value, caps, cost);
            if PayloadAccepted(payload) then Ok(payload) else Err(PayloadRefused)
  }

  // --- What the review decides ---

  lemma {:induction false} MaximaListed(q: Quote, commands: seq<Command>)
    requires q.gpuCount >= 1 && q.perGpu > 0.0 && q.storage >= 0.0 && forall c :: c in commands ==> q.hours(c) > 0.0
    ensures var m := Maxima(q, commands);
            && m.Some? && |m.value| == |commands|
            && forall i :: 0 <= i < |commands| ==>
                 m.value[i].command == commands[i] && Maximum(q, commands[i]) == Some(m.value[i].maximum)
                   && m.value[i].maximum > 0
  {
    if |commands| > 0 {
      var front, last := commands[..|commands| - 1], commands[|commands| - 1];
      MaximaListed(q, front);
      assert last in commands;
      ApprovedMaximumCovers(q.gpuCount, q.perGpu, q.storage, q.hours(last));
    }
  }

  lemma QuotedMaxima(q: Quote)
    requires ValidQuote(q)
    ensures Maxima(q, GPU_ORDER).Some? && ValidMaxima(Maxima(q, GPU_ORDER).value)
  {
    forall c | c in GPU_ORDER
      ensures q.hours(c) > 0.0
    {
      var i :| 0 <= i < |GPU_ORDER| && GPU_ORDER[i] == c;
    }
    MaximaListed(q, GPU_ORDER);
  }

  lemma {:induction false} SumNonNegative(maxima: seq<PhaseMaximum>, planned: seq<Command>)
    requires forall i :: 0 <= i < |maxima| ==> maxima[i].maximum > 0
    ensures PlanTotal(PlannedMaxima(maxima, planned)) >= 0
    ensures forall m :: m in PlannedMaxima(maxima, planned) ==> m in maxima
  {
    if |maxima| > 0 {
      SumNonNegative(maxima[1..], planned);
      var rest, all := PlannedMaxima(maxima[1..], planned), PlannedMaxima(maxima, planned);
      assert all == rest || all == [maxima[0]] + rest;
      SumAppend([maxima[0]], rest, MaximumOf());
    }
  }

  lemma {:induction false} SubsequenceMembers(a: seq<Command>, b: seq<Command>)
    requires Subsequence(a, b) && Distinct(b)
    ensures Distinct(a) && forall c :: c in a ==> c in b
    decreases |b|
  {
    if a != [] {
      var front := b[..|b| - 1];
      if Subsequence(a, front) {
        SubsequenceMembers(a, front);
      } else {
        SubsequenceMembers(a[..|a| - 1], front);
        forall i | 0 <= i < |a| - 1
          ensures a[i] != a[|a| - 1]
        {
          assert a[i] in a[..|a| - 1];
        }
        forall c | c in a
          ensures c in b
        {
          assert c in a[..|a| - 1] || c == b[|b| - 1];
        }
      }
    }
  }

  lemma OrderDistinct()
    ensures Distinct(ORDER)
  {
  }

  // The names of a canonical scope are acceptable, and are the requested phases.
  lemma ScopeNames(phases: seq<string>)
    requires Canonical(phases).Some?
    ensures var names := Names(Canonical(phases).value);
            Acceptable(names) && forall s :: s in names <==> s in phases
  {
    hide ORDER, Name, IsName, Subsequence, Selected, Canonical;
    var scope := Canonical(phases).value;
    var names := Names(scope);
    ScopeDistinct(phases);
    CanonicalScope(phases);
    forall i | 0 <= i < |names|
      ensures IsName(names[i]) && names[i] in phases
    {
      EveryCommandOrdered(scope[i]);
      assert scope[i] in scope;
    }
    forall i, j | 0 <= i < j < |names|
      ensures names[i] != names[j]
    {
      NamesDiffer(scope[i], scope[j]);
    }
    forall s | s in phases
      ensures s in names
    {
      var c :| c in scope && Name(c) == s;
      var k :| 0 <= k < |scope| && scope[k] == c;
      assert names[k] == s;
    }
  }

  lemma ScopeDistinct(phases: seq<string>)
    requires Canonical(phases).Some?
    ensures Distinct(Canonical(phases).value)
  {
    CanonicalScope(phases);
    OrderDistinct();
    SubsequenceMembers(Canonical(phases).value, ORDER);
  }

  // A canonical scope is its own canonical form.
  lemma CanonicalFixed(phases: seq<string>)
    requires Canonical(phases).Some?
    ensures Canonical(Names(Canonical(phases).value)) == Canonical(phases)
  {
    hide ORDER, Acceptable, Selected;
    ScopeNames(phases);
    SelectedSame(ORDER, Names(Canonical(phases).value), phases);
  }

  lemma NamesDiffer(a: Command, b: Command)
    requires a != b
    ensures Name(a) != Name(b)
  {
    if |Name(a)| == |Name(b)| {
      // Equal lengths only pair a GPU phase with the API phase of the same stage.
      var position := |Name(a)| - 3;
      assert Name(a)[position] != Name(b)[position];
    }
  }

  lemma CostsNonNegative(limits: Limits, entries: seq<Entry>)
    requires ValidLedger(limits, entries)
    ensures ValidCosts(CostsOf(entries, false)) && ValidCosts(CostsOf(entries, true))
    ensures Dominated(CostsOf(entries, false), CostsOf(entries, true))
    ensures CostsOf(entries, false).gpu <= CostsOf(entries, true).gpu
    ensures CostsOf(entries, true).api <= limits.api && CostsOf(entries, true).total <= limits.total
  {
    TotalNonNegative(entries, Gpu);
    TotalNonNegative(entries, Api);
    TotalNonNegative(entries, Storage);
    TotalNonNegative(entries, Other);
  }

  // The plan's worst case, with the API cap spent in full, stays under the total cap.
  ghost predicate TotalFits(caps: Limits, entries: seq<Entry>, future: int) {
    Total(entries, Gpu, true) + future + caps.api + Total(entries, Storage, true) + Total(entries, Other, true)
    <= caps.total
  }

  ghost predicate PlanFits(caps: Limits, entries: seq<Entry>, margin: real, future: int) {
    Total(entries, Gpu, true) + future <= SafetyCeiling(caps.gpu, margin) && TotalFits(caps, entries, future)
  }

  lemma PayloadIff(caps: Limits, entries: seq<Entry>, margin: real, phases: seq<string>, maxima: seq<PhaseMaximum>)
    requires ValidCaps(caps) && ValidLedger(caps, entries) && 0.0 < margin < 0.25
    requires Canonical(phases).Some? && ValidMaxima(maxima)
    ensures var planned := Canonical(phases).value;
            var future := PlanTotal(PlannedMaxima(maxima, planned));
            var cost := CumulativeOf(caps, entries, margin, future);
            && (PayloadAccepted(Payload(planned, maxima, caps, cost)) <==>
                Total(entries, Gpu, true) - Total(entries, Gpu, false) <= 1 && PlanFits(caps, entries, margin, future))
            && (PlanFits(caps, entries, margin, future) ==>
                cost.gpuWorst <= cost.ceiling && cost.totalWorst <= caps.total)
            && cost.committed.gpu - cost.incurred.gpu >= 0
  {
    hide Canonical, Names, Total, SafetyCeiling, ValidLedger, PlannedMaxima, PlanTotal, ValidCosts, Dominated,
      CumulativeFrom, ValidCumulative, CumulativeMatches;
    CostsNonNegative(caps, entries);
    SumNonNegative(maxima, Canonical(phases).value);
    CanonicalFixed(phases);
    CumulativeIff(caps, CostsOf(entries, false), CostsOf(entries, true), Canonical(phases).value, maxima, margin);
  }

  lemma CumulativeIff(caps: Limits, incurred: CostTotals, committed: CostTotals, planned: seq<Command>,
                      maxima: seq<PhaseMaximum>, margin: real)
    requires ValidCosts(incurred) && ValidCosts(committed) && Dominated(incurred, committed) && 0.0 < margin < 0.25
    requires committed.api <= caps.api && committed.total <= caps.total && incurred.gpu <= committed.gpu
    requires PlanTotal(PlannedMaxima(maxima, planned)) >= 0
    ensures var future := PlanTotal(PlannedMaxima(maxima, planned));
            var c := CumulativeFrom(caps, incurred, committed, margin, future);
            && c.gpuWorst == committed.gpu + future && c.ceiling == SafetyCeiling(caps.gpu, margin)
            && c.totalWorst == committed.gpu + future + caps.api + committed.storage + committed.other
            && c.committed == committed && c.incurred == incurred
            && (ValidCumulative(c) && CumulativeMatches(Payload(planned, maxima, caps, c)) <==>
                committed.gpu - incurred.gpu <= 1 && c.gpuWorst <= c.ceiling && c.totalWorst <= caps.total)
  {
    hide PlannedMaxima, PlanTotal, ValidCosts, Dominated, SafetyCeiling;
    CeilingBelowCap(caps.gpu, margin);
    CostSigns(committed);
  }

  lemma CostSigns(t: CostTotals)
    requires ValidCosts(t)
    ensures t.gpu >= 0 && t.api >= 0 && t.storage >= 0 && t.other >= 0 && t.total >= 0
  {
  }

  // The rounding slack disappears: a review is accepted exactly when the plan fits to the micro-dollar
  // and the outstanding GPU estimates come to at most one micro-dollar.
  lemma ReviewAcceptedIff(caps: Limits, quote: Quote, entries: seq<Entry>, margin: real, phases: seq<string>)
    requires ValidCaps(caps) && ValidQuote(quote) && ValidLedger(caps, entries)
    ensures Maxima(quote, GPU_ORDER).Some?
    ensures var o := Review(caps, quote, entries, margin, phases);
            && (o.Ok? <==>
                && 0.0 < margin < 0.25 && Canonical(phases).Some?
                && Total(entries, Gpu, true) - Total(entries, Gpu, false) <= 1
                && PlanFits(caps, entries, margin,
                            PlanTotal(PlannedMaxima(Maxima(quote, GPU_ORDER).value, Canonical(phases).value))))
            && (o.Ok? ==> o.value.planned == Canonical(phases).value && o.value.maxima == Maxima(quote, GPU_ORDER).value
                          && o.value.cost.margin == margin && o.value.caps == caps)
  {
    hide Maxima, Canonical, Total, SafetyCeiling, ValidLedger, PlanTotal, PlannedMaxima, PayloadAccepted, PlanFits;
    QuotedMaxima(quote);
    if 0.0 < margin < 0.25 && Canonical(phases).Some? {
      PayloadIff(caps, entries, margin, phases, Maxima(quote, GPU_ORDER).value);
    }
  }
}
