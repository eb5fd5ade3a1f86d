// What the review of a paid plan decides, on the requested names, the quote and the ledger, and what any accepted
// review payload guarantees.
module PaidPlanReviews {
  import opened Numbers
  import opened Options
  import opened Sums
  import opened Ledger
  import opened GpuBudget
  import opened PaidPlan

  // --- The request ---

  const GPU_NAMES: seq<string> := ["behavior_baseline_gpu", "behavior_treatment_gpu", "resample_gpu", "lens_gpu"]

  const API_NAMES: seq<string> :=
    ["behavior_baseline_api", "behavior_treatment_api", "anchors_api", "resample_api", "positions_api"]

  // At least one phase, none twice, and no unknown one.
  ghost predicate ScopeOk(phases: seq<string>) {
    && phases != [] && (forall i, j :: 0 <= i < j < |phases| ==> phases[i] != phases[j])
    && forall s :: s in phases ==> s in GPU_NAMES || s in API_NAMES
  }

  lemma NamesAre(s: string)
    ensures IsName(s) <==> s in GPU_NAMES || s in API_NAMES
    ensures Name(BaselineGpu) == GPU_NAMES[0] && Name(TreatmentGpu) == GPU_NAMES[1]
    ensures Name(ResampleGpu) == GPU_NAMES[2] && Name(LensGpu) == GPU_NAMES[3]
  {
    if s in GPU_NAMES {
      assert Name(ORDER[0]) == GPU_NAMES[0] && Name(ORDER[2]) == GPU_NAMES[1];
      assert Name(ORDER[5]) == GPU_NAMES[2] && Name(ORDER[8]) == GPU_NAMES[3];
    } else if s in API_NAMES {
      assert Name(ORDER[1]) == API_NAMES[0] && Name(ORDER[3]) == API_NAMES[1] && Name(ORDER[4]) == API_NAMES[2];
      assert Name(ORDER[6]) == API_NAMES[3] && Name(ORDER[7]) == API_NAMES[4];
    }
    if IsName(s) {
      var i :| 0 <= i < |ORDER| && Name(ORDER[i]) == s;
      NameListed(ORDER[i]);
    }
  }

  lemma NameListed(c: Command)
    ensures Name(c) in GPU_NAMES || Name(c) in API_NAMES
  {
    match c
    case BaselineGpu => assert Name(c) == GPU_NAMES[0];
    case BaselineApi => assert Name(c) == API_NAMES[0];
    case TreatmentGpu => assert Name(c) == GPU_NAMES[1];
    case TreatmentApi => assert Name(c) == API_NAMES[1];
    case AnchorsApi => assert Name(c) == API_NAMES[2];
    case ResampleGpu => assert Name(c) == GPU_NAMES[2];
    case ResampleApi => assert Name(c) == API_NAMES[3];
    case PositionsApi => assert Name(c) == API_NAMES[4];
    case LensGpu => assert Name(c) == GPU_NAMES[3];
  }

  lemma ScopeIff(phases: seq<string>)
    ensures Canonical(phases).Some? <==> ScopeOk(phases)
  {
    hide IsName, GPU_NAMES, API_NAMES;
    forall s: string {
      NamesAre(s);
    }
    if ScopeOk(phases) {
      forall i | 0 <= i < |phases|
        ensures IsName(phases[i])
      {
        assert phases[i] in phases;
      }
    }
  }

  // --- The future maxima ---

  // The amounts of the four GPU phases, each the quoted cost of its hours rounded up to the micro-dollar.
  ghost predicate Quoted(q: Quote, amount: Command -> int) {
    forall c :: c in GPU_ORDER ==>
                  (amount(c) - 1) as real < (q.gpuCount as real * q.perGpu + q.storage) * q.hours(c) * 1_000_000.0
                  <= amount(c) as real
  }

  ghost function If(b: bool, amount: int): int {
    if b then amount else 0
  }

  ghost function Future(phases: seq<string>, amount: Command -> int): int {
    If("behavior_baseline_gpu" in phases, amount(BaselineGpu))
    + If("behavior_treatment_gpu" in phases, amount(TreatmentGpu))
    + If("resample_gpu" in phases, amount(ResampleGpu)) + If("lens_gpu" in phases, amount(LensGpu))
  }

  lemma QuotedIs(q: Quote, amount: Command -> int, c: Command)
    requires ValidQuote(q) && Quoted(q, amount) && c in GPU_ORDER
    ensures Maximum(q, c) == Some(amount(c))
  {
    hide ApprovedMaximum, Quoted;
    var i :| 0 <= i < |GPU_ORDER| && GPU_ORDER[i] == c;
    assert q.hours(c) > 0.0;
    QuotedAt(q, amount, c);
    ApprovedMaximumCovers(q.gpuCount, q.perGpu, q.storage, q.hours(c));
    Unique(amount(c), Maximum(q, c).value, (q.gpuCount as real * q.perGpu + q.storage) * q.hours(c) * 1_000_000.0);
  }

  lemma QuotedAt(q: Quote, amount: Command -> int, c: Command)
    requires Quoted(q, amount) && c in GPU_ORDER
    ensures var cost := (q.gpuCount as real * q.perGpu + q.storage) * q.hours(c) * 1_000_000.0;
            (amount(c) - 1) as real < cost <= amount(c) as real
  {
  }

  lemma Unique(a: int, b: int, x: real)
    requires (a - 1) as real < x <= a as real && x <= b as real < x + 1.0
    ensures a == b
  {
  }

  lemma MaximaAre(q: Quote, amount: Command -> int)
    requires ValidQuote(q) && Quoted(q, amount)
    ensures Maxima(q, GPU_ORDER) ==
            Some([PhaseMaximum(BaselineGpu, amount(BaselineGpu)), PhaseMaximum(TreatmentGpu, amount(TreatmentGpu)),
                  PhaseMaximum(ResampleGpu, amount(ResampleGpu)), PhaseMaximum(LensGpu, amount(LensGpu))])
  {
    hide Quoted, Maximum;
    forall c | c in GPU_ORDER
      ensures q.hours(c) > 0.0 && Maximum(q, c) == Some(amount(c))
    {
      var i :| 0 <= i < |GPU_ORDER| && GPU_ORDER[i] == c;
      QuotedIs(q, amount, c);
    }
    MaximaListed(q, GPU_ORDER);
    var m := Maxima(q, GPU_ORDER).value;
    forall i | 0 <= i < 4
      ensures m[i] == PhaseMaximum(GPU_ORDER[i], amount(GPU_ORDER[i]))
    {
      assert GPU_ORDER[i] in GPU_ORDER;
    }
    assert m == [m[0], m[1], m[2], m[3]];
  }

  lemma PlannedNext(m: PhaseMaximum, rest: seq<PhaseMaximum>, planned: seq<Command>)
    ensures PlanTotal(PlannedMaxima([m] + rest, planned)) ==
            If(m.command in planned, m.maximum) + PlanTotal(PlannedMaxima(rest, planned))
  {
    var all := [m] + rest;
    assert all[1..] == rest;
    if m.command in planned {
      SumAppend([m], PlannedMaxima(rest, planned), MaximumOf());
      assert [m][..0] == [];
    } else {
      assert [] + PlannedMaxima(rest, planned) == PlannedMaxima(rest, planned);
    }
  }

  // The cost of the GPU phases of a plan.
  lemma FutureIs(phases: seq<string>, planned: seq<Command>, amount: Command -> int)
    requires forall c :: c in planned <==> Name(c) in phases
    ensures PlanTotal(PlannedMaxima([PhaseMaximum(BaselineGpu, amount(BaselineGpu)),
                                     PhaseMaximum(TreatmentGpu, amount(TreatmentGpu)),
                                     PhaseMaximum(ResampleGpu, amount(ResampleGpu)),
                                     PhaseMaximum(LensGpu, amount(LensGpu))], planned)) == Future(phases, amount)
  {
    var a, b := PhaseMaximum(BaselineGpu, amount(BaselineGpu)), PhaseMaximum(TreatmentGpu, amount(TreatmentGpu));
    var c, d := PhaseMaximum(ResampleGpu, amount(ResampleGpu)), PhaseMaximum(LensGpu, amount(LensGpu));
    NamesAre("");
    PlannedNext(a, [b, c, d], planned);
    PlannedNext(b, [c, d], planned);
    PlannedNext(c, [d], planned);
    PlannedNext(d, [], planned);
    assert [a, b, c, d] == [a] + [b, c, d] && [b, c, d] == [b] + [c, d] && [c, d] == [c] + [d] && [d] == [d] + [];
  }

  // --- The review ---

  ghost function OpenGpu(entries: seq<Entry>): int {
    Total(entries, Gpu, true) - Total(entries, Gpu, false)
  }

  // The worst case of the plan over all categories, with the API cap spent in full.
  ghost function WorstTotal(caps: Limits, entries: seq<Entry>, future: int): int {
    Total(entries, Gpu, true) + future + caps.api + Total(entries, Storage, true) + Total(entries, Other, true)
  }

  // The plan of these phases, at these amounts, leaves room under both caps.
  ghost predicate Fits(caps: Limits, entries: seq<Entry>, margin: real, future: int) {
    && (Total(entries, Gpu, true) + future) as real <= caps.gpu as real * (1.0 - margin)
    && WorstTotal(caps, entries, future) <= caps.total
  }

  lemma FitsIff(caps: Limits, entries: seq<Entry>, margin: real, future: int)
    ensures PlanFits(caps, entries, margin, future) <==> Fits(caps, entries, margin, future)
  {
    hide Total, SafetyCeiling;
    FloorIff(SafetyCeiling(caps.gpu, margin), caps.gpu as real * (1.0 - margin), Total(entries, Gpu, true) + future);
  }

  lemma PlannedFuture(phases: seq<string>, quote: Quote, amount: Command -> int)
    requires Canonical(phases).Some? && ValidQuote(quote) && Quoted(quote, amount)
    ensures Maxima(quote, GPU_ORDER).Some?
    ensures PlanTotal(PlannedMaxima(Maxima(quote, GPU_ORDER).value, Canonical(phases).value)) == Future(phases, amount)
  {
    hide Canonical, Maxima, PlanTotal, PlannedMaxima, Quoted, Future;
    MaximaAre(quote, amount);
    CanonicalScope(phases);
    FutureIs(phases, Canonical(phases).value, amount);
  }

  lemma QuoteOk(q: Quote)
    requires q.gpuCount >= 1 && q.perGpu > 0.0 && q.storage > 0.0 && forall c :: c in GPU_ORDER ==> q.hours(c) > 0.0
    ensures ValidQuote(q)
  {
    forall i | 0 <= i < |GPU_ORDER|
      ensures q.hours(GPU_ORDER[i]) > 0.0
    {
      assert GPU_ORDER[i] in GPU_ORDER;
    }
  }

  // The review is accepted exactly when its margin and its scope are in order, the open GPU estimates come to at most a
  // micro-dollar, and the worst case fits under the margin of the GPU cap and under the total cap.
  lemma ReviewDecided(caps: Limits, quote: Quote, entries: seq<Entry>, margin: real, phases: seq<string>,
                      amount: Command -> int)
    requires caps.total >= caps.gpu + caps.api && ValidLedger(caps, entries)
    requires quote.gpuCount >= 1 && quote.perGpu > 0.0 && quote.storage > 0.0
    requires (forall c :: c in GPU_ORDER ==> quote.hours(c) > 0.0) && Quoted(quote, amount)
    ensures Review(caps, quote, entries, margin, phases).Ok? <==>
            && 0.0 < margin < 0.25 && ScopeOk(phases) && OpenGpu(entries) <= 1
            && Fits(caps, entries, margin, Future(phases, amount))
  {
    hide Review, Maxima, Canonical, Total, ValidLedger, PlanTotal, PlannedMaxima, ScopeOk, Quoted, Future, ValidQuote;
    hide PlanFits, Fits, GPU_ORDER;
    QuoteOk(quote);
    ScopeIff(phases);
    ReviewAcceptedIff(caps, quote, entries, margin, phases);
    if Canonical(phases).Some? {
      PlannedFuture(phases, quote, amount);
      FitsIff(caps, entries, margin, Future(phases, amount));
    }
  }

  // What refuses it first: the margin, then the scope, then the open estimates.
  lemma ReviewRefused(caps: Limits, quote: Quote, entries: seq<Entry>, margin: real, phases: seq<string>)
    requires ValidLedger(caps, entries) && quote.gpuCount >= 1 && quote.perGpu > 0.0 && quote.storage > 0.0
    requires forall c :: c in GPU_ORDER ==> quote.hours(c) > 0.0
    ensures var o := Review(caps, quote, entries, margin, phases);
            && (o == Err(MarginOutOfRange) <==> margin <= 0.0 || margin >= 0.25)
            && (o == Err(BadPhases) <==> 0.0 < margin < 0.25 && !ScopeOk(phases))
            && (o == Err(GpuOutstanding) <==> 0.0 < margin < 0.25 && ScopeOk(phases) && OpenGpu(entries) > 1)
            && o != Err(BadQuote)
  {
    hide Maxima, Canonical, Total, ValidLedger, PlanTotal, PlannedMaxima, PayloadAccepted, ScopeOk, ValidQuote,
      GPU_ORDER, CumulativeOf, CostsOf;
    QuoteOk(quote);
    QuotedMaxima(quote);
    ScopeIff(phases);
    CostsNonNegative(caps, entries);
    GpuCosts(entries);
    if Canonical(phases).Some? {
      CumulativeKeeps(caps, entries, margin,
                      PlanTotal(PlannedMaxima(Maxima(quote, GPU_ORDER).value, Canonical(phases).value)));
    }
  }

  lemma GpuCosts(entries: seq<Entry>)
    ensures CostsOf(entries, true).gpu == Total(entries, Gpu, true)
    ensures CostsOf(entries, false).gpu == Total(entries, Gpu, false)
  {
    hide Total;
  }

  lemma CumulativeKeeps(caps: Limits, entries: seq<Entry>, margin: real, future: int)
    ensures var c := CumulativeOf(caps, entries, margin, future);
            c.committed.gpu == Total(entries, Gpu, true) && c.incurred.gpu == Total(entries, Gpu, false)
  {
    hide Total;
  }

  // --- Any accepted payload ---

  ghost function PlannedSum(p: Payload): int {
    PlanTotal(PlannedMaxima(p.maxima, p.planned))
  }

  // Whoever wrote it, an accepted payload plans no more than the caps allow, up to the slack of its checks, counts no
  // open GPU estimate over a micro-dollar, and states no negative amount.
  lemma PayloadSafe(p: Payload)
    requires PayloadAccepted(p)
    ensures 0.0 < p.cost.margin < 0.25 && p.caps.gpu + p.caps.api <= p.caps.total
    ensures (p.cost.committed.gpu + PlannedSum(p)) as real <= p.caps.gpu as real * (1.0 - p.cost.margin) + 2.0
    ensures p.cost.committed.gpu + PlannedSum(p) <= p.caps.gpu + 2
    ensures p.cost.committed.gpu + PlannedSum(p) + p.caps.api + p.cost.committed.storage + p.cost.committed.other
            <= p.caps.total + 3
    ensures p.cost.committed.api <= p.caps.api + 1 && p.cost.committed.total <= p.caps.total + 1
    ensures -1 <= p.cost.committed.gpu - p.cost.incurred.gpu <= 1
    ensures forall a :: a in [p.cost.incurred, p.cost.committed] ==>
                          && 0 <= a.gpu && 0 <= a.api && 0 <= a.storage && 0 <= a.other && 0 <= a.total
                          && -1 <= a.total - a.gpu - a.api - a.storage - a.other <= 1
    ensures p.cost.incurred.api <= p.cost.committed.api + 1 && p.cost.incurred.storage <= p.cost.committed.storage + 1
    ensures p.cost.incurred.other <= p.cost.committed.other + 1 && p.cost.incurred.total <= p.cost.committed.total + 1
  {
    hide Canonical, SafetyCeiling, PlannedMaxima, PlanTotal, ValidMaxima;
    Slack(p.cost.committed.gpu + PlannedSum(p), SafetyCeiling(p.caps.gpu, p.cost.margin),
          p.caps.gpu as real * (1.0 - p.cost.margin));
  }

  lemma Slack(a: int, m: int, x: real)
    requires a <= m + 2 && m as real <= x
    ensures a as real <= x + 2.0
  {
  }

  // The four maxima are positive and stand in the fixed order, and the planned phases are in theirs.
  lemma PayloadListed(p: Payload)
    requires PayloadAccepted(p)
    ensures |p.maxima| == 4 && forall i :: 0 <= i < 4 ==> p.maxima[i].maximum > 0
    ensures p.maxima[0].command == BaselineGpu && p.maxima[1].command == TreatmentGpu
    ensures p.maxima[2].command == ResampleGpu && p.maxima[3].command == LensGpu
    ensures p.planned != [] && Distinct(p.planned) && Subsequence(p.planned, ORDER)
  {
    hide ORDER, Selected, Acceptable, Subsequence, CumulativeMatches, ValidCumulative;
    CanonicalScope(Names(p.planned));
    ScopeDistinct(Names(p.planned));
  }

  // The stated sums cannot be altered past the slack: they follow from the plan, the caps, the margin and the ledger.
  lemma PayloadDetermined(p: Payload, q: Payload)
    requires PayloadAccepted(p) && PayloadAccepted(q)
    requires p.planned == q.planned && p.maxima == q.maxima && p.caps == q.caps
    requires p.cost.margin == q.cost.margin && p.cost.committed == q.cost.committed
    ensures Near(p.cost.futureGpu, q.cost.futureGpu, 2) && Near(p.cost.gpuWorst, q.cost.gpuWorst, 2)
    ensures Near(p.cost.ceiling, q.cost.ceiling, 2) && Near(p.cost.apiHardStop, q.cost.apiHardStop, 2)
    ensures Near(p.cost.safetyHeadroom, q.cost.safetyHeadroom, 4) && Near(p.cost.hardHeadroom, q.cost.hardHeadroom, 4)
    ensures Near(p.cost.totalWorst, q.cost.totalWorst, 4) && Near(p.cost.totalHeadroom, q.cost.totalHeadroom, 6)
  {
    hide Canonical, SafetyCeiling, PlannedMaxima, PlanTotal, ValidMaxima, ValidCosts, Dominated;
  }
}
