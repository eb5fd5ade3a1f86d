// The behavioural contrasts with their missing-data guards, from rollout rows to verdicts.
// The verdict an interval step proposes is an arbitrary input.
module GuardedContrasts {
  import opened Numbers
  import opened Options
  import opened Sums
  import opened MissingBounds

  datatype Process = Process(valid: Option<bool>, firstGood: Option<bool>, finalGood: Option<bool>,
                             crossing: Option<real>, stopped: Option<bool>, revisions: Option<real>)

  datatype Rollout = Rollout(task: string, condition: string, first: Option<real>, final: Option<real>,
                             threshold: Option<real>, process: Process)

  datatype Stage = First | Final

  // --- Outcomes per condition ---

  function Above(estimate: Option<real>, threshold: Option<real>): Option<bool> {
    if estimate.None? || threshold.None? then None else Some(estimate.value > threshold.value)
  }

  function StageOutcome(row: Rollout, stage: Stage): Option<bool> {
    Above(if stage.First? then row.first else row.final, row.threshold)
  }

  function Selected(rows: seq<Rollout>, condition: string): seq<Rollout> {
    if |rows| == 0 then [] else
      var last := rows[|rows| - 1];
      Selected(rows[..|rows| - 1], condition)
        + (if last.task == "giraffe" && last.condition == condition then [last] else [])
  }

  function OutcomesOf(rows: seq<Rollout>, condition: string, stage: Stage): Outcomes {
    var selected := Selected(rows, condition);
    seq(|selected|, i requires 0 <= i < |selected| => StageOutcome(selected[i], stage))
  }

  function StageBound(rows: seq<Rollout>, condition: string, stage: Stage): RateBound {
    BinaryRateBound(OutcomesOf(rows, condition, stage))
  }

  // --- The cell gate ---

  datatype Measurement = FinalMeasured | BothMeasured | TrajectoryMeasured

  predicate Available(row: Rollout, m: Measurement) {
    match m
    case FinalMeasured => row.final.Some?
    case BothMeasured => row.first.Some? && row.final.Some?
    case TrajectoryMeasured =>
      var p := row.process;
      && p.valid != Some(false)
      && (p.valid == Some(true) || p.revisions.Some? || p.firstGood.Some? || p.finalGood.Some? || p.crossing.Some?
          || p.stopped.Some?)
  }

  function CountAvailable(rows: seq<Rollout>, m: Measurement): (n: nat)
    ensures n <= |rows|
  {
    if |rows| == 0 then 0 else CountAvailable(rows[..|rows| - 1], m) + (if Available(rows[|rows| - 1], m) then 1 else 0)
  }

  predicate CellPasses(rows: seq<Rollout>, condition: string, m: Measurement) {
    var selected := Selected(rows, condition);
    |selected| > 0 && Ratio(CountAvailable(selected, m), |selected|) >= 0.95
  }

  predicate GatePasses(rows: seq<Rollout>, conditions: seq<string>, m: Measurement) {
    |conditions| > 0 && forall i :: 0 <= i < |conditions| ==> CellPasses(rows, conditions[i], m)
  }

  // A cell that passes has rows, so its rates are those of genuine fills.
  lemma PassingCellHasRows(rows: seq<Rollout>, conditions: seq<string>, m: Measurement, i: nat, stage: Stage)
    requires GatePasses(rows, conditions, m) && i < |conditions|
    ensures |OutcomesOf(rows, conditions[i], stage)| > 0
  {
    assert CellPasses(rows, conditions[i], m);
  }

  // --- Cells and gates, on the fields of the rows ---

  ghost function InCell(condition: string): Rollout -> bool {
    (row: Rollout) => row.task == "giraffe" && row.condition == condition
  }

  ghost predicate Measured(row: Rollout, m: Measurement) {
    match m
    case FinalMeasured => row.final != None
    case BothMeasured => row.first != None && row.final != None
    case TrajectoryMeasured =>
      || row.process.valid == Some(true)
      || (row.process.valid == None
          && (row.process.revisions != None || row.process.firstGood != None || row.process.finalGood != None
              || row.process.crossing != None || row.process.stopped != None))
  }

  ghost function MeasuredIn(condition: string, m: Measurement): Rollout -> bool {
    (row: Rollout) => row.task == "giraffe" && row.condition == condition && Measured(row, m)
  }

  // At least 19 of every 20 rows of the cell are measured, and there is one.
  ghost predicate CellComplete(rows: seq<Rollout>, condition: string, m: Measurement) {
    Number(rows, InCell(condition)) > 0
    && 20 * Number(rows, MeasuredIn(condition, m)) >= 19 * Number(rows, InCell(condition))
  }

  lemma {:induction false} SelectedNumber(rows: seq<Rollout>, condition: string)
    ensures |Selected(rows, condition)| == Number(rows, InCell(condition))
  {
    if |rows| == 0 {
      NumberIs(rows, InCell(condition), {});
    } else {
      SelectedNumber(rows[..|rows| - 1], condition);
      NumberLast(rows, InCell(condition));
    }
  }

  lemma {:induction false} AvailableNumber(rows: seq<Rollout>, condition: string, m: Measurement)
    ensures CountAvailable(Selected(rows, condition), m) == Number(rows, MeasuredIn(condition, m))
  {
    if |rows| == 0 {
      NumberIs(rows, MeasuredIn(condition, m), {});
    } else {
      hide Available, Measured, Selected, CountAvailable, Number;
      var front, last := rows[..|rows| - 1], rows[|rows| - 1];
      AvailableNumber(front, condition, m);
      NumberLast(rows, MeasuredIn(condition, m));
      AvailableIff(last, m);
      SelectedLast(rows, condition);
      CountNext(Selected(front, condition), last, m);
    }
  }

  lemma SelectedLast(rows: seq<Rollout>, condition: string)
    requires |rows| > 0
    ensures var front, last := Selected(rows[..|rows| - 1], condition), rows[|rows| - 1];
            Selected(rows, condition) == if InCell(condition)(last) then front + [last] else front
  {
  }

  lemma CountNext(selected: seq<Rollout>, row: Rollout, m: Measurement)
    ensures CountAvailable(selected + [row], m) == CountAvailable(selected, m) + (if Available(row, m) then 1 else 0)
  {
    assert (selected + [row])[..|selected|] == selected;
  }

  lemma AvailableIff(row: Rollout, m: Measurement)
    ensures Available(row, m) <==> Measured(row, m)
  {
    var p := row.process;
    if p.valid.Some? {
      assert p.valid == if p.valid.value then Some(true) else Some(false);
    }
  }

  lemma ShareReached(k: nat, n: nat)
    requires n > 0
    ensures Ratio(k, n) >= 0.95 <==> 20 * k >= 19 * n
  {
    hide Ratio;
    RateReaches(k, n, 0.95);
    Twentieths(k, n);
  }

  lemma Twentieths(k: nat, n: nat)
    ensures k as real >= 0.95 * n as real <==> 20 * k >= 19 * n
  {
    assert 20.0 * k as real == (20 * k) as real && 19.0 * n as real == (19 * n) as real;
  }

  // The gate of an assessment, cell by cell.
  lemma CellPassesIff(rows: seq<Rollout>, condition: string, m: Measurement)
    ensures CellPasses(rows, condition, m) <==> CellComplete(rows, condition, m)
  {
    hide Ratio;
    SelectedNumber(rows, condition);
    AvailableNumber(rows, condition, m);
    if Number(rows, InCell(condition)) > 0 {
      ShareReached(Number(rows, MeasuredIn(condition, m)), Number(rows, InCell(condition)));
    }
  }

  lemma GatePassesIff(rows: seq<Rollout>, conditions: seq<string>, m: Measurement)
    requires |conditions| > 0
    ensures GatePasses(rows, conditions, m) <==> forall c :: c in conditions ==> CellComplete(rows, c, m)
  {
    hide CellPasses, CellComplete;
    forall c
      ensures CellPasses(rows, c, m) <==> CellComplete(rows, c, m)
    {
      CellPassesIff(rows, c, m);
    }
  }

  // --- Rates and their bounds, on the fields of the rows ---

  ghost function EstimateOf(row: Rollout, stage: Stage): Option<real> {
    match stage
    case First => row.first
    case Final => row.final
  }

  // Rows of the cell known to lie above their threshold, and rows of which that is not known.
  ghost function KnownAbove(condition: string, stage: Stage): Rollout -> bool {
    (row: Rollout) =>
      && row.task == "giraffe" && row.condition == condition
      && EstimateOf(row, stage) != None && row.threshold != None
      && EstimateOf(row, stage).value > row.threshold.value
  }

  ghost function NotKnown(condition: string, stage: Stage): Rollout -> bool {
    (row: Rollout) =>
      && row.task == "giraffe" && row.condition == condition
      && (EstimateOf(row, stage) == None || row.threshold == None)
  }

  lemma {:induction false} OutcomeNumbers(rows: seq<Rollout>, condition: string, stage: Stage)
    ensures |OutcomesOf(rows, condition, stage)| == Number(rows, InCell(condition))
    ensures Successes(OutcomesOf(rows, condition, stage)) == Number(rows, KnownAbove(condition, stage))
    ensures Missing(OutcomesOf(rows, condition, stage)) == Number(rows, NotKnown(condition, stage))
  {
    SelectedNumber(rows, condition);
    var outcomes := OutcomesOf(rows, condition, stage);
    if |rows| == 0 {
      NumberIs(rows, KnownAbove(condition, stage), {});
      NumberIs(rows, NotKnown(condition, stage), {});
    } else {
      var front := rows[..|rows| - 1];
      OutcomeNumbers(front, condition, stage);
      NumberLast(rows, KnownAbove(condition, stage));
      NumberLast(rows, NotKnown(condition, stage));
      if InCell(condition)(rows[|rows| - 1]) {
        assert outcomes[..|outcomes| - 1] == OutcomesOf(front, condition, stage);
        assert outcomes[|outcomes| - 1] == StageOutcome(rows[|rows| - 1], stage);
      } else {
        assert outcomes == OutcomesOf(front, condition, stage);
      }
    }
  }

  // The bound of a rate counts every unknown row as a failure at its lower end and as a success at its upper end.
  lemma StageBoundIs(rows: seq<Rollout>, condition: string, stage: Stage)
    ensures var b, n := StageBound(rows, condition, stage), Number(rows, InCell(condition));
            var above, unknown := Number(rows, KnownAbove(condition, stage)), Number(rows, NotKnown(condition, stage));
            if n == 0 then b.low == 0.0 && b.high == 1.0
            else b.low == above as real / n as real && b.high == (above + unknown) as real / n as real
  {
    hide OutcomesOf;
    OutcomeNumbers(rows, condition, stage);
  }

  lemma StageBoundInUnit(rows: seq<Rollout>, condition: string, stage: Stage)
    ensures 0.0 <= StageBound(rows, condition, stage).low <= StageBound(rows, condition, stage).high <= 1.0
  {
    hide Attains;
    RateBoundExact(OutcomesOf(rows, condition, stage));
  }

  // --- Growth of the direction gap ---

  const DIRECTIONS: seq<string> := ["above_good", "below_good"]

  function PairComplete(rows: seq<Rollout>, condition: string): nat {
    CountPairs(Selected(rows, condition))
  }

  function CountPairs(rows: seq<Rollout>): nat {
    if |rows| == 0 then 0 else
      var last := rows[|rows| - 1];
      CountPairs(rows[..|rows| - 1]) + (if last.first.Some? && last.final.Some? && last.threshold.Some? then 1 else 0)
  }

  function GapBound(rows: seq<Rollout>, stage: Stage): Interval {
    AbsoluteDifferenceBound(StageBound(rows, "above_good", stage), StageBound(rows, "below_good", stage))
  }

  function GrowthBound(rows: seq<Rollout>): Interval {
    var first, final := GapBound(rows, First), GapBound(rows, Final);
    Interval(final.low - first.high, final.high - first.low)
  }

  function GrowthAssessment(rows: seq<Rollout>, proposed: Option<bool>, rope: real): Result<Option<bool>, BoundError> {
    var gate := GatePasses(rows, DIRECTIONS, BothMeasured);
    if PairComplete(rows, "above_good") < 2 || PairComplete(rows, "below_good") < 2
    then Guarded(None, Interval(-1.0, 1.0), Positive, rope, gate)
    else Guarded(proposed, GrowthBound(rows), Positive, rope, gate)
  }

  // The estimand under one fill of every stage and direction.
  function Growth(aboveFirst: real, belowFirst: real, aboveFinal: real, belowFinal: real): real {
    Abs(aboveFinal - belowFinal) - Abs(aboveFirst - belowFirst)
  }

  lemma GrowthInBound(rows: seq<Rollout>, af: real, bf: real, al: real, bl: real)
    requires Attains(OutcomesOf(rows, "above_good", First), af) && Attains(OutcomesOf(rows, "below_good", First), bf)
    requires Attains(OutcomesOf(rows, "above_good", Final), al) && Attains(OutcomesOf(rows, "below_good", Final), bl)
    ensures GrowthBound(rows).Has(Growth(af, bf, al, bl))
  {
    hide Attains, BinaryRateBound, OutcomesOf, AbsoluteDifferenceBound, Abs;
    AbsoluteDifferenceExact(OutcomesOf(rows, "above_good", First), OutcomesOf(rows, "below_good", First));
    AbsoluteDifferenceExact(OutcomesOf(rows, "above_good", Final), OutcomesOf(rows, "below_good", Final));
    assert GapBound(rows, First).Has(Abs(af - bf));
    assert GapBound(rows, Final).Has(Abs(al - bl));
  }

  lemma AnyFill(values: Outcomes)
    ensures exists rate :: Attains(values, rate)
  {
    RateBoundExact(values);
  }

  // A growth verdict holds under every fill of the missing outcomes, and no bound is ever out of order.
  lemma GrowthVerdictRobust(rows: seq<Rollout>, proposed: Option<bool>, rope: real)
    ensures GrowthAssessment(rows, proposed, rope).Ok?
    ensures forall verdict, af, bf, al, bl ::
              GrowthAssessment(rows, proposed, rope) == Ok(Some(verdict))
              && Attains(OutcomesOf(rows, "above_good", First), af)
              && Attains(OutcomesOf(rows, "below_good", First), bf)
              && Attains(OutcomesOf(rows, "above_good", Final), al)
              && Attains(OutcomesOf(rows, "below_good", Final), bl)
              ==> Claim(Positive, rope, Growth(af, bf, al, bl)) == verdict
  {
    hide Attains, BinaryRateBound, OutcomesOf, AbsoluteDifferenceBound, Abs, Growth, GrowthBound, PairComplete,
      GatePasses;
    AnyFill(OutcomesOf(rows, "above_good", First));
    AnyFill(OutcomesOf(rows, "below_good", First));
    AnyFill(OutcomesOf(rows, "above_good", Final));
    AnyFill(OutcomesOf(rows, "below_good", Final));
    var af0, bf0, al0, bl0 :|
      && Attains(OutcomesOf(rows, "above_good", First), af0)
      && Attains(OutcomesOf(rows, "below_good", First), bf0)
      && Attains(OutcomesOf(rows, "above_good", Final), al0)
      && Attains(OutcomesOf(rows, "below_good", Final), bl0);
    GrowthInBound(rows, af0, bf0, al0, bl0);
    forall verdict, af, bf, al, bl |
      GrowthAssessment(rows, proposed, rope) == Ok(Some(verdict))
      && Attains(OutcomesOf(rows, "above_good", First), af) && Attains(OutcomesOf(rows, "below_good", First), bf)
      && Attains(OutcomesOf(rows, "above_good", Final), al) && Attains(OutcomesOf(rows, "below_good", Final), bl)
      ensures Claim(Positive, rope, Growth(af, bf, al, bl)) == verdict
    {
      GrowthInBound(rows, af, bf, al, bl);
    }
  }

  // Rows of the cell with both estimates and the threshold.
  ghost function PairIn(condition: string): Rollout -> bool {
    (row: Rollout) =>
      && row.task == "giraffe" && row.condition == condition
      && row.first != None && row.final != None && row.threshold != None
  }

  lemma {:induction false} PairNumbers(rows: seq<Rollout>, condition: string)
    ensures PairComplete(rows, condition) == Number(rows, PairIn(condition))
  {
    if |rows| == 0 {
      NumberIs(rows, PairIn(condition), {});
    } else {
      var front := rows[..|rows| - 1];
      PairNumbers(front, condition);
      NumberLast(rows, PairIn(condition));
      var selected := Selected(rows, condition);
      if InCell(condition)(rows[|rows| - 1]) {
        assert selected[..|selected| - 1] == Selected(front, condition);
        assert selected[|selected| - 1] == rows[|rows| - 1];
      } else {
        assert selected == Selected(front, condition);
      }
    }
  }

  // A growth verdict is given exactly when it was proposed, both cells are complete enough and hold two pairs each,
  // and every point of the bound gives it.
  lemma GrowthDecided(rows: seq<Rollout>, proposed: Option<bool>, rope: real, verdict: bool)
    requires rope >= 0.0
    ensures GrowthAssessment(rows, proposed, rope) == Ok(Some(verdict)) <==>
            && proposed == Some(verdict)
            && CellComplete(rows, "above_good", BothMeasured) && CellComplete(rows, "below_good", BothMeasured)
            && Number(rows, PairIn("above_good")) >= 2 && Number(rows, PairIn("below_good")) >= 2
            && forall x: real :: GrowthBound(rows).Has(x) ==> (x > rope) == verdict
  {
    hide CellComplete, GatePasses, GrowthBound, PairComplete;
    GatePassesIff(rows, DIRECTIONS, BothMeasured);
    PairNumbers(rows, "above_good");
    PairNumbers(rows, "below_good");
    GrowthRange(rows);
    GuardExact(proposed, GrowthBound(rows), Positive, rope, GatePasses(rows, DIRECTIONS, BothMeasured), verdict);
  }

  // The growths of all rates within the four stage bounds fill the bound from end to end.
  lemma GrowthRange(rows: seq<Rollout>)
    ensures var b := GrowthBound(rows);
            var af, bf := StageBound(rows, "above_good", First), StageBound(rows, "below_good", First);
            var al, bl := StageBound(rows, "above_good", Final), StageBound(rows, "below_good", Final);
            && b.low <= b.high
            && (forall w, x, y, z :: Within(af, w) && Within(bf, x) && Within(al, y) && Within(bl, z) ==>
                  b.low <= Growth(w, x, y, z) <= b.high)
            && (exists w, x, y, z :: Within(af, w) && Within(bf, x) && Within(al, y) && Within(bl, z)
                                     && Growth(w, x, y, z) == b.low)
            && (exists w, x, y, z :: Within(af, w) && Within(bf, x) && Within(al, y) && Within(bl, z)
                                     && Growth(w, x, y, z) == b.high)
  {
    hide StageBound, AbsoluteDifferenceBound, Abs;
    var af, bf := StageBound(rows, "above_good", First), StageBound(rows, "below_good", First);
    var al, bl := StageBound(rows, "above_good", Final), StageBound(rows, "below_good", Final);
    StageBoundInUnit(rows, "above_good", First);
    StageBoundInUnit(rows, "below_good", First);
    StageBoundInUnit(rows, "above_good", Final);
    StageBoundInUnit(rows, "below_good", Final);
    AbsoluteDifferenceRange(af, bf);
    AbsoluteDifferenceRange(al, bl);
    var w, x :| Within(af, w) && Within(bf, x) && Abs(w - x) == GapBound(rows, First).low;
    var w', x' :| Within(af, w') && Within(bf, x') && Abs(w' - x') == GapBound(rows, First).high;
    var y, z :| Within(al, y) && Within(bl, z) && Abs(y - z) == GapBound(rows, Final).low;
    var y', z' :| Within(al, y') && Within(bl, z') && Abs(y' - z') == GapBound(rows, Final).high;
    assert Within(af, w') && Within(bf, x') && Within(al, y) && Within(bl, z)
           && Growth(w', x', y, z) == GrowthBound(rows).low;
    assert Within(af, w) && Within(bf, x) && Within(al, y') && Within(bl, z')
           && Growth(w, x, y', z') == GrowthBound(rows).high;
    forall w, x, y, z | Within(af, w) && Within(bf, x) && Within(al, y) && Within(bl, z)
      ensures GrowthBound(rows).low <= Growth(w, x, y, z) <= GrowthBound(rows).high
    {
      assert GapBound(rows, First).Has(Abs(w - x)) && GapBound(rows, Final).Has(Abs(y - z));
    }
  }

  // --- Anchoring: neutral shift, magnitude match, direction interaction ---

  function FinalBound(rows: seq<Rollout>, condition: string): RateBound {
    StageBound(rows, condition, Final)
  }

  function MagnitudeBound(rows: seq<Rollout>): Interval {
    var baseline := FinalBound(rows, "baseline");
    var neutral := AbsoluteDifferenceBound(FinalBound(rows, "threshold_only"), baseline);
    var above := AbsoluteDifferenceBound(FinalBound(rows, "above_good"), baseline);
    var below := AbsoluteDifferenceBound(FinalBound(rows, "below_good"), baseline);
    var moral := Interval(0.5 * (above.low + below.low), 0.5 * (above.high + below.high));
    Interval(neutral.low - moral.high, neutral.high - moral.low)
  }

  const CONDITIONS: seq<string> := ["baseline", "threshold_only", "above_good", "below_good"]

  datatype Contrast = NeutralShift | MagnitudeMatch | DirectionInteraction

  function ContrastBound(rows: seq<Rollout>, c: Contrast): Interval {
    match c
    case NeutralShift => DifferenceBound(FinalBound(rows, "threshold_only"), FinalBound(rows, "baseline"))
    case MagnitudeMatch => MagnitudeBound(rows)
    case DirectionInteraction => DifferenceBound(FinalBound(rows, "above_good"), FinalBound(rows, "below_good"))
  }

  function ContrastTarget(c: Contrast): Target {
    if c.NeutralShift? then Outside else Equivalent
  }

  function AnchoringAssessment(rows: seq<Rollout>, c: Contrast, proposed: Option<bool>,
                               rope: real): Result<Option<bool>, BoundError> {
    Guarded(proposed, ContrastBound(rows, c), ContrastTarget(c), rope, GatePasses(rows, CONDITIONS, FinalMeasured))
  }

  datatype Rates = Rates(baseline: real, neutral: real, above: real, below: real)

  function ContrastValue(c: Contrast, r: Rates): real {
    match c
    case NeutralShift => r.neutral - r.baseline
    case MagnitudeMatch => Abs(r.neutral - r.baseline) - 0.5 * (Abs(r.above - r.baseline) + Abs(r.below - r.baseline))
    case DirectionInteraction => r.above - r.below
  }

  ghost predicate AttainsAll(rows: seq<Rollout>, r: Rates) {
    && Attains(OutcomesOf(rows, "baseline", Final), r.baseline)
    && Attains(OutcomesOf(rows, "threshold_only", Final), r.neutral)
    && Attains(OutcomesOf(rows, "above_good", Final), r.above)
    && Attains(OutcomesOf(rows, "below_good", Final), r.below)
  }

  lemma ContrastInBound(rows: seq<Rollout>, c: Contrast, r: Rates)
    requires AttainsAll(rows, r)
    ensures ContrastBound(rows, c).Has(ContrastValue(c, r))
  {
    hide Attains, BinaryRateBound, OutcomesOf, AbsoluteDifferenceBound, Abs;
    var baseline, neutral := OutcomesOf(rows, "baseline", Final), OutcomesOf(rows, "threshold_only", Final);
    var above, below := OutcomesOf(rows, "above_good", Final), OutcomesOf(rows, "below_good", Final);
    DifferenceExact(neutral, baseline);
    DifferenceExact(above, below);
    AbsoluteDifferenceExact(neutral, baseline);
    AbsoluteDifferenceExact(above, baseline);
    AbsoluteDifferenceExact(below, baseline);
  }

  // Each anchoring verdict holds under every fill of the missing outcomes.
  lemma AnchoringVerdictRobust(rows: seq<Rollout>, c: Contrast, proposed: Option<bool>, rope: real)
    ensures AnchoringAssessment(rows, c, proposed, rope).Ok?
    ensures forall verdict, r ::
              AnchoringAssessment(rows, c, proposed, rope) == Ok(Some(verdict)) && AttainsAll(rows, r)
              ==> Claim(ContrastTarget(c), rope, ContrastValue(c, r)) == verdict
  {
    hide Attains, BinaryRateBound, OutcomesOf, ContrastBound, ContrastValue, GatePasses;
    AnyFill(OutcomesOf(rows, "baseline", Final));
    AnyFill(OutcomesOf(rows, "threshold_only", Final));
    AnyFill(OutcomesOf(rows, "above_good", Final));
    AnyFill(OutcomesOf(rows, "below_good", Final));
    var b, n, a, l :|
      && Attains(OutcomesOf(rows, "baseline", Final), b)
      && Attains(OutcomesOf(rows, "threshold_only", Final), n)
      && Attains(OutcomesOf(rows, "above_good", Final), a)
      && Attains(OutcomesOf(rows, "below_good", Final), l);
    ContrastInBound(rows, c, Rates(b, n, a, l));
    forall verdict, r | AnchoringAssessment(rows, c, proposed, rope) == Ok(Some(verdict)) && AttainsAll(rows, r)
      ensures Claim(ContrastTarget(c), rope, ContrastValue(c, r)) == verdict
    {
      ContrastInBound(rows, c, r);
    }
  }

  // All rates within the four condition bounds.
  ghost predicate AllWithin(rows: seq<Rollout>, r: Rates) {
    && Within(StageBound(rows, "baseline", Final), r.baseline)
    && Within(StageBound(rows, "threshold_only", Final), r.neutral)
    && Within(StageBound(rows, "above_good", Final), r.above)
    && Within(StageBound(rows, "below_good", Final), r.below)
  }

  // The neutral shift and the direction interaction fill their bounds from end to end.
  lemma DifferenceRange(rows: seq<Rollout>, c: Contrast)
    requires !c.MagnitudeMatch?
    ensures var b := ContrastBound(rows, c);
            && b.low <= b.high
            && (forall r :: AllWithin(rows, r) ==> b.low <= ContrastValue(c, r) <= b.high)
            && (exists r :: AllWithin(rows, r) && ContrastValue(c, r) == b.low)
            && (exists r :: AllWithin(rows, r) && ContrastValue(c, r) == b.high)
  {
    hide StageBound;
    StageBoundInUnit(rows, "baseline", Final);
    StageBoundInUnit(rows, "threshold_only", Final);
    StageBoundInUnit(rows, "above_good", Final);
    StageBoundInUnit(rows, "below_good", Final);
    var b, n := FinalBound(rows, "baseline"), FinalBound(rows, "threshold_only");
    var above, below := FinalBound(rows, "above_good"), FinalBound(rows, "below_good");
    var low, high := Rates(b.high, n.low, above.low, below.high), Rates(b.low, n.high, above.high, below.low);
    assert AllWithin(rows, low) && AllWithin(rows, high);
    assert ContrastValue(c, low) == ContrastBound(rows, c).low && ContrastValue(c, high) == ContrastBound(rows, c).high;
  }

  // One absolute difference with the baseline under rates r, compared with the mean of two others under rates s and t.
  ghost function MagnitudeOf(r: Rates, s: Rates, t: Rates): real {
    Abs(r.neutral - r.baseline) - 0.5 * (Abs(s.above - s.baseline) + Abs(t.below - t.baseline))
  }

  ghost function AgainstBaseline(rows: seq<Rollout>, condition: string): Interval {
    AbsoluteDifferenceBound(StageBound(rows, condition, Final), StageBound(rows, "baseline", Final))
  }

  ghost function End(b: Interval, low: bool): real {
    if low then b.low else b.high
  }

  // The lower ends of all conditions' bounds.
  ghost function LowRates(rows: seq<Rollout>): Rates {
    Rates(StageBound(rows, "baseline", Final).low, StageBound(rows, "threshold_only", Final).low,
          StageBound(rows, "above_good", Final).low, StageBound(rows, "below_good", Final).low)
  }

  lemma LowWithin(rows: seq<Rollout>)
    ensures AllWithin(rows, LowRates(rows))
  {
    hide StageBound;
    StageBoundInUnit(rows, "baseline", Final);
    StageBoundInUnit(rows, "threshold_only", Final);
    StageBoundInUnit(rows, "above_good", Final);
    StageBoundInUnit(rows, "below_good", Final);
  }

  lemma ReachEnd(rows: seq<Rollout>, condition: string, low: bool) returns (rate: real, baseline: real)
    ensures Within(StageBound(rows, condition, Final), rate) && Within(StageBound(rows, "baseline", Final), baseline)
    ensures Abs(rate - baseline) == End(AgainstBaseline(rows, condition), low)
  {
    hide StageBound, AbsoluteDifferenceBound, Abs;
    StageBoundInUnit(rows, condition, Final);
    StageBoundInUnit(rows, "baseline", Final);
    AbsoluteDifferenceRange(StageBound(rows, condition, Final), StageBound(rows, "baseline", Final));
    rate, baseline :| Within(StageBound(rows, condition, Final), rate)
      && Within(StageBound(rows, "baseline", Final), baseline)
      && Abs(rate - baseline) == End(AgainstBaseline(rows, condition), low);
  }

  lemma InsideEnds(rows: seq<Rollout>, condition: string, rate: real, baseline: real)
    requires Within(StageBound(rows, condition, Final), rate) && Within(StageBound(rows, "baseline", Final), baseline)
    ensures AgainstBaseline(rows, condition).Has(Abs(rate - baseline))
  {
    hide StageBound, AbsoluteDifferenceBound, Abs;
    StageBoundInUnit(rows, condition, Final);
    StageBoundInUnit(rows, "baseline", Final);
    AbsoluteDifferenceRange(StageBound(rows, condition, Final), StageBound(rows, "baseline", Final));
  }

  lemma MagnitudeBoundIs(rows: seq<Rollout>, low: bool)
    ensures End(MagnitudeBound(rows), low) ==
            End(AgainstBaseline(rows, "threshold_only"), low)
            - 0.5 * (End(AgainstBaseline(rows, "above_good"), !low) + End(AgainstBaseline(rows, "below_good"), !low))
  {
    hide AbsoluteDifferenceBound, BinaryRateBound;
  }

  // The magnitude match compares one absolute difference with the mean of two others; each of the three fills its own
  // range, and the bound combines the ends that are farthest apart.
  lemma MagnitudeRange(rows: seq<Rollout>)
    ensures MagnitudeBound(rows).low <= MagnitudeBound(rows).high
    ensures forall r :: AllWithin(rows, r) ==> MagnitudeBound(rows).Has(ContrastValue(MagnitudeMatch, r))
    ensures exists r, s, t :: AllWithin(rows, r) && AllWithin(rows, s) && AllWithin(rows, t)
              && MagnitudeOf(r, s, t) == MagnitudeBound(rows).low
    ensures exists r, s, t :: AllWithin(rows, r) && AllWithin(rows, s) && AllWithin(rows, t)
              && MagnitudeOf(r, s, t) == MagnitudeBound(rows).high
  {
    hide StageBound, AgainstBaseline, Abs, MagnitudeBound;
    MagnitudeBoundIs(rows, true);
    MagnitudeBoundIs(rows, false);
    var r0, s0, t0 := MagnitudeReached(rows, true);
    var r1, s1, t1 := MagnitudeReached(rows, false);
    forall r | AllWithin(rows, r)
      ensures MagnitudeBound(rows).Has(ContrastValue(MagnitudeMatch, r))
    {
      InsideEnds(rows, "threshold_only", r.neutral, r.baseline);
      InsideEnds(rows, "above_good", r.above, r.baseline);
      InsideEnds(rows, "below_good", r.below, r.baseline);
    }
    LowWithin(rows);
    assert MagnitudeBound(rows).Has(ContrastValue(MagnitudeMatch, LowRates(rows)));
  }

  lemma MagnitudeReached(rows: seq<Rollout>, low: bool) returns (r: Rates, s: Rates, t: Rates)
    ensures AllWithin(rows, r) && AllWithin(rows, s) && AllWithin(rows, t)
    ensures MagnitudeOf(r, s, t) == End(MagnitudeBound(rows), low)
  {
    hide StageBound, AgainstBaseline, Abs, MagnitudeBound;
    LowWithin(rows);
    MagnitudeBoundIs(rows, low);
    var neutral, b := ReachEnd(rows, "threshold_only", low);
    var above, b' := ReachEnd(rows, "above_good", !low);
    var below, b'' := ReachEnd(rows, "below_good", !low);
    r := LowRates(rows).(neutral := neutral, baseline := b);
    s := LowRates(rows).(above := above, baseline := b');
    t := LowRates(rows).(below := below, baseline := b'');
  }

  // An anchoring verdict is given exactly when it was proposed, all four cells are complete enough and every point of
  // the bound gives it: outside the margin for the neutral shift, inside it for the other two.
  lemma AnchoringDecided(rows: seq<Rollout>, c: Contrast, proposed: Option<bool>, rope: real, verdict: bool)
    requires rope >= 0.0
    ensures AnchoringAssessment(rows, c, proposed, rope) == Ok(Some(verdict)) <==>
            && proposed == Some(verdict)
            && CellComplete(rows, "baseline", FinalMeasured) && CellComplete(rows, "threshold_only", FinalMeasured)
            && CellComplete(rows, "above_good", FinalMeasured) && CellComplete(rows, "below_good", FinalMeasured)
            && forall x: real :: ContrastBound(rows, c).Has(x) ==>
                 (if c == NeutralShift then x > rope || x < -rope else -rope <= x <= rope) == verdict
  {
    hide CellComplete, GatePasses, ContrastBound, MagnitudeBound;
    GatePassesIff(rows, CONDITIONS, FinalMeasured);
    if c.MagnitudeMatch? {
      MagnitudeRange(rows);
      MagnitudeIsContrast(rows);
    } else {
      DifferenceRange(rows, c);
    }
    GuardExact(proposed, ContrastBound(rows, c), ContrastTarget(c), rope, GatePasses(rows, CONDITIONS, FinalMeasured),
               verdict);
  }

  lemma MagnitudeIsContrast(rows: seq<Rollout>)
    ensures ContrastBound(rows, MagnitudeMatch) == MagnitudeBound(rows)
  {
  }

  // --- Movement of the accuracy sentence toward the neutral rate ---

  datatype Cluster = Cluster(above: bool, retain: real, resample: real)

  // The neutral rate a cluster is compared with; the opposite direction uses the mirrored rate.
  function NeutralFor(c: Cluster, above: real): real {
    if c.above then above else 1.0 - above
  }

  function NeutralInterval(c: Cluster, above: RateBound): Interval {
    if c.above then Interval(above.low, above.high) else Interval(1.0 - above.high, 1.0 - above.low)
  }

  function ChangeSum(clusters: seq<Cluster>, above: real): real {
    if |clusters| == 0 then 0.0 else
      var last := clusters[|clusters| - 1];
      ChangeSum(clusters[..|clusters| - 1], above) + Change(last.retain, last.resample, NeutralFor(last, above))
  }

  function BoundSum(clusters: seq<Cluster>, above: RateBound): Interval {
    if |clusters| == 0 then Interval(0.0, 0.0) else
      var last, front := clusters[|clusters| - 1], BoundSum(clusters[..|clusters| - 1], above);
      var own := DistanceChangeBound(last.retain, last.resample, NeutralInterval(last, above));
      Interval(front.low + own.low, front.high + own.high)
  }

  function Mean(x: real, n: nat): real
    requires n > 0
  {
    x / n as real
  }

  function MeanBound(clusters: seq<Cluster>, above: RateBound): Interval
    requires |clusters| > 0
  {
    var sum := BoundSum(clusters, above);
    Interval(Mean(sum.low, |clusters|), Mean(sum.high, |clusters|))
  }

  lemma {:induction false} ChangeSumInBound(clusters: seq<Cluster>, above: RateBound, rate: real)
    requires above.low <= rate <= above.high
    ensures BoundSum(clusters, above).Has(ChangeSum(clusters, rate))
  {
    hide Change, DistanceChangeBound;
    if |clusters| > 0 {
      var last := clusters[|clusters| - 1];
      ChangeSumInBound(clusters[..|clusters| - 1], above, rate);
      DistanceChangeExact(last.retain, last.resample, NeutralInterval(last, above));
      assert NeutralInterval(last, above).Has(NeutralFor(last, rate));
    }
  }

  lemma MeansOrdered(a: real, b: real, n: nat)
    requires n > 0 && a <= b
    ensures Mean(a, n) <= Mean(b, n)
  {
  }

  function KnownCount(values: Outcomes): nat {
    MissingAtMost(values);
    |values| - Missing(values)
  }

  function NeutralAssessment(rows: seq<Rollout>, clusters: seq<Cluster>, proposed: Option<bool>,
                             rope: real): Result<Option<bool>, BoundError> {
    var outcomes := OutcomesOf(rows, "threshold_only", Final);
    var gate := GatePasses(rows, ["threshold_only"], FinalMeasured);
    if |clusters| < 2 || KnownCount(outcomes) < 2 then Guarded(None, Interval(-1.0, 1.0), Negative, rope, gate)
    else Guarded(proposed, MeanBound(clusters, BinaryRateBound(outcomes)), Negative, rope, gate)
  }

  // The averaged cluster bounds contain the estimand for every fill of the control outcomes, so the verdict does too.
  lemma NeutralVerdictRobust(rows: seq<Rollout>, clusters: seq<Cluster>, proposed: Option<bool>, rope: real)
    ensures NeutralAssessment(rows, clusters, proposed, rope).Ok?
    ensures forall verdict, rate ::
              NeutralAssessment(rows, clusters, proposed, rope) == Ok(Some(verdict))
                && Attains(OutcomesOf(rows, "threshold_only", Final), rate)
              ==> |clusters| > 0 && Claim(Negative, rope, Mean(ChangeSum(clusters, rate), |clusters|)) == verdict
  {
    hide Attains, BinaryRateBound, OutcomesOf, GatePasses, Mean, ChangeSum, BoundSum, KnownCount;
    var outcomes := OutcomesOf(rows, "threshold_only", Final);
    var above := BinaryRateBound(outcomes);
    RateBoundExact(outcomes);
    if |clusters| >= 2 {
      forall rate | Attains(outcomes, rate)
        ensures MeanBound(clusters, above).Has(Mean(ChangeSum(clusters, rate), |clusters|))
      {
        var sum := BoundSum(clusters, above);
        ChangeSumInBound(clusters, above, rate);
        MeansOrdered(sum.low, ChangeSum(clusters, rate), |clusters|);
        MeansOrdered(ChangeSum(clusters, rate), sum.high, |clusters|);
      }
      assert MeanBound(clusters, above).Has(Mean(ChangeSum(clusters, above.low), |clusters|));
    }
  }

  ghost function KnownFinal(): Rollout -> bool {
    (row: Rollout) =>
      row.task == "giraffe" && row.condition == "threshold_only" && row.final != None && row.threshold != None
  }

  lemma {:induction false} KnownNumber(rows: seq<Rollout>)
    ensures Number(rows, KnownFinal()) + Number(rows, NotKnown("threshold_only", Final)) ==
            Number(rows, InCell("threshold_only"))
  {
    if |rows| == 0 {
      NumberIs(rows, KnownFinal(), {});
      NumberIs(rows, NotKnown("threshold_only", Final), {});
      NumberIs(rows, InCell("threshold_only"), {});
    } else {
      KnownNumber(rows[..|rows| - 1]);
      NumberLast(rows, KnownFinal());
      NumberLast(rows, NotKnown("threshold_only", Final));
      NumberLast(rows, InCell("threshold_only"));
    }
  }

  // A movement verdict is given exactly when it was proposed, the control cell is complete enough with two known
  // finals, there are two clusters, and every point of the averaged bound gives it.
  lemma NeutralDecided(rows: seq<Rollout>, clusters: seq<Cluster>, proposed: Option<bool>, rope: real, verdict: bool)
    requires rope >= 0.0
    ensures NeutralAssessment(rows, clusters, proposed, rope) == Ok(Some(verdict)) <==>
            && proposed == Some(verdict) && |clusters| >= 2
            && CellComplete(rows, "threshold_only", FinalMeasured) && Number(rows, KnownFinal()) >= 2
            && forall x: real ::
                 MeanBound(clusters, StageBound(rows, "threshold_only", Final)).Has(x) ==> (x < -rope) == verdict
  {
    hide CellComplete, GatePasses, BoundSum, OutcomesOf, Mean, BinaryRateBound;
    var above := StageBound(rows, "threshold_only", Final);
    GatePassesIff(rows, ["threshold_only"], FinalMeasured);
    OutcomeNumbers(rows, "threshold_only", Final);
    KnownNumber(rows);
    if |clusters| >= 2 {
      StageBoundInUnit(rows, "threshold_only", Final);
      ChangeSumInBound(clusters, above, above.low);
      MeansOrdered(BoundSum(clusters, above).low, BoundSum(clusters, above).high, |clusters|);
      GuardExact(proposed, MeanBound(clusters, above), Negative, rope,
                 GatePasses(rows, ["threshold_only"], FinalMeasured), verdict);
    }
  }

  // The change of each cluster at a neutral rate of its own.
  ghost function ChangesAt(clusters: seq<Cluster>, rates: seq<real>): real
    requires |rates| == |clusters|
  {
    if |clusters| == 0 then 0.0 else
      var n := |clusters| - 1;
      ChangesAt(clusters[..n], rates[..n]) + Abs(clusters[n].retain - rates[n]) - Abs(clusters[n].resample - rates[n])
  }

  // The neutral rates of a cluster: those of the control for its own direction, mirrored for the other one.
  ghost predicate RatesFit(clusters: seq<Cluster>, above: RateBound, rates: seq<real>) {
    && |rates| == |clusters|
    && forall i :: 0 <= i < |clusters| ==>
         if clusters[i].above then above.low <= rates[i] <= above.high
         else 1.0 - above.high <= rates[i] <= 1.0 - above.low
  }

  lemma ChangesLast(clusters: seq<Cluster>, above: RateBound, rates: seq<real>, rate: real)
    requires |clusters| > 0 && RatesFit(clusters[..|clusters| - 1], above, rates)
    requires NeutralInterval(clusters[|clusters| - 1], above).Has(rate)
    ensures RatesFit(clusters, above, rates + [rate])
    ensures ChangesAt(clusters, rates + [rate]) ==
            ChangesAt(clusters[..|clusters| - 1], rates)
            + Change(clusters[|clusters| - 1].retain, clusters[|clusters| - 1].resample, rate)
  {
    assert (rates + [rate])[..|clusters| - 1] == rates;
    forall i | 0 <= i < |clusters| - 1
      ensures (rates + [rate])[i] == rates[i] && clusters[..|clusters| - 1][i] == clusters[i]
    {
    }
  }

  lemma BoundLast(clusters: seq<Cluster>, above: RateBound, low: bool)
    requires |clusters| > 0
    ensures End(BoundSum(clusters, above), low) ==
            End(BoundSum(clusters[..|clusters| - 1], above), low)
            + End(DistanceChangeBound(clusters[|clusters| - 1].retain, clusters[|clusters| - 1].resample,
                                      NeutralInterval(clusters[|clusters| - 1], above)), low)
  {
    hide DistanceChangeBound;
  }

  // Both ends of the summed bound are sums of changes, each cluster at a neutral rate within its own interval.
  lemma {:induction false} BoundSumAttained(clusters: seq<Cluster>, above: RateBound, low: bool)
    returns (rates: seq<real>)
    requires above.low <= above.high
    ensures |rates| == |clusters| && RatesFit(clusters, above, rates)
    ensures ChangesAt(clusters, rates) == End(BoundSum(clusters, above), low)
  {
    if |clusters| == 0 {
      rates := [];
    } else {
      hide DistanceChangeBound, Change, ChangesAt, RatesFit;
      var last := clusters[|clusters| - 1];
      var front := BoundSumAttained(clusters[..|clusters| - 1], above, low);
      DistanceChangeExact(last.retain, last.resample, NeutralInterval(last, above));
      var rate: real :| NeutralInterval(last, above).Has(rate) && Change(last.retain, last.resample, rate) ==
        End(DistanceChangeBound(last.retain, last.resample, NeutralInterval(last, above)), low);
      ChangesLast(clusters, above, front, rate);
      BoundLast(clusters, above, low);
      rates := front + [rate];
    }
  }
}
