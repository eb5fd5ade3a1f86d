// Bounds over every way of filling in missing binary outcomes, and the guard that keeps a verdict only when all fills
// agree.
module MissingBounds {
  import opened Numbers
  import opened Options

  // --- Outcomes and their fills ---

  type Outcomes = seq<Option<bool>>

  function Trues(fill: seq<bool>): nat {
    if |fill| == 0 then 0 else Trues(fill[..|fill| - 1]) + (if fill[|fill| - 1] then 1 else 0)
  }

  function Successes(values: Outcomes): nat {
    if |values| == 0 then 0
    else Successes(values[..|values| - 1]) + (if values[|values| - 1] == Some(true) then 1 else 0)
  }

  function Missing(values: Outcomes): nat {
    if |values| == 0 then 0 else Missing(values[..|values| - 1]) + (if values[|values| - 1].None? then 1 else 0)
  }

  ghost predicate Completes(fill: seq<bool>, values: Outcomes) {
    |fill| == |values| && forall i :: 0 <= i < |values| && values[i].Some? ==> fill[i] == values[i].value
  }

  // The rates some fill gives; with no rows at all the rate is unconstrained.
  ghost predicate Attains(values: Outcomes, rate: real) {
    if |values| == 0 then 0.0 <= rate <= 1.0
    else exists fill: seq<bool> :: Completes(fill, values) && rate == Ratio(Trues(fill), |values|)
  }

  datatype RateBound = RateBound(low: real, high: real, observed: nat, missing: nat, total: nat)

  // _binary_rate_bound
  function BinaryRateBound(values: Outcomes): (b: RateBound)
    ensures b.total == |values|
  {
    if |values| == 0 then RateBound(0.0, 1.0, 0, 0, 0)
    else
      MissingAtMost(values);
      RateBound(Ratio(Successes(values), |values|), Ratio(Successes(values) + Missing(values), |values|),
                |values| - Missing(values), Missing(values), |values|)
  }

  lemma {:induction false} MissingAtMost(values: Outcomes)
    ensures Successes(values) + Missing(values) <= |values|
  {
    if |values| > 0 {
      MissingAtMost(values[..|values| - 1]);
    }
  }

  lemma {:induction false} FillCounts(fill: seq<bool>, values: Outcomes)
    requires Completes(fill, values)
    ensures Successes(values) <= Trues(fill) <= Successes(values) + Missing(values)
  {
    if |values| > 0 {
      FillCounts(fill[..|fill| - 1], values[..|values| - 1]);
    }
  }

  // The fill that gives every missing outcome the same value.
  function Uniform(values: Outcomes, missing: bool): seq<bool> {
    seq(|values|, i requires 0 <= i < |values| => if values[i].Some? then values[i].value else missing)
  }

  lemma {:induction false} UniformCounts(values: Outcomes, missing: bool)
    ensures Trues(Uniform(values, missing)) == Successes(values) + (if missing then Missing(values) else 0)
  {
    if |values| > 0 {
      UniformCounts(values[..|values| - 1], missing);
      assert Uniform(values, missing)[..|values| - 1] == Uniform(values[..|values| - 1], missing);
    }
  }

  lemma SharesOrdered(a: nat, b: nat, n: nat)
    requires n > 0 && a <= b <= n
    ensures 0.0 <= Ratio(a, n) <= Ratio(b, n) <= 1.0
  {
  }

  lemma FillInside(values: Outcomes, fill: seq<bool>)
    requires |values| > 0 && Completes(fill, values)
    ensures Ratio(Successes(values), |values|) <= Ratio(Trues(fill), |values|)
            <= Ratio(Successes(values) + Missing(values), |values|)
  {
    hide Ratio;
    FillCounts(fill, values);
    MissingAtMost(values);
    SharesOrdered(Successes(values), Trues(fill), |values|);
    SharesOrdered(Trues(fill), Successes(values) + Missing(values), |values|);
  }

  lemma EndAttained(values: Outcomes, missing: bool)
    requires |values| > 0
    ensures Attains(values, Ratio(Successes(values) + (if missing then Missing(values) else 0), |values|))
  {
    UniformCounts(values, missing);
    assert Completes(Uniform(values, missing), values);
  }

  // The bound is exact: every fill's rate lies inside it, and both ends are rates of fills.
  lemma RateBoundExact(values: Outcomes)
    ensures var b := BinaryRateBound(values);
            && (forall rate :: Attains(values, rate) ==> b.low <= rate <= b.high)
            && Attains(values, b.low) && Attains(values, b.high)
            && 0.0 <= b.low <= b.high <= 1.0
  {
    hide Completes, Ratio, Trues, Successes, Missing;
    var b := BinaryRateBound(values);
    if |values| > 0 {
      EndAttained(values, false);
      EndAttained(values, true);
      MissingAtMost(values);
      SharesOrdered(Successes(values), Successes(values) + Missing(values), |values|);
      forall rate | Attains(values, rate)
        ensures b.low <= rate <= b.high
      {
        var fill: seq<bool> :| Completes(fill, values) && rate == Ratio(Trues(fill), |values|);
        FillInside(values, fill);
      }
    }
  }

  // --- Differences ---

  datatype Interval = Interval(low: real, high: real) {
    predicate Has(x: real) {
      low <= x <= high
    }
  }

  function DifferenceBound(left: RateBound, right: RateBound): Interval {
    Interval(left.low - right.high, left.high - right.low)
  }

  function AbsoluteDifferenceBound(left: RateBound, right: RateBound): Interval {
    var low := if left.high < right.low then right.low - left.high
               else if right.high < left.low then left.low - right.high
               else 0.0;
    Interval(low, MaxReal(Abs(left.low - right.high), Abs(left.high - right.low)))
  }

  // Differences of rates under every pair of fills lie in the bound, whose ends are reached.
  lemma DifferenceExact(left: Outcomes, right: Outcomes)
    ensures var d := DifferenceBound(BinaryRateBound(left), BinaryRateBound(right));
            && (forall l, r :: Attains(left, l) && Attains(right, r) ==> d.Has(l - r))
            && (exists l, r :: Attains(left, l) && Attains(right, r) && l - r == d.low)
            && (exists l, r :: Attains(left, l) && Attains(right, r) && l - r == d.high)
  {
    hide Attains, BinaryRateBound;
    RateBoundExact(left);
    RateBoundExact(right);
  }

  // Absolute differences lie in their bound; the upper end is reached by fills, the lower one whenever it is positive.
  lemma AbsoluteDifferenceExact(left: Outcomes, right: Outcomes)
    ensures var d := AbsoluteDifferenceBound(BinaryRateBound(left), BinaryRateBound(right));
            && (forall l, r :: Attains(left, l) && Attains(right, r) ==> d.Has(Abs(l - r)))
            && (exists l, r :: Attains(left, l) && Attains(right, r) && Abs(l - r) == d.high)
            && (d.low > 0.0 ==> exists l, r :: Attains(left, l) && Attains(right, r) && Abs(l - r) == d.low)
  {
    hide Attains, BinaryRateBound;
    RateBoundExact(left);
    RateBoundExact(right);
    var a, b := BinaryRateBound(left), BinaryRateBound(right);
    assert Abs(a.low - b.high) >= Abs(a.high - b.low) || Abs(a.high - b.low) >= Abs(a.low - b.high);
  }

  ghost predicate Within(b: RateBound, rate: real) {
    b.low <= rate <= b.high
  }

  // Over all real rates within their bounds the absolute differences fill exactly the bound from end to end.
  lemma AbsoluteDifferenceRange(left: RateBound, right: RateBound)
    requires left.low <= left.high && right.low <= right.high
    ensures var d := AbsoluteDifferenceBound(left, right);
            && (forall l, r :: Within(left, l) && Within(right, r) ==> d.Has(Abs(l - r)))
            && (exists l, r :: Within(left, l) && Within(right, r) && Abs(l - r) == d.low)
            && (exists l, r :: Within(left, l) && Within(right, r) && Abs(l - r) == d.high)
  {
    var d := AbsoluteDifferenceBound(left, right);
    var l := if left.high < right.low then left.high else MaxReal(left.low, right.low);
    var r := if left.high < right.low then right.low else if right.high < left.low then right.high else l;
    assert Within(left, l) && Within(right, r) && Abs(l - r) == d.low;
    assert Within(left, left.low) && Within(left, left.high) && Within(right, right.low) && Within(right, right.high);
    assert d.high == Abs(left.low - right.high) || d.high == Abs(left.high - right.low);
  }

  // --- The guard ---

  datatype Target = Positive | Negative | Outside | Equivalent

  // What a verdict of True asserts about the estimand.
  predicate Claim(target: Target, rope: real, x: real) {
    match target
    case Positive => x > rope
    case Negative => x < -rope
    case Outside => x > rope || x < -rope
    case Equivalent => -rope <= x <= rope
  }

  datatype BoundError = Unordered

  function PointBoundState(b: Interval, target: Target, rope: real): Result<Option<bool>, BoundError> {
    if b.low > b.high then Err(Unordered)
    else Ok(match target
            case Positive => if b.low > rope then Some(true) else if b.high <= rope then Some(false) else None
            case Negative => if b.high < -rope then Some(true) else if b.low >= -rope then Some(false) else None
            case Outside =>
              if b.low > rope || b.high < -rope then Some(true)
              else if -rope <= b.low && b.high <= rope then Some(false) else None
            case Equivalent =>
              if -rope <= b.low && b.high <= rope then Some(true)
              else if b.low > rope || b.high < -rope then Some(false) else None)
  }

  // The state of a bound is decided exactly when every point of the interval gives the same answer.
  lemma PointStateExact(b: Interval, target: Target, rope: real, answer: bool)
    requires b.low <= b.high && rope >= 0.0
    ensures PointBoundState(b, target, rope) == Ok(Some(answer)) <==>
            forall x: real :: b.Has(x) ==> Claim(target, rope, x) == answer
  {
    assert b.Has(b.low) && b.Has(b.high);
    if forall x: real :: b.Has(x) ==> Claim(target, rope, x) == answer {
      assert Claim(target, rope, b.low) == answer && Claim(target, rope, b.high) == answer;
      // Between an end below -rope and an end above rope lies a point inside the region.
      assert b.low < -rope && b.high > rope ==> b.Has(0.0);
    }
  }

  // _guard_behavioral_contrast, on the value it lets through.
  function Guarded(proposed: Option<bool>, b: Interval, target: Target, rope: real,
                   gatePassed: bool): Result<Option<bool>, BoundError> {
    var state := PointBoundState(b, target, rope);
    if state.Err? then Err(state.error)
    else if !gatePassed then Ok(None)
    else if proposed.Some? && state.value != proposed then Ok(None)
    else Ok(proposed)
  }

  // A verdict survives exactly when it was proposed, the gate passed and every point of the bound gives it.
  lemma GuardExact(proposed: Option<bool>, b: Interval, target: Target, rope: real, gatePassed: bool, verdict: bool)
    requires b.low <= b.high && rope >= 0.0
    ensures Guarded(proposed, b, target, rope, gatePassed) == Ok(Some(verdict)) <==>
            && gatePassed && proposed == Some(verdict)
            && forall x: real :: b.Has(x) ==> Claim(target, rope, x) == verdict
  {
    PointStateExact(b, target, rope, verdict);
  }

  // --- The distance to a neutral rate ---

  // distance_change_bound: the change is evaluated at the ends and at the kinks that lie inside.
  function Candidates(retain: real, resample: real, neutral: Interval): seq<real> {
    [neutral.low, neutral.high]
    + (if neutral.Has(retain) then [retain] else [])
    + (if neutral.Has(resample) then [resample] else [])
  }

  function Change(retain: real, resample: real, neutral: real): real {
    Abs(retain - neutral) - Abs(resample - neutral)
  }

  function LeastChange(retain: real, resample: real, candidates: seq<real>): real
    requires |candidates| > 0
  {
    var last := Change(retain, resample, candidates[|candidates| - 1]);
    if |candidates| == 1 then last else MinReal(LeastChange(retain, resample, candidates[..|candidates| - 1]), last)
  }

  function GreatestChange(retain: real, resample: real, candidates: seq<real>): real
    requires |candidates| > 0
  {
    var last := Change(retain, resample, candidates[|candidates| - 1]);
    if |candidates| == 1 then last else MaxReal(GreatestChange(retain, resample, candidates[..|candidates| - 1]), last)
  }

  function DistanceChangeBound(retain: real, resample: real, neutral: Interval): Interval {
    var candidates := Candidates(retain, resample, neutral);
    Interval(LeastChange(retain, resample, candidates), GreatestChange(retain, resample, candidates))
  }

  lemma {:induction false} ExtremesAreCandidates(retain: real, resample: real, candidates: seq<real>)
    requires |candidates| > 0
    ensures exists c :: c in candidates && LeastChange(retain, resample, candidates) == Change(retain, resample, c)
    ensures exists c :: c in candidates && GreatestChange(retain, resample, candidates) == Change(retain, resample, c)
    ensures forall c :: c in candidates ==>
              LeastChange(retain, resample, candidates) <= Change(retain, resample, c)
              <= GreatestChange(retain, resample, candidates)
  {
    hide Change;
    var front, last := candidates[..|candidates| - 1], candidates[|candidates| - 1];
    assert forall c :: c in candidates <==> c in front || c == last;
    if |candidates| > 1 {
      ExtremesAreCandidates(retain, resample, front);
    }
  }

  // The change moves one way only as the neutral rate grows.
  lemma ChangeMonotone(retain: real, resample: real, a: real, b: real)
    requires a <= b
    ensures if retain <= resample then Change(retain, resample, a) <= Change(retain, resample, b)
            else Change(retain, resample, a) >= Change(retain, resample, b)
  {
  }

  // The bound is the exact minimum and maximum over all neutral rates in the interval.
  lemma DistanceChangeExact(retain: real, resample: real, neutral: Interval)
    requires neutral.low <= neutral.high
    ensures var b := DistanceChangeBound(retain, resample, neutral);
            && (forall n: real :: neutral.Has(n) ==> b.Has(Change(retain, resample, n)))
            && (exists n: real :: neutral.Has(n) && Change(retain, resample, n) == b.low)
            && (exists n: real :: neutral.Has(n) && Change(retain, resample, n) == b.high)
  {
    hide Change, LeastChange, GreatestChange;
    var candidates := Candidates(retain, resample, neutral);
    ExtremesAreCandidates(retain, resample, candidates);
    var low: real :| low in candidates && LeastChange(retain, resample, candidates) == Change(retain, resample, low);
    var high: real :| high in candidates
      && GreatestChange(retain, resample, candidates) == Change(retain, resample, high);
    assert neutral.Has(low) && neutral.Has(high);
    assert candidates[0] in candidates && candidates[1] in candidates;
    forall n: real | neutral.Has(n)
      ensures DistanceChangeBound(retain, resample, neutral).Has(Change(retain, resample, n))
    {
      ChangeMonotone(retain, resample, neutral.low, n);
      ChangeMonotone(retain, resample, n, neutral.high);
    }
  }
}
