// The pooled revision and stopping contrasts: records whose process is unknown may hold anything.
module PooledProcess {
  import opened Numbers
  import opened Options
  import opened Sums
  import opened MissingBounds
  import opened GuardedContrasts

  // --- Revisions ---

  predicate Paired(row: Rollout) {
    row.process.firstGood.Some? && row.process.finalGood.Some?
  }

  function Transition(row: Rollout): int
    requires Paired(row)
  {
    Ind(row.process.finalGood.value) - Ind(row.process.firstGood.value)
  }

  function Transitions(records: seq<Rollout>): seq<int> {
    if |records| == 0 then [] else
      var last := records[|records| - 1];
      Transitions(records[..|records| - 1]) + (if Paired(last) then [Transition(last)] else [])
  }

  function SumOf(s: seq<int>): int {
    Sum(s, (x: int) => x)
  }

  method CollectTransitions(records: seq<Rollout>) returns (transitions: seq<int>)
    ensures transitions == Transitions(records)
  {
    transitions := [];
    for i := 0 to |records|
      invariant transitions == Transitions(records[..i])
    {
      assert records[..i + 1][..i] == records[..i];
      if Paired(records[i]) {
        transitions := transitions + [Transition(records[i])];
      }
    }
    assert records[..|records|] == records;
  }

  lemma {:induction false} TransitionsAtMost(records: seq<Rollout>)
    ensures |Transitions(records)| <= |records|
  {
    if |records| > 0 {
      TransitionsAtMost(records[..|records| - 1]);
    }
  }

  function RevisionBound(records: seq<Rollout>): Interval {
    var transitions := Transitions(records);
    TransitionsAtMost(records);
    if |transitions| < 2 then Interval(-1.0, 1.0)
    else
      var missing := |records| - |transitions|;
      Interval(Ratio(SumOf(transitions) - missing, |records|), Ratio(SumOf(transitions) + missing, |records|))
  }

  function RevisionAssessment(records: seq<Rollout>, proposed: Option<bool>,
                              rope: real): Result<Option<bool>, BoundError> {
    var gate := GatePasses(records, DIRECTIONS, TrajectoryMeasured);
    Guarded(if |Transitions(records)| < 2 then None else proposed, RevisionBound(records), Positive, rope, gate)
  }

  // One completion of every record's first and final side.
  datatype Sides = Sides(first: bool, final: bool)

  ghost predicate SidesFit(records: seq<Rollout>, sides: seq<Sides>) {
    && |sides| == |records|
    && forall i :: 0 <= i < |records| ==>
         && (records[i].process.firstGood.Some? ==> sides[i].first == records[i].process.firstGood.value)
         && (records[i].process.finalGood.Some? ==> sides[i].final == records[i].process.finalGood.value)
  }

  function Moves(sides: seq<Sides>): int {
    if |sides| == 0 then 0
    else Moves(sides[..|sides| - 1]) + Ind(sides[|sides| - 1].final) - Ind(sides[|sides| - 1].first)
  }

  lemma {:induction false} MovesInside(records: seq<Rollout>, sides: seq<Sides>)
    requires SidesFit(records, sides)
    ensures var missing := |records| - |Transitions(records)|;
            missing >= 0 && SumOf(Transitions(records)) - missing <= Moves(sides)
              <= SumOf(Transitions(records)) + missing
  {
    if |records| > 0 {
      var last := records[|records| - 1];
      var front := records[..|records| - 1];
      assert records[|records| - 1] == last;
      MovesInside(front, sides[..|sides| - 1]);
      if Paired(last) {
        assert Transitions(records)[..|Transitions(records)| - 1] == Transitions(front);
      } else {
        assert Transitions(records) == Transitions(front);
      }
    }
  }

  // A revision verdict holds under every completion of the missing first and final sides.
  lemma RevisionVerdictRobust(records: seq<Rollout>, proposed: Option<bool>, rope: real)
    ensures RevisionAssessment(records, proposed, rope).Ok?
    ensures forall verdict, sides ::
            RevisionAssessment(records, proposed, rope) == Ok(Some(verdict)) && SidesFit(records, sides) ==>
              |records| > 0 && Claim(Positive, rope, Ratio(Moves(sides), |records|)) == verdict
  {
    hide Transitions, SumOf, Moves, SidesFit, Ratio, GatePasses;
    TransitionsAtMost(records);
    if |Transitions(records)| >= 2 {
      var known, missing := SumOf(Transitions(records)), |records| - |Transitions(records)|;
      RatiosOrdered(known - missing, known + missing, |records|);
      forall sides | SidesFit(records, sides)
        ensures RevisionBound(records).Has(Ratio(Moves(sides), |records|))
      {
        MovesInside(records, sides);
        RatiosOrdered(known - missing, Moves(sides), |records|);
        RatiosOrdered(Moves(sides), known + missing, |records|);
      }
    }
  }

  // --- Stopping after the first good-side crossing ---

  datatype Risk = Observed(stopped: bool) | Outside | Unknown

  function RiskOf(row: Rollout): Risk {
    var p := row.process;
    if p.crossing.Some? && p.stopped.Some? then Observed(p.stopped.value)
    else if p.valid == Some(true) && p.crossing.None? then Risk.Outside
    else Unknown
  }

  function Stops(records: seq<Rollout>): seq<bool> {
    if |records| == 0 then [] else
      var last := RiskOf(records[|records| - 1]);
      Stops(records[..|records| - 1]) + (if last.Observed? then [last.stopped] else [])
  }

  function UnknownProcesses(records: seq<Rollout>): nat {
    if |records| == 0 then 0
    else UnknownProcesses(records[..|records| - 1]) + (if RiskOf(records[|records| - 1]).Unknown? then 1 else 0)
  }

  method ScanStops(records: seq<Rollout>) returns (stops: seq<bool>, unknown: nat)
    ensures stops == Stops(records) && unknown == UnknownProcesses(records)
  {
    stops, unknown := [], 0;
    for i := 0 to |records|
      invariant stops == Stops(records[..i]) && unknown == UnknownProcesses(records[..i])
    {
      assert records[..i + 1][..i] == records[..i];
      var p := records[i].process;
      if p.crossing.Some? && p.stopped.Some? {
        stops := stops + [p.stopped.value];
      } else if p.valid == Some(true) && p.crossing.None? {
      } else {
        unknown := unknown + 1;
      }
    }
    assert records[..|records|] == records;
  }

  function StoppingBound(records: seq<Rollout>): Interval {
    var stops, unknown := Stops(records), UnknownProcesses(records);
    if |stops| < 2 then Interval(-0.5, 0.5)
    else
      var potential := |stops| + unknown;
      Interval(Ratio(Trues(stops), potential) - 0.5, Ratio(Trues(stops) + unknown, potential) - 0.5)
  }

  function StoppingAssessment(records: seq<Rollout>, proposed: Option<bool>,
                              rope: real): Result<Option<bool>, BoundError> {
    var gate := GatePasses(records, DIRECTIONS, TrajectoryMeasured);
    Guarded(if |Stops(records)| < 2 then None else proposed, StoppingBound(records), Positive, rope, gate)
  }

  // One way the processes may turn out. A known crossing with a known stop puts a record in the risk set with that
  // outcome, a valid record without a crossing is outside it, and any other record is outside or inside with either
  // outcome.
  ghost predicate Resolves(records: seq<Rollout>, resolved: Outcomes) {
    && |resolved| == |records|
    && forall i :: 0 <= i < |records| ==>
         var p := records[i].process;
         && (p.crossing != None && p.stopped != None ==> resolved[i] == p.stopped)
         && (p.valid == Some(true) && p.crossing == None ==> resolved[i] == None)
  }

  // A record whose crossing and stop are both known, one known to be outside the risk set, and any other one.
  lemma RiskIs(row: Rollout)
    ensures var p := row.process;
            && (RiskOf(row).Observed? <==> p.crossing != None && p.stopped != None)
            && (RiskOf(row).Observed? ==> Some(RiskOf(row).stopped) == p.stopped)
            && (RiskOf(row).Outside? <==> p.valid == Some(true) && p.crossing == None)
  {
  }

  function Included(resolved: Outcomes): nat {
    MissingAtMost(resolved);
    |resolved| - Missing(resolved)
  }

  // Of the unknown processes some k are included and s of those stop, with s <= k <= unknown.
  lemma {:induction false} ResolvedCounts(records: seq<Rollout>, resolved: Outcomes)
    requires Resolves(records, resolved)
    ensures var k := Included(resolved) - |Stops(records)|;
            var s := Successes(resolved) - Trues(Stops(records));
            0 <= s <= k <= UnknownProcesses(records)
  {
    if |records| > 0 {
      var front, last := records[..|records| - 1], RiskOf(records[|records| - 1]);
      MissingAtMost(resolved);
      MissingAtMost(resolved[..|resolved| - 1]);
      ResolvedCounts(front, resolved[..|resolved| - 1]);
      RiskIs(records[|records| - 1]);
      if last.Observed? {
        assert Stops(records)[..|Stops(records)| - 1] == Stops(front);
      } else {
        assert Stops(records) == Stops(front);
      }
    }
  }

  lemma {:induction false} TruesAtMost(fill: seq<bool>)
    ensures Trues(fill) <= |fill|
  {
    if |fill| > 0 {
      TruesAtMost(fill[..|fill| - 1]);
    }
  }

  // Including k of u unknown members with s successes moves a rate no further than including all of them as failures
  // or successes.
  lemma IncludedRate(successes: nat, n: nat, s: nat, k: nat, u: nat)
    requires successes <= n && 0 < n && s <= k <= u
    ensures Ratio(successes, n + u) <= Ratio(successes + s, n + k) <= Ratio(successes + u, n + u)
  {
    hide Ratio;
    Products(successes, successes + s, n + k, n + u);
    CrossMultiplied(successes, n + u, successes + s, n + k);
    Products(successes + s, n + k, u - k, u - s);
    Spread(successes + s, n + k, u - k, u - s);
    assert successes + s + (u - s) == successes + u && n + k + (u - k) == n + u;
    CrossMultiplied(successes + s, n + k, successes + u, n + u);
  }

  lemma Products(a: nat, b: nat, x: nat, y: nat)
    requires a <= b && x <= y
    ensures a * x <= b * y
  {
    assert a * x <= b * x <= b * y;
  }

  lemma Spread(a: nat, b: nat, x: nat, y: nat)
    requires a * x <= b * y
    ensures a * (b + x) <= (a + y) * b
  {
    assert a * (b + x) == a * b + a * x;
    assert (a + y) * b == a * b + b * y;
  }

  lemma CrossMultiplied(a: nat, n: nat, b: nat, m: nat)
    requires n > 0 && m > 0 && a * m <= b * n
    ensures Ratio(a, n) <= Ratio(b, m)
  {
    var x, y := Ratio(a, n), Ratio(b, m);
    var p, q := n as real, m as real;
    assert x * p == a as real && y * q == b as real;
    assert (a * m) as real == a as real * q && (b * n) as real == b as real * p;
    assert x * (p * q) == (x * p) * q;
    assert y * (p * q) == (y * q) * p;
    CancelFactor(x, y, p * q);
  }

  lemma CancelFactor(x: real, y: real, z: real)
    requires z > 0.0 && x * z <= y * z
    ensures x <= y
  {
    assert (y - x) * z >= 0.0;
  }

  // Every resolution's rate lies in the bound, and both ends are rates of resolutions.
  lemma StoppingExact(records: seq<Rollout>)
    requires |Stops(records)| >= 2
    ensures var b := StoppingBound(records);
            && (forall resolved :: Resolves(records, resolved) ==>
                  Included(resolved) > 0 && b.Has(Ratio(Successes(resolved), Included(resolved)) - 0.5))
            && (exists resolved ::
                  && Resolves(records, resolved) && Included(resolved) > 0
                  && Ratio(Successes(resolved), Included(resolved)) - 0.5 == b.low)
            && (exists resolved ::
                  && Resolves(records, resolved) && Included(resolved) > 0
                  && Ratio(Successes(resolved), Included(resolved)) - 0.5 == b.high)
  {
    hide Ratio, Resolves, Stops, UnknownProcesses, Trues, Successes, Missing, Included;
    var stops, unknown := Stops(records), UnknownProcesses(records);
    TruesAtMost(stops);
    forall resolved | Resolves(records, resolved)
      ensures Included(resolved) > 0 && StoppingBound(records).Has(Ratio(Successes(resolved), Included(resolved)) - 0.5)
    {
      ResolvedCounts(records, resolved);
      IncludedRate(Trues(stops), |stops|, Successes(resolved) - Trues(stops), Included(resolved) - |stops|, unknown);
    }
    AllIncluded(records, false);
    AllIncluded(records, true);
    assert Resolves(records, IncludeAll(records, false)) && Resolves(records, IncludeAll(records, true));
  }

  function IncludeAll(records: seq<Rollout>, outcome: bool): Outcomes {
    seq(|records|, i requires 0 <= i < |records| =>
      match RiskOf(records[i])
      case Observed(stopped) => Some(stopped)
      case Outside => None
      case Unknown => Some(outcome))
  }

  lemma {:induction false} AllIncluded(records: seq<Rollout>, outcome: bool)
    ensures var resolved := IncludeAll(records, outcome);
            && Resolves(records, resolved)
            && Included(resolved) == |Stops(records)| + UnknownProcesses(records)
            && Successes(resolved) == Trues(Stops(records)) + (if outcome then UnknownProcesses(records) else 0)
  {
    hide RiskOf, Resolves;
    AllResolved(records, outcome);
    if |records| > 0 {
      var front, last := records[..|records| - 1], RiskOf(records[|records| - 1]);
      var resolved := IncludeAll(records, outcome);
      AllIncluded(front, outcome);
      MissingAtMost(resolved);
      MissingAtMost(IncludeAll(front, outcome));
      assert resolved[..|records| - 1] == IncludeAll(front, outcome);
      if last.Observed? {
        assert Stops(records)[..|Stops(records)| - 1] == Stops(front);
      } else {
        assert Stops(records) == Stops(front);
      }
    }
  }

  lemma AllResolved(records: seq<Rollout>, outcome: bool)
    ensures Resolves(records, IncludeAll(records, outcome))
  {
    hide RiskOf;
    forall i | 0 <= i < |records| {
      RiskIs(records[i]);
    }
  }

  // A stopping verdict holds whichever unknown trajectories enter the risk set and however they end.
  lemma StoppingVerdictRobust(records: seq<Rollout>, proposed: Option<bool>, rope: real)
    ensures StoppingAssessment(records, proposed, rope).Ok?
    ensures forall verdict, resolved ::
            StoppingAssessment(records, proposed, rope) == Ok(Some(verdict)) && Resolves(records, resolved) ==>
              && Included(resolved) > 0
              && Claim(Positive, rope, Ratio(Successes(resolved), Included(resolved)) - 0.5) == verdict
  {
    hide Ratio, Resolves, Stops, UnknownProcesses, Trues, Successes, Missing, Included, GatePasses;
    if |Stops(records)| >= 2 {
      StoppingExact(records);
    }
  }

  // --- When a verdict is given ---

  ghost function StopKnown(): Rollout -> bool {
    (row: Rollout) => row.process.crossing != None && row.process.stopped != None
  }

  lemma {:induction false} StopsNumber(records: seq<Rollout>)
    ensures |Stops(records)| == Number(records, StopKnown())
  {
    if |records| == 0 {
      NumberIs(records, StopKnown(), {});
    } else {
      StopsNumber(records[..|records| - 1]);
      NumberLast(records, StopKnown());
      RiskIs(records[|records| - 1]);
    }
  }

  lemma GateIs(records: seq<Rollout>)
    ensures GatePasses(records, DIRECTIONS, TrajectoryMeasured) <==>
            && CellComplete(records, "above_good", TrajectoryMeasured)
            && CellComplete(records, "below_good", TrajectoryMeasured)
  {
    hide CellComplete, GatePasses;
    GatePassesIff(records, DIRECTIONS, TrajectoryMeasured);
  }

  // A stopping verdict is given exactly when it was proposed, both cells are complete enough, two stops were observed,
  // and every resolution of the unknown processes gives it.
  lemma StoppingDecided(records: seq<Rollout>, proposed: Option<bool>, rope: real, verdict: bool)
    requires rope >= 0.0
    ensures StoppingAssessment(records, proposed, rope) == Ok(Some(verdict)) <==>
            && proposed == Some(verdict)
            && CellComplete(records, "above_good", TrajectoryMeasured)
            && CellComplete(records, "below_good", TrajectoryMeasured)
            && Number(records, StopKnown()) >= 2
            && forall resolved :: Resolves(records, resolved) ==>
                 Included(resolved) > 0 && (Ratio(Successes(resolved), Included(resolved)) - 0.5 > rope) == verdict
  {
    hide Ratio, Resolves, Stops, Successes, Included, GatePasses, CellComplete, StoppingBound, StopKnown;
    GateIs(records);
    StopsNumber(records);
    if |Stops(records)| >= 2 {
      StoppingExact(records);
      StoppingBoundOrdered(records);
      GuardExact(proposed, StoppingBound(records), Positive, rope, GatePasses(records, DIRECTIONS, TrajectoryMeasured),
                 verdict);
      EndsDecide(StoppingBound(records), rope, verdict);
    }
  }

  lemma StoppingBoundOrdered(records: seq<Rollout>)
    requires |Stops(records)| >= 2
    ensures StoppingBound(records).low <= StoppingBound(records).high
  {
    hide Stops, UnknownProcesses, Trues, Ratio;
    RatiosOrdered(Trues(Stops(records)), Trues(Stops(records)) + UnknownProcesses(records),
                  |Stops(records)| + UnknownProcesses(records));
  }

  // For a one-sided claim the two ends of an interval decide every point between them.
  lemma EndsDecide(b: Interval, rope: real, verdict: bool)
    requires b.low <= b.high
    ensures (forall x: real :: b.Has(x) ==> Claim(Positive, rope, x) == verdict) <==>
            (b.low > rope) == verdict && (b.high > rope) == verdict
  {
    if forall x: real :: b.Has(x) ==> Claim(Positive, rope, x) == verdict {
      assert b.Has(b.low) && b.Has(b.high);
    }
  }

  ghost function MovedUp(): Rollout -> bool {
    (row: Rollout) => row.process.firstGood == Some(false) && row.process.finalGood == Some(true)
  }

  ghost function MovedDown(): Rollout -> bool {
    (row: Rollout) => row.process.firstGood == Some(true) && row.process.finalGood == Some(false)
  }

  ghost function HasPair(): Rollout -> bool {
    (row: Rollout) => row.process.firstGood != None && row.process.finalGood != None
  }

  lemma {:induction false} TransitionNumbers(records: seq<Rollout>)
    ensures |Transitions(records)| == Number(records, HasPair())
    ensures SumOf(Transitions(records)) == Number(records, MovedUp()) - Number(records, MovedDown())
  {
    if |records| == 0 {
      NumberIs(records, HasPair(), {});
      NumberIs(records, MovedUp(), {});
      NumberIs(records, MovedDown(), {});
    } else {
      var front, last := records[..|records| - 1], records[|records| - 1];
      TransitionNumbers(front);
      NumberLast(records, HasPair());
      NumberLast(records, MovedUp());
      NumberLast(records, MovedDown());
      if Paired(last) {
        assert Transitions(records)[..|Transitions(records)| - 1] == Transitions(front);
        TransitionIs(last);
      } else {
        assert Transitions(records) == Transitions(front);
      }
    }
  }

  lemma TransitionIs(row: Rollout)
    requires Paired(row)
    ensures Transition(row) == Ind(MovedUp()(row)) - Ind(MovedDown()(row))
  {
    var p := row.process;
    assert p.firstGood == if p.firstGood.value then Some(true) else Some(false);
    assert p.finalGood == if p.finalGood.value then Some(true) else Some(false);
  }

  // A revision verdict is given exactly when it was proposed, both cells are complete enough, two records have both
  // sides, and the net number of upward moves decides it even if every other record moves up, or every one down.
  lemma RevisionDecided(records: seq<Rollout>, proposed: Option<bool>, rope: real, verdict: bool)
    requires rope >= 0.0
    ensures RevisionAssessment(records, proposed, rope) == Ok(Some(verdict)) <==>
            && proposed == Some(verdict)
            && CellComplete(records, "above_good", TrajectoryMeasured)
            && CellComplete(records, "below_good", TrajectoryMeasured)
            && Number(records, HasPair()) >= 2
            && var moves, others := Number(records, MovedUp()) - Number(records, MovedDown()),
                                    |records| - Number(records, HasPair());
               && ((moves - others) as real / |records| as real > rope) == verdict
               && ((moves + others) as real / |records| as real > rope) == verdict
  {
    hide Transitions, SumOf, GatePasses, CellComplete, MovedUp, MovedDown, HasPair;
    GateIs(records);
    TransitionNumbers(records);
    TransitionsAtMost(records);
    if |Transitions(records)| >= 2 {
      var known, missing := SumOf(Transitions(records)), |records| - |Transitions(records)|;
      RatiosOrdered(known - missing, known + missing, |records|);
      GuardExact(proposed, RevisionBound(records), Positive, rope, GatePasses(records, DIRECTIONS, TrajectoryMeasured),
                 verdict);
      EndsDecide(RevisionBound(records), rope, verdict);
    }
  }
}
