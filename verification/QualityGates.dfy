// Aggregate quality gates per required phase and per task and condition cell.
module QualityGates {
  import opened Numbers
  import opened Options

  // What the gates read of one consensus row.
  datatype Row = Row(task: string, condition: string,
                     consensusValid: Option<bool>, consensusExact: Option<bool>,
                     finalValid: bool, finalEstimate: Option<int>,
                     trajectoryValid: bool, trajectoryValues: seq<int>)

  // --- The four measurements of a row ---

  datatype Measurement = Marked | Exact | FinalKnown | Consistent

  function FinalValue(r: Row): Option<int> {
    if r.consensusValid == Some(true) && r.consensusExact.Some? && r.finalValid then r.finalEstimate else None
  }

  // _trajectory_consistent
  predicate TrajectoryConsistent(r: Row) {
    && FinalValue(r).Some? && r.trajectoryValid && |r.trajectoryValues| > 0
    && r.trajectoryValues[|r.trajectoryValues| - 1] == FinalValue(r).value
  }

  predicate Holds(m: Measurement, r: Row) {
    match m
    case Marked => r.consensusValid.Some? && r.consensusExact.Some?
    case Exact => r.consensusExact == Some(true)
    case FinalKnown => FinalValue(r).Some?
    case Consistent => TrajectoryConsistent(r)
  }

  function Count(rows: seq<Row>, m: Measurement): (n: nat)
    ensures n <= |rows|
  {
    if |rows| == 0 then 0 else Count(rows[..|rows| - 1], m) + (if Holds(m, rows[|rows| - 1]) then 1 else 0)
  }

  // --- Reports ---

  datatype Minimums = Minimums(exact: real, known: real, consistent: real)

  predicate ValidMinimums(m: Minimums) {
    0.0 <= m.exact <= 1.0 && 0.0 <= m.known <= 1.0 && 0.0 <= m.consistent <= 1.0
  }

  datatype Report = Report(total: nat, marked: nat, exact: nat, known: nat, consistent: nat, passed: bool)

  function ReportOf(rows: seq<Row>, m: Minimums): Report {
    var n := |rows|;
    var marked, exact, known, consistent :=
      Count(rows, Marked), Count(rows, Exact), Count(rows, FinalKnown), Count(rows, Consistent);
    Report(n, marked, exact, known, consistent,
           n > 0 && marked == n && Rate(exact, n) >= m.exact && Rate(known, n) >= m.known
             && Rate(consistent, n) >= m.consistent)
  }

  method MeasurementReport(rows: seq<Row>, m: Minimums) returns (report: Report)
    ensures report == ReportOf(rows, m)
  {
    hide Holds, Rate;
    var total := |rows|;
    var marked: nat, exact: nat, known: nat, consistent: nat := 0, 0, 0, 0;
    for i := 0 to total
      invariant marked == Count(rows[..i], Marked) && exact == Count(rows[..i], Exact)
      invariant known == Count(rows[..i], FinalKnown) && consistent == Count(rows[..i], Consistent)
    {
      assert rows[..i + 1][..i] == rows[..i];
      marked := marked + (if Holds(Marked, rows[i]) then 1 else 0);
      exact := exact + (if Holds(Exact, rows[i]) then 1 else 0);
      known := known + (if Holds(FinalKnown, rows[i]) then 1 else 0);
      consistent := consistent + (if Holds(Consistent, rows[i]) then 1 else 0);
    }
    assert rows[..total] == rows;
    return Report(total, marked, exact, known, consistent,
                  total > 0 && marked == total && Rate(exact, total) >= m.exact && Rate(known, total) >= m.known
                  && Rate(consistent, total) >= m.consistent);
  }

  // --- Phases and cells ---

  function ConditionPhase(condition: string): string {
    if condition == "baseline" then "baseline" else "treatment"
  }

  function PhaseOf(r: Row): string {
    ConditionPhase(r.condition)
  }

  function InPhase(rows: seq<Row>, phase: string): seq<Row> {
    if |rows| == 0 then []
    else InPhase(rows[..|rows| - 1], phase) + (if PhaseOf(rows[|rows| - 1]) == phase then [rows[|rows| - 1]] else [])
  }

  function InPhases(rows: seq<Row>, phases: seq<string>): seq<Row> {
    if |rows| == 0 then []
    else InPhases(rows[..|rows| - 1], phases) + (if PhaseOf(rows[|rows| - 1]) in phases then [rows[|rows| - 1]] else [])
  }

  datatype Key = Key(task: string, condition: string)

  function KeyOf(r: Row): Key {
    Key(r.task, r.condition)
  }

  function Cell(rows: seq<Row>, key: Key): seq<Row> {
    if |rows| == 0 then []
    else Cell(rows[..|rows| - 1], key) + (if KeyOf(rows[|rows| - 1]) == key then [rows[|rows| - 1]] else [])
  }

  datatype GateError = BadMinimums | BadPhases | UnnamedCell | GateFailed

  // The reports in the order of the required phases, those of the non-empty cells, and the verdict.
  datatype Evaluation = Evaluation(phases: seq<Report>, cells: map<Key, Report>, passed: bool)

  predicate ValidPhases(phases: seq<string>) {
    && |phases| > 0 && "" !in phases
    && forall i, j :: 0 <= i < j < |phases| ==> phases[i] != phases[j]
  }

  predicate Named(rows: seq<Row>) {
    forall i :: 0 <= i < |rows| ==> rows[i].task != "" && rows[i].condition != ""
  }

  ghost predicate PhasesPass(rows: seq<Row>, phases: seq<string>, m: Minimums) {
    forall p :: p in phases ==> ReportOf(InPhase(rows, p), m).passed
  }

  // Every non-empty cell of the rows passes.
  ghost predicate CellsPass(rows: seq<Row>, m: Minimums) {
    forall key :: Cell(rows, key) != [] ==> ReportOf(Cell(rows, key), m).passed
  }

  function PhaseReports(rows: seq<Row>, phases: seq<string>, m: Minimums): seq<Report> {
    seq(|phases|, i requires 0 <= i < |phases| => ReportOf(InPhase(rows, phases[i]), m))
  }

  ghost predicate CellReports(rows: seq<Row>, m: Minimums, reports: map<Key, Report>) {
    forall key :: (key in reports <==> Cell(rows, key) != [])
      && (key in reports ==> reports[key] == ReportOf(Cell(rows, key), m))
  }

  method PhasesGate(rows: seq<Row>, m: Minimums, phases: seq<string>) returns (reports: seq<Report>, passed: bool)
    ensures reports == PhaseReports(rows, phases, m) && passed == PhasesPass(rows, phases, m)
  {
    hide ReportOf, InPhase;
    reports, passed := [], true;
    for i := 0 to |phases|
      invariant |reports| == i && forall k :: 0 <= k < i ==> reports[k] == ReportOf(InPhase(rows, phases[k]), m)
      invariant passed <==> forall k :: 0 <= k < i ==> ReportOf(InPhase(rows, phases[k]), m).passed
    {
      var selected := SelectPhase(rows, phases[i]);
      var report := MeasurementReport(selected, m);
      reports := reports + [report];
      passed := passed && report.passed;
    }
  }

  ghost predicate Grouped(cells: map<Key, seq<Row>>, rows: seq<Row>) {
    forall key :: (key in cells <==> Cell(rows, key) != []) && (key in cells ==> cells[key] == Cell(rows, key))
  }

  lemma NamedStep(rows: seq<Row>, r: Row)
    requires Named(rows) && r.task != "" && r.condition != ""
    ensures Named(rows + [r])
  {
  }

  // The rows of the required phases by task and condition; None where a row names no cell.
  method GroupCells(rows: seq<Row>, phases: seq<string>) returns (cells: Option<map<Key, seq<Row>>>)
    ensures cells.Some? <==> Named(InPhases(rows, phases))
    ensures cells.Some? ==> Grouped(cells.value, InPhases(rows, phases))
  {
    hide InPhases, Cell, Grouped, Named;
    var grouped: map<Key, seq<Row>> := map[];
    NoRows(rows, phases);
    for i := 0 to |rows|
      invariant Named(InPhases(rows[..i], phases)) && Grouped(grouped, InPhases(rows[..i], phases))
    {
      var r := rows[i];
      PhaseStep(rows, phases, i);
      if PhaseOf(r) in phases {
        if r.task == "" || r.condition == "" {
          UnnamedStays(rows, phases, i);
          return None;
        }
        var key := KeyOf(r);
        GroupStep(grouped, InPhases(rows[..i], phases), r);
        NamedStep(InPhases(rows[..i], phases), r);
        grouped := grouped[key := (if key in grouped then grouped[key] else []) + [r]];
      }
    }
    assert rows[..|rows|] == rows;
    return Some(grouped);
  }

  lemma GroupStep(cells: map<Key, seq<Row>>, rows: seq<Row>, r: Row)
    requires Grouped(cells, rows)
    ensures var key := KeyOf(r); Grouped(cells[key := (if key in cells then cells[key] else []) + [r]], rows + [r])
  {
    hide Cell;
    CellStep(rows, r);
  }

  lemma NoRows(rows: seq<Row>, phases: seq<string>)
    ensures InPhases(rows[..0], phases) == [] && Grouped(map[], []) && Named([])
  {
  }

  method CellsGate(cells: map<Key, seq<Row>>, m: Minimums, ghost rows: seq<Row>)
    returns (reports: map<Key, Report>, passed: bool)
    requires Grouped(cells, rows)
    ensures CellReports(rows, m, reports) && passed == CellsPass(rows, m)
  {
    hide ReportOf, Cell;
    var keys := cells.Keys;
    reports, passed := map[], true;
    while keys != {}
      invariant keys <= cells.Keys
      invariant forall key :: key in reports <==> key in cells && key !in keys
      invariant forall key :: key in reports ==> reports[key] == ReportOf(cells[key], m)
      invariant passed <==> forall key :: key in cells && key !in keys ==> ReportOf(cells[key], m).passed
      decreases |keys|
    {
      var key :| key in keys;
      var report := MeasurementReport(cells[key], m);
      reports := reports[key := report];
      passed := passed && report.passed;
      keys := keys - {key};
    }
  }

  ghost predicate Passes(rows: seq<Row>, m: Minimums, phases: seq<string>) {
    PhasesPass(rows, phases, m) && InPhases(rows, phases) != [] && CellsPass(InPhases(rows, phases), m)
  }

  // evaluate_adjudication_quality
  method EvaluateQuality(rows: seq<Row>, m: Minimums, phases: seq<string>, enforce: bool)
    returns (result: Result<Evaluation, GateError>)
    ensures !ValidMinimums(m) ==> result == Err(BadMinimums)
    ensures ValidMinimums(m) && !ValidPhases(phases) ==> result == Err(BadPhases)
    ensures ValidMinimums(m) && ValidPhases(phases) && !Named(InPhases(rows, phases)) ==> result == Err(UnnamedCell)
    ensures ValidMinimums(m) && ValidPhases(phases) && Named(InPhases(rows, phases)) ==>
              if enforce && !Passes(rows, m, phases) then result == Err(GateFailed)
              else
                && result.Ok? && result.value.passed == Passes(rows, m, phases)
                && result.value.phases == PhaseReports(rows, phases, m)
                && CellReports(InPhases(rows, phases), m, result.value.cells)
  {
    hide Cell, InPhases, PhasesPass, CellsPass, PhaseReports, CellReports;
    if !ValidMinimums(m) {
      return Err(BadMinimums);
    }
    if !ValidPhases(phases) {
      return Err(BadPhases);
    }
    var phaseReports, passed := PhasesGate(rows, m, phases);
    var cells := GroupCells(rows, phases);
    if cells.None? {
      return Err(UnnamedCell);
    }
    SomeCell(cells.value, InPhases(rows, phases));
    var cellReports, cellsPassed := CellsGate(cells.value, m, InPhases(rows, phases));
    var verdict := passed && cells.value != map[] && cellsPassed;
    if enforce && !verdict {
      return Err(GateFailed);
    }
    return Ok(Evaluation(phaseReports, cellReports, verdict));
  }

  lemma SomeCell(cells: map<Key, seq<Row>>, rows: seq<Row>)
    requires Grouped(cells, rows)
    ensures cells != map[] <==> rows != []
  {
    AnyCell(rows);
    if rows != [] {
      assert KeyOf(rows[0]) in cells;
    }
  }

  method SelectPhase(rows: seq<Row>, phase: string) returns (selected: seq<Row>)
    ensures selected == InPhase(rows, phase)
  {
    selected := [];
    for i := 0 to |rows|
      invariant selected == InPhase(rows[..i], phase)
    {
      assert rows[..i + 1][..i] == rows[..i];
      if PhaseOf(rows[i]) == phase {
        selected := selected + [rows[i]];
      }
    }
    assert rows[..|rows|] == rows;
  }

  lemma PhaseStep(rows: seq<Row>, phases: seq<string>, i: nat)
    requires i < |rows|
    ensures InPhases(rows[..i + 1], phases) ==
            if PhaseOf(rows[i]) in phases then InPhases(rows[..i], phases) + [rows[i]] else InPhases(rows[..i], phases)
  {
    assert rows[..i + 1][..i] == rows[..i];
  }

  lemma CellStep(rows: seq<Row>, r: Row)
    ensures forall key :: Cell(rows + [r], key) == Cell(rows, key) + (if KeyOf(r) == key then [r] else [])
  {
    assert (rows + [r])[..|rows|] == rows;
  }

  lemma {:induction false} PhasesPrefix(rows: seq<Row>, phases: seq<string>, i: nat)
    requires i <= |rows|
    ensures InPhases(rows[..i], phases) <= InPhases(rows, phases)
    decreases |rows|
  {
    if i < |rows| {
      assert rows[..|rows| - 1][..i] == rows[..i];
      PhasesPrefix(rows[..|rows| - 1], phases, i);
    } else {
      assert rows[..i] == rows;
    }
  }

  lemma UnnamedStays(rows: seq<Row>, phases: seq<string>, i: nat)
    requires i < |rows| && PhaseOf(rows[i]) in phases && (rows[i].task == "" || rows[i].condition == "")
    ensures !Named(InPhases(rows, phases))
  {
    PhaseStep(rows, phases, i);
    PhasesPrefix(rows, phases, i + 1);
    var k := |InPhases(rows[..i], phases)|;
    assert InPhases(rows[..i + 1], phases)[k] == rows[i];
    assert InPhases(rows, phases)[k] == rows[i];
  }

  lemma {:induction false} AnyCell(rows: seq<Row>)
    ensures rows != [] ==> Cell(rows, KeyOf(rows[0])) != []
    ensures rows == [] ==> forall key :: Cell(rows, key) == []
  {
    if |rows| > 1 {
      AnyCell(rows[..|rows| - 1]);
    }
  }

  // --- Cells make phases ---

  function Others(rows: seq<Row>, key: Key): seq<Row> {
    if |rows| == 0 then []
    else Others(rows[..|rows| - 1], key) + (if KeyOf(rows[|rows| - 1]) == key then [] else [rows[|rows| - 1]])
  }

  lemma {:induction false} CountAppend(a: seq<Row>, r: Row, m: Measurement)
    ensures Count(a + [r], m) == Count(a, m) + (if Holds(m, r) then 1 else 0)
  {
    assert (a + [r])[..|a|] == a;
  }

  // A cell and the rest share out the rows and their counts.
  lemma {:induction false} CellSplits(rows: seq<Row>, key: Key, m: Measurement)
    ensures |Cell(rows, key)| + |Others(rows, key)| == |rows|
    ensures Count(Cell(rows, key), m) + Count(Others(rows, key), m) == Count(rows, m)
  {
    hide Holds;
    if |rows| > 0 {
      var front, last := rows[..|rows| - 1], rows[|rows| - 1];
      CellSplits(front, key, m);
      CountAppend(Cell(front, key), last, m);
      CountAppend(Others(front, key), last, m);
      assert Cell(front, key) + [] == Cell(front, key) && Others(front, key) + [] == Others(front, key);
    }
  }

  lemma {:induction false} OtherCells(rows: seq<Row>, key: Key, other: Key)
    ensures Cell(Others(rows, key), other) == if other == key then [] else Cell(rows, other)
  {
    if |rows| > 0 {
      var front, last := rows[..|rows| - 1], rows[|rows| - 1];
      OtherCells(front, key, other);
      CellStep(Others(front, key), last);
      assert Others(front, key) + [] == Others(front, key);
    }
  }

  ghost predicate EnoughIn(rows: seq<Row>, m: Measurement, minimum: real) {
    Count(rows, m) as real >= minimum * |rows| as real
  }

  // If every cell has enough rows with a measurement, so have all rows together.
  lemma {:induction false} EnoughOverall(rows: seq<Row>, m: Measurement, minimum: real)
    requires forall key :: Cell(rows, key) != [] ==> EnoughIn(Cell(rows, key), m, minimum)
    ensures EnoughIn(rows, m, minimum)
    decreases |rows|
  {
    hide Count;
    if |rows| == 0 {
      NothingEnough(m, minimum);
    } else {
      var key := KeyOf(rows[0]);
      var cell, others := Cell(rows, key), Others(rows, key);
      AnyCell(rows);
      CellSplits(rows, key, m);
      forall other | Cell(others, other) != []
        ensures EnoughIn(Cell(others, other), m, minimum)
      {
        OtherCells(rows, key, other);
      }
      EnoughOverall(others, m, minimum);
      assert minimum * |rows| as real == minimum * |cell| as real + minimum * |others| as real;
    }
  }

  lemma NothingEnough(m: Measurement, minimum: real)
    ensures EnoughIn([], m, minimum)
  {
  }

  function MinimumFor(m: Minimums, measurement: Measurement): real {
    match measurement
    case Marked => 1.0
    case Exact => m.exact
    case FinalKnown => m.known
    case Consistent => m.consistent
  }

  lemma AllMarked(rows: seq<Row>)
    ensures EnoughIn(rows, Marked, 1.0) <==> Count(rows, Marked) == |rows|
  {
    hide Holds;
  }

  lemma FourMeasurements(rows: seq<Row>, m: Minimums)
    ensures (forall measurement :: EnoughIn(rows, measurement, MinimumFor(m, measurement))) <==>
            && EnoughIn(rows, Marked, 1.0) && EnoughIn(rows, Exact, m.exact)
            && EnoughIn(rows, FinalKnown, m.known) && EnoughIn(rows, Consistent, m.consistent)
  {
    hide EnoughIn;
    if EnoughIn(rows, Marked, 1.0) && EnoughIn(rows, Exact, m.exact) && EnoughIn(rows, FinalKnown, m.known)
       && EnoughIn(rows, Consistent, m.consistent) {
      forall measurement
        ensures EnoughIn(rows, measurement, MinimumFor(m, measurement))
      {
        match measurement
        case Marked =>
        case Exact =>
        case FinalKnown =>
        case Consistent =>
      }
    }
    if forall measurement :: EnoughIn(rows, measurement, MinimumFor(m, measurement)) {
      assert EnoughIn(rows, Marked, MinimumFor(m, Marked)) && EnoughIn(rows, Exact, MinimumFor(m, Exact));
      assert EnoughIn(rows, FinalKnown, MinimumFor(m, FinalKnown))
             && EnoughIn(rows, Consistent, MinimumFor(m, Consistent));
    }
  }

  // A report passes exactly when there are rows and each measurement is frequent enough.
  lemma PassedIff(rows: seq<Row>, m: Minimums)
    ensures ReportOf(rows, m).passed <==>
            |rows| > 0 && forall measurement :: EnoughIn(rows, measurement, MinimumFor(m, measurement))
  {
    hide Count, Rate, MinimumFor, Holds;
    FourMeasurements(rows, m);
    if |rows| > 0 {
      AllMarked(rows);
      RateReaches(Count(rows, Exact), |rows|, m.exact);
      RateReaches(Count(rows, FinalKnown), |rows|, m.known);
      RateReaches(Count(rows, Consistent), |rows|, m.consistent);
    }
  }

  lemma InPhaseStep(rows: seq<Row>, phase: string, r: Row)
    ensures InPhase(rows + [r], phase) ==
            if PhaseOf(r) == phase then InPhase(rows, phase) + [r] else InPhase(rows, phase)
  {
    assert (rows + [r])[..|rows|] == rows;
  }

  lemma InPhasesStep(rows: seq<Row>, phases: seq<string>, r: Row)
    ensures InPhases(rows + [r], phases) ==
            if PhaseOf(r) in phases then InPhases(rows, phases) + [r] else InPhases(rows, phases)
  {
    assert (rows + [r])[..|rows|] == rows;
  }

  lemma CellAppended(rows: seq<Row>, r: Row, key: Key)
    ensures KeyOf(r) == key ==> Cell(rows + [r], key) == Cell(rows, key) + [r]
    ensures KeyOf(r) != key ==> Cell(rows + [r], key) == Cell(rows, key)
  {
    hide KeyOf;
    CellStep(rows, r);
  }

  lemma KeyPhase(r: Row)
    ensures PhaseOf(r) == ConditionPhase(KeyOf(r).condition)
  {
  }

  // The rows of one cell all lie in the phase of its condition.
  lemma {:induction false} PhaseCells(rows: seq<Row>, phases: seq<string>, phase: string, key: Key)
    requires phase in phases
    ensures Cell(InPhase(rows, phase), key) ==
            if ConditionPhase(key.condition) == phase then Cell(InPhases(rows, phases), key) else []
  {
    hide ConditionPhase, PhaseOf, KeyOf;
    if |rows| == 0 {
    } else {
      var front, last := rows[..|rows| - 1], rows[|rows| - 1];
      hide InPhase, InPhases, Cell;
      PhaseCells(front, phases, phase, key);
      KeyPhase(last);
      CellAppended(InPhase(front, phase), last, key);
      CellAppended(InPhases(front, phases), last, key);
      InPhaseStep(front, phase, last);
      InPhasesStep(front, phases, last);
      assert front + [last] == rows;
    }
  }

  // When every cell passes, a required phase passes as soon as it has a row.
  lemma CellsMakePhase(rows: seq<Row>, phases: seq<string>, phase: string, m: Minimums)
    requires phase in phases && CellsPass(InPhases(rows, phases), m) && InPhase(rows, phase) != []
    ensures ReportOf(InPhase(rows, phase), m).passed
  {
    hide ReportOf, EnoughIn;
    var selected := InPhase(rows, phase);
    forall measurement
      ensures EnoughIn(selected, measurement, MinimumFor(m, measurement))
    {
      forall key | Cell(selected, key) != []
        ensures EnoughIn(Cell(selected, key), measurement, MinimumFor(m, measurement))
      {
        PhaseCells(rows, phases, phase, key);
        PassedIff(Cell(selected, key), m);
      }
      EnoughOverall(selected, measurement, MinimumFor(m, measurement));
    }
    PassedIff(selected, m);
  }

  // The overall gate is equivalent to every cell passing with no required phase empty.
  lemma OverallIff(rows: seq<Row>, phases: seq<string>, m: Minimums)
    requires ValidPhases(phases)
    ensures Passes(rows, m, phases) <==>
            CellsPass(InPhases(rows, phases), m) && forall p :: p in phases ==> InPhase(rows, p) != []
  {
    hide ReportOf;
    if CellsPass(InPhases(rows, phases), m) && forall p :: p in phases ==> InPhase(rows, p) != [] {
      forall p | p in phases
        ensures ReportOf(InPhase(rows, p), m).passed
      {
        CellsMakePhase(rows, phases, p, m);
      }
      assert phases[0] in phases;
      SomeRow(rows, phases, phases[0]);
    }
    if PhasesPass(rows, phases, m) {
      forall p | p in phases
        ensures InPhase(rows, p) != []
      {
        PassedIff(InPhase(rows, p), m);
      }
    }
  }

  lemma {:induction false} SomeRow(rows: seq<Row>, phases: seq<string>, phase: string)
    requires phase in phases && InPhase(rows, phase) != []
    ensures InPhases(rows, phases) != []
  {
    if PhaseOf(rows[|rows| - 1]) != phase {
      SomeRow(rows[..|rows| - 1], phases, phase);
    }
  }
}
