// What the reports of the quality gates say of the fields of the rows.
module QualityMeaning {
  import opened Numbers
  import opened Options
  import opened Sums
  import opened Q = QualityGates

  // --- A row ---

  // The consensus row has the usable value v.
  ghost predicate HasFinal(r: Row, v: int) {
    r.consensusValid == Some(true) && r.consensusExact != None && r.finalValid && r.finalEstimate == Some(v)
  }

  ghost predicate Has(m: Measurement, r: Row) {
    match m
    case Marked => r.consensusValid != None && r.consensusExact != None
    case Exact => r.consensusExact == Some(true)
    case FinalKnown => exists v :: HasFinal(r, v)
    case Consistent =>
      && r.trajectoryValid && |r.trajectoryValues| > 0
      && HasFinal(r, r.trajectoryValues[|r.trajectoryValues| - 1])
  }

  // Every row but a baseline one is of the treatment phase.
  ghost predicate OfPhase(r: Row, phase: string) {
    (phase == "baseline" && r.condition == "baseline") || (phase == "treatment" && r.condition != "baseline")
  }

  ghost predicate OfPhases(r: Row, phases: seq<string>) {
    exists i :: 0 <= i < |phases| && OfPhase(r, phases[i])
  }

  ghost predicate OfCell(r: Row, key: Key) {
    r.task == key.task && r.condition == key.condition
  }

  lemma HoldsIs(m: Measurement, r: Row)
    ensures Holds(m, r) <==> Has(m, r)
  {
    if m.FinalKnown? && Holds(m, r) {
      assert HasFinal(r, r.finalEstimate.value);
    }
  }

  lemma PhaseIs(r: Row, phases: seq<string>)
    ensures forall phase :: PhaseOf(r) == phase <==> OfPhase(r, phase)
    ensures PhaseOf(r) in phases <==> OfPhases(r, phases)
  {
    forall phase: string
      ensures PhaseOf(r) == phase <==> OfPhase(r, phase)
    {
      assert "baseline"[0] != "treatment"[0];
    }
    if PhaseOf(r) in phases {
      var i :| 0 <= i < |phases| && phases[i] == PhaseOf(r);
      assert OfPhase(r, phases[i]);
    }
  }

  // --- A report ---

  ghost function Both(chosen: Row -> bool, m: Measurement): Row -> bool {
    (r: Row) => chosen(r) && Has(m, r)
  }

  // The report counts, among the chosen rows, those with each measurement; it passes when there is a chosen row, all of
  // them are marked, and each other measurement reaches its minimum share.
  ghost predicate Reports(report: Report, rows: seq<Row>, chosen: Row -> bool, m: Minimums) {
    && report.total == Number(rows, chosen)
    && report.marked == Number(rows, Both(chosen, Marked)) && report.exact == Number(rows, Both(chosen, Exact))
    && report.known == Number(rows, Both(chosen, FinalKnown))
    && report.consistent == Number(rows, Both(chosen, Consistent))
    && (report.passed <==>
        && report.total > 0 && report.marked == report.total
        && report.exact as real >= m.exact * report.total as real
        && report.known as real >= m.known * report.total as real
        && report.consistent as real >= m.consistent * report.total as real)
  }

  // sel holds the chosen rows.
  ghost predicate Selects(sel: seq<Row>, rows: seq<Row>, chosen: Row -> bool) {
    && |sel| == Number(rows, chosen)
    && forall m :: Q.Count(sel, m) == Number(rows, Both(chosen, m))
  }

  lemma SelectsReported(sel: seq<Row>, rows: seq<Row>, chosen: Row -> bool, m: Minimums)
    requires Selects(sel, rows, chosen)
    ensures Reports(ReportOf(sel, m), rows, chosen, m)
  {
    hide Number, Q.Count, Rate, Both;
    if |sel| > 0 {
      RateReaches(Q.Count(sel, Exact), |sel|, m.exact);
      RateReaches(Q.Count(sel, FinalKnown), |sel|, m.known);
      RateReaches(Q.Count(sel, Consistent), |sel|, m.consistent);
    }
  }

  lemma NothingSelected(chosen: Row -> bool)
    ensures Selects([], [], chosen)
  {
    NumberIs([], chosen, {});
    forall m
      ensures Q.Count([], m) == Number([], Both(chosen, m))
    {
      NumberIs([], Both(chosen, m), {});
    }
  }

  lemma SelectsNext(sel: seq<Row>, rows: seq<Row>, chosen: Row -> bool, r: Row)
    requires Selects(sel, rows, chosen)
    ensures Selects(if chosen(r) then sel + [r] else sel, rows + [r], chosen)
  {
    hide Holds, Has;
    var more := rows + [r];
    assert more[..|more| - 1] == rows;
    NumberLast(more, chosen);
    forall m
      ensures Q.Count(if chosen(r) then sel + [r] else sel, m) == Number(more, Both(chosen, m))
    {
      NumberLast(more, Both(chosen, m));
      HoldsIs(m, r);
      CountAppend(sel, r, m);
    }
  }

  ghost function InPhaseOnly(phase: string): Row -> bool {
    (r: Row) => OfPhase(r, phase)
  }

  ghost function InCell(phases: seq<string>, key: Key): Row -> bool {
    (r: Row) => OfPhases(r, phases) && OfCell(r, key)
  }

  lemma {:induction false} PhaseSelects(rows: seq<Row>, phase: string)
    ensures Selects(InPhase(rows, phase), rows, InPhaseOnly(phase))
  {
    if |rows| == 0 {
      NothingSelected(InPhaseOnly(phase));
    } else {
      hide Selects, PhaseOf, OfPhase, InPhase;
      var front, last := rows[..|rows| - 1], rows[|rows| - 1];
      PhaseSelects(front, phase);
      SelectsNext(InPhase(front, phase), front, InPhaseOnly(phase), last);
      PhaseIs(last, [phase]);
      InPhaseStep(front, phase, last);
      assert rows == front + [last];
    }
  }

  lemma {:induction false} CellSelects(rows: seq<Row>, phases: seq<string>, key: Key)
    ensures Selects(Cell(InPhases(rows, phases), key), rows, InCell(phases, key))
  {
    if |rows| == 0 {
      NothingSelected(InCell(phases, key));
    } else {
      hide Selects, PhaseOf, OfPhase, OfPhases, Cell, InPhases;
      var front, last := rows[..|rows| - 1], rows[|rows| - 1];
      CellSelects(front, phases, key);
      SelectsNext(Cell(InPhases(front, phases), key), front, InCell(phases, key), last);
      PhaseIs(last, phases);
      assert rows == front + [last];
      InPhasesStep(front, phases, last);
      CellAppended(InPhases(front, phases), last, key);
    }
  }

  // --- The evaluation ---

  // One report for each required phase, over the rows of that phase.
  lemma PhaseReportsAre(rows: seq<Row>, phases: seq<string>, m: Minimums, i: nat)
    requires i < |phases|
    ensures Reports(PhaseReports(rows, phases, m)[i], rows, InPhaseOnly(phases[i]), m)
  {
    hide Reports;
    PhaseSelects(rows, phases[i]);
    SelectsReported(InPhase(rows, phases[i]), rows, InPhaseOnly(phases[i]), m);
  }

  // One report for each task and condition that a row of a required phase names, over the rows that name them.
  lemma CellReportsAre(rows: seq<Row>, phases: seq<string>, m: Minimums, reports: map<Key, Report>, key: Key)
    requires CellReports(InPhases(rows, phases), m, reports)
    ensures key in reports <==> exists i :: 0 <= i < |rows| && InCell(phases, key)(rows[i])
    ensures key in reports ==> Reports(reports[key], rows, InCell(phases, key), m)
  {
    hide Reports, InCell, Cell;
    CellSelects(rows, phases, key);
    SelectsReported(Cell(InPhases(rows, phases), key), rows, InCell(phases, key), m);
    NumberPositive(rows, InCell(phases, key));
  }

  lemma {:induction false} SelectedRow(rows: seq<Row>, phases: seq<string>, r: Row)
    ensures r in InPhases(rows, phases) <==> r in rows && OfPhases(r, phases)
  {
    hide PhaseOf, OfPhases;
    if |rows| > 0 {
      SelectedRow(rows[..|rows| - 1], phases, r);
      PhaseIs(rows[|rows| - 1], phases);
    }
  }

  // The evaluation refuses a row of a required phase that lacks a task or a condition, and no other.
  lemma UnnamedIs(rows: seq<Row>, phases: seq<string>)
    ensures Named(InPhases(rows, phases)) <==>
            forall r :: r in rows && OfPhases(r, phases) ==> r.task != "" && r.condition != ""
  {
    hide InPhases, OfPhases;
    var sel := InPhases(rows, phases);
    forall r: Row
      ensures r in sel <==> r in rows && OfPhases(r, phases)
    {
      SelectedRow(rows, phases, r);
    }
    if forall r :: r in rows && OfPhases(r, phases) ==> r.task != "" && r.condition != "" {
      forall i | 0 <= i < |sel|
        ensures sel[i].task != "" && sel[i].condition != ""
      {
        assert sel[i] in sel;
      }
    }
  }

  // The verdict: every required phase passes and has rows, and so does every cell.
  lemma VerdictIs(rows: seq<Row>, phases: seq<string>, m: Minimums, reports: map<Key, Report>)
    requires ValidPhases(phases) && CellReports(InPhases(rows, phases), m, reports)
    ensures Passes(rows, m, phases) <==>
            && (forall i :: 0 <= i < |phases| ==> PhaseReports(rows, phases, m)[i].passed)
            && (forall key :: key in reports ==> reports[key].passed)
  {
    hide ReportOf, InPhase, InPhases, Cell;
    var r := PhaseReports(rows, phases, m);
    OverallIff(rows, phases, m);
    forall p | p in phases
      ensures ReportOf(InPhase(rows, p), m).passed ==> InPhase(rows, p) != []
    {
      PassedIff(InPhase(rows, p), m);
    }
    if forall i :: 0 <= i < |phases| ==> r[i].passed {
      forall p | p in phases
        ensures ReportOf(InPhase(rows, p), m).passed
      {
        var i :| 0 <= i < |phases| && phases[i] == p;
        assert r[i].passed;
      }
    }
    if Passes(rows, m, phases) {
      forall i | 0 <= i < |phases|
        ensures r[i].passed
      {
        assert phases[i] in phases;
      }
    }
  }
}
