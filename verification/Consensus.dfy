// Exact two-route consensus over every final outcome, with its counts and its gate.
module Consensus {
  import opened Numbers
  import opened Options
  import opened Sums

  datatype Status = Known | Unknown

  // The primary route's final: a validity flag that may be absent, and an estimate that may be missing.
  datatype Row = Row(id: string, valid: Option<bool>, estimate: Option<int>, caseHash: Option<string>)

  datatype Record = Record(id: string, status: Status, value: Option<int>, caseHash: string)

  // A record that its strict response supports carries a value exactly when it is known.
  predicate ValidRecord(r: Record) {
    r.status.Known? <==> r.value.Some?
  }

  datatype Final = Final(status: Status, value: Option<int>)

  datatype ConsensusError =
    | BadMinimum | DuplicateRow | DuplicateRecord | UnexpectedRecord | BadValidity | OtherCase | GateFailed

  // _primary_final
  function PrimaryFinal(r: Row): Result<Final, ConsensusError> {
    var valid := if r.valid.None? then r.estimate.Some? else r.valid.value;
    if valid != r.estimate.Some? then Err(BadValidity)
    else Ok(if valid then Final(Known, r.estimate) else Final(Unknown, None))
  }

  datatype Reason = Missing | IndependentUnknown | PrimaryUnknown | Disagreement

  datatype Verdict = Verdict(exact: bool, known: bool, reason: Option<Reason>)

  // _consensus_reason
  function Judge(primary: Final, independent: Option<Record>): Verdict {
    match independent
    case None => Verdict(false, false, Some(Missing))
    case Some(r) =>
      var exact := primary.status == r.status && primary.value == r.value;
      if exact && r.status.Known? then Verdict(true, true, None)
      else if r.status.Unknown? then Verdict(exact, false, Some(IndependentUnknown))
      else if primary.status.Unknown? then Verdict(exact, false, Some(PrimaryUnknown))
      else Verdict(exact, false, Some(Disagreement))
  }

  function Find(records: seq<Record>, id: string): Option<Record> {
    if |records| == 0 then None
    else if records[|records| - 1].id == id then Some(records[|records| - 1])
    else Find(records[..|records| - 1], id)
  }

  // A row after consensus: its outcome, or its explicit absence.
  datatype Outcome = Outcome(id: string, estimate: Option<int>, verdict: Verdict)

  function OutcomeOf(r: Row, records: seq<Record>): Result<Outcome, ConsensusError> {
    var primary, record := PrimaryFinal(r), Find(records, r.id);
    if primary.Err? then Err(primary.error)
    else if record.Some? && r.caseHash.Some? && record.value.caseHash != r.caseHash.value then Err(OtherCase)
    else
      var v := Judge(primary.value, record);
      Ok(Outcome(r.id, if v.known then primary.value.value else None, v))
  }

  function Outcomes(rows: seq<Row>, records: seq<Record>): Result<seq<Outcome>, ConsensusError> {
    if |rows| == 0 then Ok([])
    else
      var front := Outcomes(rows[..|rows| - 1], records);
      if front.Err? then front
      else
        var last := OutcomeOf(rows[|rows| - 1], records);
        if last.Err? then Err(last.error) else Ok(front.value + [last.value])
  }

  datatype Tally = Tally(exact: nat, known: nat, missing: nat, independentUnknown: nat, disagreements: nat)

  function Counted(t: Tally, v: Verdict, record: Option<Record>): Tally {
    Tally(t.exact + Ind(v.exact), t.known + Ind(v.known), t.missing + Ind(record.None?),
          t.independentUnknown + Ind(record.Some? && record.value.status.Unknown?),
          t.disagreements + Ind(record.Some? && !v.exact))
  }

  function TallyOf(outcomes: seq<Outcome>, records: seq<Record>): Tally {
    if |outcomes| == 0 then Tally(0, 0, 0, 0, 0)
    else
      var last := outcomes[|outcomes| - 1];
      Counted(TallyOf(outcomes[..|outcomes| - 1], records), last.verdict, Find(records, last.id))
  }

  predicate DistinctRows(rows: seq<Row>) {
    forall i, j :: 0 <= i < j < |rows| ==> rows[i].id != rows[j].id
  }

  predicate DistinctRecords(records: seq<Record>) {
    forall i, j :: 0 <= i < j < |records| ==> records[i].id != records[j].id
  }

  predicate Expected(records: seq<Record>, rows: seq<Row>) {
    forall j :: 0 <= j < |records| ==> exists i :: 0 <= i < |rows| && rows[i].id == records[j].id
  }

  predicate Passes(k: nat, n: nat, minimum: real) {
    n > 0 && Rate(k, n) >= minimum
  }

  datatype Batch = Batch(outcomes: seq<Outcome>, tally: Tally, expected: nat, independent: nat, gatePassed: bool)

  function Consensus(rows: seq<Row>, records: seq<Record>, minimum: real,
                     enforce: bool): Result<Batch, ConsensusError> {
    if !(0.0 <= minimum <= 1.0) then Err(BadMinimum)
    else if !DistinctRows(rows) then Err(DuplicateRow)
    else if !DistinctRecords(records) then Err(DuplicateRecord)
    else if !Expected(records, rows) then Err(UnexpectedRecord)
    else
      var outcomes := Outcomes(rows, records);
      if outcomes.Err? then Err(outcomes.error)
      else
        var tally := TallyOf(outcomes.value, records);
        var passed := Passes(tally.exact, |rows|, minimum);
        if enforce && !passed then Err(GateFailed) else Ok(Batch(outcomes.value, tally, |rows|, |records|, passed))
  }

  // apply_all_final_consensus
  method ApplyAllFinalConsensus(rows: seq<Row>, records: seq<Record>, minimum: real, enforce: bool)
    returns (result: Result<Batch, ConsensusError>)
    ensures result == Consensus(rows, records, minimum, enforce)
  {
    hide OutcomeOf, Find, DistinctRows, DistinctRecords, Expected, Passes, Outcomes, TallyOf;
    if !(0.0 <= minimum <= 1.0) {
      return Err(BadMinimum);
    }
    if !DistinctRows(rows) {
      return Err(DuplicateRow);
    }
    if !DistinctRecords(records) {
      return Err(DuplicateRecord);
    }
    if !Expected(records, rows) {
      return Err(UnexpectedRecord);
    }
    var outcomes: seq<Outcome> := [];
    var exact: nat, known: nat, missing: nat, unknown: nat, disagreements: nat := 0, 0, 0, 0, 0;
    var i := 0;
    NothingTallied(rows, records);
    while i < |rows|
      invariant i <= |rows| && Outcomes(rows[..i], records) == Ok(outcomes)
      invariant TallyOf(outcomes, records) == Tally(exact, known, missing, unknown, disagreements)
    {
      OutcomesStep(rows, records, i);
      var outcome := OutcomeOf(rows[i], records);
      if outcome.Err? {
        StaysErr(rows, records, i + 1);
        return Err(outcome.error);
      }
      SameId(rows[i], records);
      var v, record := outcome.value.verdict, Find(records, rows[i].id);
      TallyStep(outcomes, outcome.value, records);
      exact := exact + Ind(v.exact);
      known := known + Ind(v.known);
      missing := missing + Ind(record.None?);
      unknown := unknown + Ind(record.Some? && record.value.status.Unknown?);
      disagreements := disagreements + Ind(record.Some? && !v.exact);
      outcomes := outcomes + [outcome.value];
      i := i + 1;
    }
    assert rows[..|rows|] == rows;
    var passed := Passes(exact, |rows|, minimum);
    if enforce && !passed {
      return Err(GateFailed);
    }
    return Ok(Batch(outcomes, Tally(exact, known, missing, unknown, disagreements), |rows|, |records|, passed));
  }

  lemma NothingTallied(rows: seq<Row>, records: seq<Record>)
    ensures Outcomes(rows[..0], records) == Ok([]) && TallyOf([], records) == Tally(0, 0, 0, 0, 0)
  {
  }

  lemma OutcomesStep(rows: seq<Row>, records: seq<Record>, i: nat)
    requires i < |rows| && Outcomes(rows[..i], records).Ok?
    ensures var last := OutcomeOf(rows[i], records);
            Outcomes(rows[..i + 1], records) ==
            if last.Err? then Err(last.error) else Ok(Outcomes(rows[..i], records).value + [last.value])
  {
    hide OutcomeOf;
    assert rows[..i + 1][..i] == rows[..i];
  }

  lemma TallyStep(outcomes: seq<Outcome>, o: Outcome, records: seq<Record>)
    ensures TallyOf(outcomes + [o], records) == Counted(TallyOf(outcomes, records), o.verdict, Find(records, o.id))
  {
    hide Counted, Find;
    assert (outcomes + [o])[..|outcomes|] == outcomes;
  }

  lemma SameId(r: Row, records: seq<Record>)
    requires OutcomeOf(r, records).Ok?
    ensures OutcomeOf(r, records).value.id == r.id
  {
  }

  lemma {:induction false} StaysErr(rows: seq<Row>, records: seq<Record>, k: nat)
    requires k <= |rows| && Outcomes(rows[..k], records).Err?
    ensures Outcomes(rows, records) == Outcomes(rows[..k], records)
    decreases |rows|
  {
    hide OutcomeOf;
    if k < |rows| {
      assert rows[..|rows| - 1][..k] == rows[..k];
      StaysErr(rows[..|rows| - 1], records, k);
    } else {
      assert rows[..k] == rows;
    }
  }

  // --- What the outcomes mean ---

  lemma {:induction false} FindIs(records: seq<Record>, id: string)
    ensures var r := Find(records, id);
            && (r.None? <==> forall j :: 0 <= j < |records| ==> records[j].id != id)
            && (r.Some? ==> r.value in records && r.value.id == id)
  {
    if |records| > 0 {
      FindIs(records[..|records| - 1], id);
    }
  }

  lemma {:induction false} OutcomeAt(rows: seq<Row>, records: seq<Record>, i: nat)
    requires Outcomes(rows, records).Ok? && i < |rows|
    ensures |Outcomes(rows, records).value| == |rows|
    ensures OutcomeOf(rows[i], records) == Ok(Outcomes(rows, records).value[i])
  {
    hide OutcomeOf;
    OutcomesLength(rows, records);
    OutcomesLength(rows[..|rows| - 1], records);
    if i < |rows| - 1 {
      OutcomeAt(rows[..|rows| - 1], records, i);
    }
  }

  lemma {:induction false} OutcomesLength(rows: seq<Row>, records: seq<Record>)
    requires Outcomes(rows, records).Ok?
    ensures |Outcomes(rows, records).value| == |rows|
  {
    hide OutcomeOf;
    if |rows| > 0 {
      OutcomesLength(rows[..|rows| - 1], records);
    }
  }

  // An outcome is usable exactly when both routes know it and agree on the value, and then it is that value; nothing
  // is filled in.
  lemma UsableIff(rows: seq<Row>, records: seq<Record>, minimum: real, enforce: bool, i: nat)
    requires Consensus(rows, records, minimum, enforce).Ok? && i < |rows|
    requires forall j :: 0 <= j < |records| ==> ValidRecord(records[j])
    ensures var o := Consensus(rows, records, minimum, enforce).value.outcomes;
            && |o| == |rows| && o[i].id == rows[i].id
            && (o[i].estimate.Some? <==>
                exists r :: r in records && r.id == rows[i].id && r.value.Some? && r.value == rows[i].estimate)
            && (o[i].estimate.Some? ==> o[i].estimate == rows[i].estimate)
            && (o[i].estimate.Some? <==> o[i].verdict.reason.None?)
  {
    hide Outcomes, TallyOf, Passes, Find;
    OutcomeAt(rows, records, i);
    FindIs(records, rows[i].id);
    forall r | r in records && r.id == rows[i].id
      ensures Find(records, rows[i].id) == Some(r)
    {
      var j :| 0 <= j < |records| && records[j] == r;
      var k :| 0 <= k < |records| && records[k] == Find(records, rows[i].id).value;
      assert j == k;
    }
  }

  // --- Counting ---

  lemma {:induction false} TallyPartition(rows: seq<Row>, records: seq<Record>)
    requires Outcomes(rows, records).Ok?
    ensures var t := TallyOf(Outcomes(rows, records).value, records);
            && t.exact + t.missing + t.disagreements == |rows|
            && t.known <= t.exact <= t.known + t.independentUnknown
  {
    hide Find;
    if |rows| > 0 {
      var front, last := rows[..|rows| - 1], rows[|rows| - 1];
      TallyPartition(front, records);
      var o := Outcomes(rows, records).value;
      assert o[..|o| - 1] == Outcomes(front, records).value;
      assert o[|o| - 1] == OutcomeOf(last, records).value;
      SameId(last, records);
    }
  }

  // How many rows have a record.
  function Covered(rows: seq<Row>, records: seq<Record>): nat {
    if |rows| == 0 then 0 else Covered(rows[..|rows| - 1], records) + Ind(Find(records, rows[|rows| - 1].id).Some?)
  }

  lemma NoOutcomes(records: seq<Record>)
    ensures Outcomes([], records) == Ok([])
  {
  }

  lemma LastOutcome(rows: seq<Row>, records: seq<Record>)
    requires |rows| > 0 && Outcomes(rows, records).Ok?
    ensures Outcomes(rows[..|rows| - 1], records).Ok?
    ensures var o := Outcomes(rows, records).value;
            |o| > 0 && o[..|o| - 1] == Outcomes(rows[..|rows| - 1], records).value
            && o[|o| - 1].id == rows[|rows| - 1].id
  {
    hide OutcomeOf;
    SameId(rows[|rows| - 1], records);
  }

  lemma {:induction false} MissingIsUncovered(rows: seq<Row>, records: seq<Record>)
    requires Outcomes(rows, records).Ok?
    ensures TallyOf(Outcomes(rows, records).value, records).missing + Covered(rows, records) == |rows|
  {
    hide Find, OutcomeOf, Outcomes;
    if |rows| == 0 {
      NoOutcomes(records);
    } else {
      LastOutcome(rows, records);
      MissingIsUncovered(rows[..|rows| - 1], records);
    }
  }

  ghost predicate Named(rows: seq<Row>, id: string) {
    exists i :: 0 <= i < |rows| && rows[i].id == id
  }

  lemma NamedLast(rows: seq<Row>, id: string)
    requires |rows| > 0
    ensures Named(rows, id) <==> Named(rows[..|rows| - 1], id) || rows[|rows| - 1].id == id
  {
    var front := rows[..|rows| - 1];
    if i :| 0 <= i < |front| && front[i].id == id {
      assert rows[i].id == id;
    }
    if i :| 0 <= i < |front| && rows[i].id == id {
      assert front[i].id == id;
    }
  }

  lemma LastRowAlone(rows: seq<Row>)
    requires |rows| > 0 && DistinctRows(rows)
    ensures DistinctRows(rows[..|rows| - 1]) && !Named(rows[..|rows| - 1], rows[|rows| - 1].id)
  {
  }

  lemma FindAppended(records: seq<Record>, last: Record, id: string)
    ensures Find(records + [last], id) == if last.id == id then Some(last) else Find(records, id)
  {
    assert (records + [last])[..|records|] == records;
  }

  lemma {:induction false} CoveredWithout(rows: seq<Row>, records: seq<Record>, last: Record)
    requires DistinctRows(rows) && Find(records, last.id).None?
    ensures Covered(rows, records + [last]) == Covered(rows, records) + Ind(Named(rows, last.id))
  {
    hide Find, DistinctRows;
    if |rows| == 0 {
    } else {
      hide Named;
      var front, r := rows[..|rows| - 1], rows[|rows| - 1];
      LastRowAlone(rows);
      NamedLast(rows, last.id);
      FindAppended(records, last, r.id);
      CoveredWithout(front, records, last);
    }
  }

  lemma {:induction false} NothingCovered(rows: seq<Row>)
    ensures Covered(rows, []) == 0
  {
    if |rows| > 0 {
      NothingCovered(rows[..|rows| - 1]);
    }
  }

  // Distinct records for known rows are as many as the rows they cover.
  lemma {:induction false} RecordsCover(rows: seq<Row>, records: seq<Record>)
    requires DistinctRows(rows) && DistinctRecords(records) && Expected(records, rows)
    ensures Covered(rows, records) == |records|
  {
    hide Covered, Find;
    if |records| == 0 {
      NothingCovered(rows);
    } else {
      var front, last := records[..|records| - 1], records[|records| - 1];
      RecordsCover(rows, front);
      FindIs(front, last.id);
      CoveredWithout(rows, front, last);
      assert front + [last] == records;
      assert Named(rows, last.id);
    }
  }

  // The counts of a batch: every row is an exact agreement, a disagreement or missing, the records number the rows
  // that are not missing, and every known consensus is an exact agreement.
  lemma CountsPartition(rows: seq<Row>, records: seq<Record>, minimum: real, enforce: bool)
    requires Consensus(rows, records, minimum, enforce).Ok?
    ensures var b := Consensus(rows, records, minimum, enforce).value;
            && b.tally.exact + b.tally.missing + b.tally.disagreements == b.expected == |rows|
            && b.independent == b.expected - b.tally.missing
            && b.tally.known <= b.tally.exact <= b.tally.known + b.tally.independentUnknown
  {
    hide Outcomes, TallyOf, Covered;
    TallyPartition(rows, records);
    MissingIsUncovered(rows, records);
    RecordsCover(rows, records);
  }

  // --- Two phases together ---

  // _global_consensus_summary: the agreement counts and totals of both phases, and the gate on their sums.
  predicate GlobalPasses(exact1: nat, n1: nat, exact2: nat, n2: nat, minimum: real) {
    Passes(exact1 + exact2, n1 + n2, minimum)
  }

  // The pooled gate follows from both phases' gates, and cannot pass when both phases fail on non-empty totals.
  lemma PooledGate(exact1: nat, n1: nat, exact2: nat, n2: nat, minimum: real)
    ensures Passes(exact1, n1, minimum) && Passes(exact2, n2, minimum) ==> GlobalPasses(exact1, n1, exact2, n2, minimum)
    ensures n1 > 0 && n2 > 0 && GlobalPasses(exact1, n1, exact2, n2, minimum) ==>
              Passes(exact1, n1, minimum) || Passes(exact2, n2, minimum)
  {
    hide Rate;
    if n1 > 0 && n2 > 0 {
      RateReaches(exact1, n1, minimum);
      RateReaches(exact2, n2, minimum);
      RateReaches(exact1 + exact2, n1 + n2, minimum);
      assert minimum * (n1 + n2) as real == minimum * n1 as real + minimum * n2 as real;
    }
  }
}
