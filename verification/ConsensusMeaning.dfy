// What the consensus counts, reasons and refusals say of the rows and the records.
module ConsensusMeaning {
  import opened Numbers
  import opened Options
  import opened Sums
  import opened C = Consensus

  // --- One row ---

  ghost predicate RecordOf(records: seq<Record>, id: string, r: Record) {
    r in records && r.id == id
  }

  // The record read the same as the row: the same value, or neither knows one.
  ghost predicate SameReading(row: Row, r: Record) {
    if row.estimate == None then r.status == Unknown && r.value == None
    else r.status == Known && r.value == row.estimate
  }

  ghost function Agreeing(records: seq<Record>): Row -> bool {
    (row: Row) => exists r :: RecordOf(records, row.id, r) && SameReading(row, r)
  }

  ghost function AgreeingKnown(records: seq<Record>): Row -> bool {
    (row: Row) => row.estimate != None && exists r :: RecordOf(records, row.id, r) && SameReading(row, r)
  }

  ghost function Unmatched(records: seq<Record>): Row -> bool {
    (row: Row) => forall r :: r in records ==> r.id != row.id
  }

  ghost function RecordUnknown(records: seq<Record>): Row -> bool {
    (row: Row) => exists r :: RecordOf(records, row.id, r) && r.status == Unknown
  }

  ghost function Differing(records: seq<Record>): Row -> bool {
    (row: Row) => exists r :: RecordOf(records, row.id, r) && !SameReading(row, r)
  }

  // The row's validity flag contradicts its estimate.
  ghost predicate Contradictory(row: Row) {
    (row.valid == Some(true) && row.estimate == None) || (row.valid == Some(false) && row.estimate != None)
  }

  // The row names a case, and its record is of another one.
  ghost predicate OfOtherCase(row: Row, records: seq<Record>) {
    row.caseHash != None && exists r :: RecordOf(records, row.id, r) && row.caseHash != Some(r.caseHash)
  }

  lemma FoundIs(records: seq<Record>, row: Row)
    requires DistinctRecords(records)
    ensures Find(records, row.id).None? <==> Unmatched(records)(row)
    ensures forall r :: RecordOf(records, row.id, r) <==> Find(records, row.id) == Some(r)
  {
    FindIs(records, row.id);
    forall r | RecordOf(records, row.id, r)
      ensures Find(records, row.id) == Some(r)
    {
      var j :| 0 <= j < |records| && records[j] == r;
      var k :| 0 <= k < |records| && records[k] == Find(records, row.id).value;
      assert j == k;
    }
  }

  lemma ValidityIs(row: Row)
    ensures PrimaryFinal(row) == if Contradictory(row) then Err(BadValidity)
                                 else Ok(Final(if row.estimate == None then Unknown else Known, row.estimate))
  {
    if row.valid.Some? {
      assert row.valid == if row.valid.value then Some(true) else Some(false);
    }
  }

  lemma RowOutcome(row: Row, records: seq<Record>)
    requires DistinctRecords(records)
    ensures OutcomeOf(row, records) == Err(BadValidity) <==> Contradictory(row)
    ensures OutcomeOf(row, records) == Err(OtherCase) <==> !Contradictory(row) && OfOtherCase(row, records)
    ensures OutcomeOf(row, records).Err? ==> OutcomeOf(row, records).error in {BadValidity, OtherCase}
    ensures OutcomeOf(row, records).Ok? ==>
              var v := OutcomeOf(row, records).value.verdict;
              && (v.exact <==> Agreeing(records)(row)) && (v.known <==> AgreeingKnown(records)(row))
              && (Find(records, row.id).None? <==> Unmatched(records)(row))
              && (Find(records, row.id).Some? && Find(records, row.id).value.status.Unknown? <==>
                  RecordUnknown(records)(row))
              && (Find(records, row.id).Some? && !v.exact <==> Differing(records)(row))
  {
    hide Find, DistinctRecords;
    FoundIs(records, row);
    ValidityIs(row);
    if Find(records, row.id).Some? {
      assert RecordOf(records, row.id, Find(records, row.id).value);
    }
  }

  // --- The reasons ---

  // Why an outcome is unusable: no record, an unknown record, an unknown row, or two known values that differ.
  lemma ReasonIs(rows: seq<Row>, records: seq<Record>, minimum: real, enforce: bool, i: nat)
    requires C.Consensus(rows, records, minimum, enforce).Ok? && i < |rows|
    requires forall j :: 0 <= j < |records| ==> ValidRecord(records[j])
    ensures |C.Consensus(rows, records, minimum, enforce).value.outcomes| == |rows|
    ensures var reason := C.Consensus(rows, records, minimum, enforce).value.outcomes[i].verdict.reason;
            && (reason == Some(Missing) <==> Unmatched(records)(rows[i]))
            && (reason == Some(IndependentUnknown) <==> RecordUnknown(records)(rows[i]))
            && (reason == Some(PrimaryUnknown) <==>
                rows[i].estimate == None && !Unmatched(records)(rows[i]) && !RecordUnknown(records)(rows[i]))
            && (reason == Some(Disagreement) <==>
                rows[i].estimate != None && Differing(records)(rows[i]) && !RecordUnknown(records)(rows[i]))
            && (reason == None <==> AgreeingKnown(records)(rows[i]))
  {
    hide Outcomes, TallyOf, Passes, Find, DistinctRows;
    OutcomeAt(rows, records, i);
    FoundIs(records, rows[i]);
    ValidityIs(rows[i]);
    var found := Find(records, rows[i].id);
    if found.Some? {
      assert RecordOf(records, rows[i].id, found.value);
      var j :| 0 <= j < |records| && records[j] == found.value;
      assert ValidRecord(records[j]);
    }
  }

  // --- The counts and the gate ---

  lemma {:induction false} TallyNumbers(rows: seq<Row>, records: seq<Record>)
    requires Outcomes(rows, records).Ok? && DistinctRecords(records)
    ensures var t := TallyOf(Outcomes(rows, records).value, records);
            && t.exact == Number(rows, Agreeing(records)) && t.known == Number(rows, AgreeingKnown(records))
            && t.missing == Number(rows, Unmatched(records))
            && t.independentUnknown == Number(rows, RecordUnknown(records))
            && t.disagreements == Number(rows, Differing(records))
  {
    hide OutcomeOf, Find, DistinctRecords, Agreeing, AgreeingKnown, Unmatched, RecordUnknown, Differing;
    if |rows| == 0 {
      NumberIs(rows, Agreeing(records), {});
      NumberIs(rows, AgreeingKnown(records), {});
      NumberIs(rows, Unmatched(records), {});
      NumberIs(rows, RecordUnknown(records), {});
      NumberIs(rows, Differing(records), {});
    } else {
      var front, last := rows[..|rows| - 1], rows[|rows| - 1];
      TallyNumbers(front, records);
      var o := Outcomes(rows, records).value;
      assert o[..|o| - 1] == Outcomes(front, records).value && o[|o| - 1] == OutcomeOf(last, records).value;
      SameId(last, records);
      RowOutcome(last, records);
      NumberLast(rows, Agreeing(records));
      NumberLast(rows, AgreeingKnown(records));
      NumberLast(rows, Unmatched(records));
      NumberLast(rows, RecordUnknown(records));
      NumberLast(rows, Differing(records));
    }
  }

  // The rows that agree reach the minimum share of all rows.
  ghost predicate Reaches(rows: seq<Row>, records: seq<Record>, minimum: real) {
    |rows| > 0 && Number(rows, Agreeing(records)) as real >= minimum * |rows| as real
  }

  lemma PassesIff(k: nat, n: nat, minimum: real)
    ensures Passes(k, n, minimum) <==> n > 0 && k as real >= minimum * n as real
  {
    if n > 0 {
      RateReaches(k, n, minimum);
    }
  }

  // The counters count rows, and the gate passes exactly when there is a row and the rows that agree reach the minimum
  // share of all rows.
  lemma CountsAre(rows: seq<Row>, records: seq<Record>, minimum: real, enforce: bool)
    requires C.Consensus(rows, records, minimum, enforce).Ok?
    ensures var b := C.Consensus(rows, records, minimum, enforce).value;
            && b.tally.exact == Number(rows, Agreeing(records))
            && b.tally.known == Number(rows, AgreeingKnown(records))
            && b.tally.missing == Number(rows, Unmatched(records))
            && b.tally.independentUnknown == Number(rows, RecordUnknown(records))
            && b.tally.disagreements == Number(rows, Differing(records))
            && b.expected == |rows| && b.independent == |records|
            && (b.gatePassed <==> Reaches(rows, records, minimum))
  {
    hide Outcomes, TallyOf, Passes, Number, Agreeing, AgreeingKnown, Unmatched, RecordUnknown, Differing;
    TallyNumbers(rows, records);
    PassesIff(Number(rows, Agreeing(records)), |rows|, minimum);
  }

  // --- The refusals ---

  ghost predicate RepeatedRow(rows: seq<Row>) {
    exists i, j :: 0 <= i < j < |rows| && rows[i].id == rows[j].id
  }

  ghost predicate RepeatedRecord(records: seq<Record>) {
    exists i, j :: 0 <= i < j < |records| && records[i].id == records[j].id
  }

  ghost predicate Stray(rows: seq<Row>, r: Record) {
    forall row :: row in rows ==> row.id != r.id
  }

  ghost predicate Faulty(row: Row, records: seq<Record>) {
    Contradictory(row) || OfOtherCase(row, records)
  }

  ghost predicate NoFault(rows: seq<Row>, records: seq<Record>) {
    forall i :: 0 <= i < |rows| ==> !Faulty(rows[i], records)
  }

  ghost predicate FirstFault(rows: seq<Row>, records: seq<Record>, i: int) {
    0 <= i < |rows| && Faulty(rows[i], records) && forall j :: 0 <= j < i ==> !Faulty(rows[j], records)
  }

  lemma {:induction false} OutcomesIff(rows: seq<Row>, records: seq<Record>)
    requires DistinctRecords(records)
    ensures Outcomes(rows, records).Ok? <==> NoFault(rows, records)
    ensures forall i :: FirstFault(rows, records, i) ==>
                          Outcomes(rows, records) == Err(if Contradictory(rows[i]) then BadValidity else OtherCase)
  {
    hide OutcomeOf, DistinctRecords, Contradictory, OfOtherCase;
    if |rows| > 0 {
      var front, n := rows[..|rows| - 1], |rows| - 1;
      OutcomesIff(front, records);
      RowOutcome(rows[n], records);
      assert NoFault(rows, records) <==> NoFault(front, records) && !Faulty(rows[n], records);
      forall i | FirstFault(rows, records, i)
        ensures Outcomes(rows, records) == Err(if Contradictory(rows[i]) then BadValidity else OtherCase)
      {
        if i < n {
          assert FirstFault(front, records, i);
        }
      }
    }
  }

  // Each refusal of the whole batch, in order; the enforced gate refuses last.
  lemma RefusedIff(rows: seq<Row>, records: seq<Record>, minimum: real, enforce: bool)
    ensures var o := C.Consensus(rows, records, minimum, enforce);
            if minimum < 0.0 || minimum > 1.0 then o == Err(BadMinimum)
            else if RepeatedRow(rows) then o == Err(DuplicateRow)
            else if RepeatedRecord(records) then o == Err(DuplicateRecord)
            else if exists r :: r in records && Stray(rows, r) then o == Err(UnexpectedRecord)
            else
              && (forall i :: FirstFault(rows, records, i) ==>
                                o == Err(if Contradictory(rows[i]) then BadValidity else OtherCase))
              && (NoFault(rows, records) ==> o == Err(GateFailed) || o.Ok?)
              && (NoFault(rows, records) ==>
                    (o == Err(GateFailed) <==> enforce && !Reaches(rows, records, minimum)))
  {
    hide Outcomes, TallyOf, Passes, NoFault, FirstFault, Stray, Number, Agreeing, Expected;
    if !RepeatedRecord(records) {
      assert DistinctRecords(records);
      OutcomesIff(rows, records);
      StrayIff(rows, records);
      if Outcomes(rows, records).Ok? {
        TallyNumbers(rows, records);
        PassesIff(Number(rows, Agreeing(records)), |rows|, minimum);
      }
    }
  }

  lemma StrayIff(rows: seq<Row>, records: seq<Record>)
    ensures Expected(records, rows) <==> !exists r :: r in records && Stray(rows, r)
  {
    if Expected(records, rows) {
      forall r | r in records
        ensures !Stray(rows, r)
      {
        var j :| 0 <= j < |records| && records[j] == r;
        var i :| 0 <= i < |rows| && rows[i].id == records[j].id;
        assert rows[i] in rows;
      }
    }
    if forall r :: r in records ==> !Stray(rows, r) {
      forall j | 0 <= j < |records|
        ensures exists i :: 0 <= i < |rows| && rows[i].id == records[j].id
      {
        assert !Stray(rows, records[j]);
        var row :| row in rows && row.id == records[j].id;
        var i :| 0 <= i < |rows| && rows[i] == row;
      }
    }
  }
}
