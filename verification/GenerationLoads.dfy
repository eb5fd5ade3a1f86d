// Which checkpoints the generation phase accepts, row by row, and what its manifest says of the stored rows.
module GenerationLoads {
  import opened Options
  import opened GenerationPhase
  import opened GenerationRuns
  import opened GenerationAnswers

  // --- Batches ---

  // A stored row of request j of batch i, from a backend with the expected provenance.
  ghost predicate Genuine(ctx: Context, s: Setup, i: nat, j: nat, r: Request, row: Row) {
    && Labelled(ctx, s, i, j, r, row.body.backend, row)
    && forall key :: key in s.expected ==> key in row.body.backend && row.body.backend[key] == s.expected[key]
  }

  ghost predicate GenuineBatch(ctx: Context, s: Setup, i: nat, rows: seq<Row>) {
    exists requests: seq<Request> ::
      && RequestsOf(s, i, requests) && |rows| == |requests|
      && forall j: nat :: j < |rows| ==> Genuine(ctx, s, i, j, requests[j], rows[j])
  }

  lemma GenuineIff(ctx: Context, s: Setup, i: nat, rows: seq<Row>)
    requires s.batchSize > 0
    ensures ValidBatch(ctx, s, i, rows) <==> GenuineBatch(ctx, s, i, rows)
  {
    hide BatchRequests, RequestsOf;
    BatchRequestsAre(s, i);
    var requests := BatchRequests(s, i);
    if ValidBatch(ctx, s, i, rows) {
      forall j: nat | j < |rows|
        ensures Genuine(ctx, s, i, j, requests[j], rows[j])
      {
        assert ValidRow(ctx, s, i, j, rows[j]);
      }
    }
    if GenuineBatch(ctx, s, i, rows) {
      var own: seq<Request> :| RequestsOf(s, i, own) && |rows| == |own|
                               && forall j: nat :: j < |rows| ==> Genuine(ctx, s, i, j, own[j], rows[j]);
      RequestsUnique(s, i, own);
      forall j | 0 <= j < |rows|
        ensures rows[j].body.runId == requests[j].id && ValidRow(ctx, s, i, j, rows[j])
      {
        assert Genuine(ctx, s, i, j, own[j], rows[j]);
      }
    }
  }

  // The number of batches: the requests fill all but the last one.
  lemma CountIs(s: Setup)
    requires s.batchSize > 0
    ensures (Count(s) - 1) * s.batchSize < |s.requests| <= Count(s) * s.batchSize
            || (|s.requests| == 0 && Count(s) == 0)
  {
    var n, b := |s.requests|, s.batchSize;
    assert n + b - 1 == b * ((n + b - 1) / b) + (n + b - 1) % b;
    assert (Count(s) - 1) * b == Count(s) * b - b;
    if n == 0 {
      assert (b - 1) / b == 0;
    }
  }

  // --- Loading a checkpoint ---

  // The batches below m are stored and genuine, and no other of the phase is stored.
  ghost predicate LoadsTo(ctx: Context, s: Setup, batches: map<nat, seq<Row>>, m: nat)
    requires s.batchSize > 0
  {
    && m <= Count(s) && (forall i: nat :: i < Count(s) ==> (i in batches <==> i < m))
    && forall i: nat :: i < m ==> i in batches && GenuineBatch(ctx, s, i, batches[i])
  }

  // What an accepted scan says of the batches from index on.
  lemma {:induction false} ScanSays(ctx: Context, s: Setup, batches: map<nat, seq<Row>>, index: nat,
                                    missing: Option<nat>)
    requires s.batchSize > 0 && Scan(ctx, s, batches, index, missing).Ok? && index <= Count(s)
    ensures var m := Scan(ctx, s, batches, index, missing).value.firstMissing;
            if missing.Some? then m == missing.value && forall i: nat :: index <= i < Count(s) ==> i !in batches
            else
              && index <= m <= Count(s) && (forall i: nat :: index <= i < Count(s) ==> (i in batches <==> i < m))
              && forall i: nat :: index <= i < m ==> ValidBatch(ctx, s, i, batches[i])
    decreases Count(s) - index
  {
    hide ValidBatch, UniqueRuns, Count;
    if index < Count(s) {
      ScanSays(ctx, s, batches, index + 1,
               if index in batches then None else if missing.None? then Some(index) else missing);
    }
  }

  // And such batches are accepted.
  lemma {:induction false} ScanAccepts(ctx: Context, s: Setup, batches: map<nat, seq<Row>>, index: nat,
                                       missing: Option<nat>, m: nat)
    requires s.batchSize > 0 && DistinctRequests(s.requests) && m <= Count(s)
    requires forall i: nat :: i < Count(s) ==> (i in batches <==> i < m)
    requires forall i: nat :: i < m ==> i in batches && ValidBatch(ctx, s, i, batches[i])
    requires if missing.None? then index <= m else missing.value == m < index
    ensures var o := Scan(ctx, s, batches, index, missing);
            && o.Ok? && o.value.firstMissing == m
            && (missing.Some? ==> o.value.rows == [])
            && (missing.None? ==> Concatenated(batches, index) + o.value.rows == Concatenated(batches, m))
    decreases Count(s) - index
  {
    hide ValidBatch, UniqueRuns, Count;
    if index < m {
      BatchUnique(ctx, s, index, batches[index]);
      ScanAccepts(ctx, s, batches, index + 1, missing, m);
      var rest := Scan(ctx, s, batches, index + 1, None).value.rows;
      assert Concatenated(batches, index) + (batches[index] + rest) == Concatenated(batches, index + 1) + rest;
    } else {
      assert Concatenated(batches, m) + [] == Concatenated(batches, m);
      if index < Count(s) {
        ScanAccepts(ctx, s, batches, index + 1, Some(m), m);
      }
    }
  }

  lemma {:induction false} ConcatenatedFits(ctx: Context, s: Setup, batches: map<nat, seq<Row>>, k: nat)
    requires s.batchSize > 0 && k <= Count(s) && AllPresent(batches, k)
    requires forall i: nat :: i < k ==> ValidBatch(ctx, s, i, batches[i])
    ensures |Concatenated(batches, k)| == Start(s, k) && RowsFit(ctx, s, Concatenated(batches, k))
  {
    hide ValidBatch, RowFits, Start, Count;
    if k == 0 {
      NothingBefore(s);
    } else {
      ConcatenatedFits(ctx, s, batches, k - 1);
      BatchFits(ctx, s, k - 1, batches[k - 1]);
    }
  }

  // A checkpoint is accepted exactly when its batches are genuine and have no gap; loading returns them and their
  // number.
  lemma LoadDecided(ctx: Context, s: Setup, batches: map<nat, seq<Row>>)
    requires s.batchSize > 0 && DistinctRequests(s.requests)
    ensures LoadBatches(ctx, s, batches).Ok? <==> exists m: nat :: LoadsTo(ctx, s, batches, m)
    ensures forall m: nat :: LoadsTo(ctx, s, batches, m) ==>
                               LoadBatches(ctx, s, batches) == Ok(Loaded(Concatenated(batches, m), m))
  {
    hide ValidBatch, GenuineBatch, UniqueRuns, Count, Scan, RowsFit;
    forall i: nat | i in batches
      ensures ValidBatch(ctx, s, i, batches[i]) <==> GenuineBatch(ctx, s, i, batches[i])
    {
      GenuineIff(ctx, s, i, batches[i]);
    }
    if Scan(ctx, s, batches, 0, None).Ok? {
      ScanSays(ctx, s, batches, 0, None);
      assert LoadsTo(ctx, s, batches, Scan(ctx, s, batches, 0, None).value.firstMissing);
    }
    forall m: nat | LoadsTo(ctx, s, batches, m)
      ensures LoadBatches(ctx, s, batches) == Ok(Loaded(Concatenated(batches, m), m))
    {
      ScanAccepts(ctx, s, batches, 0, None, m);
      ConcatenatedFits(ctx, s, batches, m);
      FittingRowsUnique(ctx, s, Concatenated(batches, m));
      var rows := Scan(ctx, s, batches, 0, None).value.rows;
      assert Concatenated(batches, 0) + rows == rows;
    }
  }

  // --- Refusals ---

  // A known phase, at least one request, no id twice, the phase's own conditions, a positive batch size, a limit that
  // is not negative, and an expected provenance that the environment satisfies.
  ghost predicate Acceptable(ctx: Context, s: Setup, a: Attempt) {
    && (s.phase == "baseline" || s.phase == "treatment") && s.requests != []
    && (forall i, j :: 0 <= i < j < |s.requests| ==> s.requests[i].id != s.requests[j].id)
    && (forall r :: r in s.requests ==>
          if s.phase == "baseline" then r.condition == "baseline" else r.condition != "baseline")
    && s.batchSize > 0 && s.expected != map[] && ctx.environmentOk(s.environment, s.expected)
    && (a.limit == None || a.limit.value >= 0)
  }

  lemma AcceptableIff(ctx: Context, s: Setup, a: Attempt)
    ensures Acceptable(ctx, s, a) <==> ValidAttempt(ctx, s, a)
  {
    if ConditionsFit(s.requests, s.phase) {
      forall r | r in s.requests
        ensures s.phase == "baseline" <==> r.condition == "baseline"
      {
        var i :| 0 <= i < |s.requests| && s.requests[i] == r;
      }
    }
    if Acceptable(ctx, s, a) {
      forall i | 0 <= i < |s.requests|
        ensures s.phase == "baseline" <==> s.requests[i].condition == "baseline"
      {
        assert s.requests[i] in s.requests;
      }
    }
  }

  // The provenance has every expected value, is that of the rows already stored, and has an identity.
  ghost predicate Usable(ctx: Context, s: Setup, stored: seq<Row>, provenance: Provenance) {
    && (forall key :: key in s.expected ==> key in provenance && provenance[key] == s.expected[key])
    && (stored != [] ==> stored[0].body.backend == provenance) && ctx.identity(s.environment, provenance) != None
  }

  lemma AcceptableFacts(ctx: Context, s: Setup, a: Attempt)
    requires Acceptable(ctx, s, a)
    ensures s.batchSize > 0 && DistinctRequests(s.requests)
  {
  }

  // What a run does before it generates anything: it refuses its arguments and another plan, writes the plan if there
  // is none, returns when nothing is missing or nothing may be generated, and refuses the lack of a backend or one that
  // does not fit.
  lemma RunDecided(ctx: Context, files: Files, s: Setup, a: Attempt, m: nat)
    requires Acceptable(ctx, s, a) ==> LoadsTo(ctx, s, files.batches, m)
    ensures !Acceptable(ctx, s, a) ==> Running(ctx, files, s, a) == State(files, Failed(BadArguments))
    ensures Acceptable(ctx, s, a) ==>
              var o, plan := Running(ctx, files, s, a), Plan(s, ctx.hash(PlanBody(s)));
              if files.plan.Some? && ctx.hash(PlanFile(files.plan.value)) != ctx.hash(PlanFile(plan))
              then o == State(files, Failed(PlanMismatch))
              else if files.plan.None? && a.writes == Some(0) then o == State(files, Crashed)
              else
                var planned, rows := if files.plan.None? then files.(plan := Some(plan)) else files,
                                     Concatenated(files.batches, m);
                var writes := if files.plan.None? then Less(a.writes) else a.writes;
                if m == Count(s) then o == Finalized(ctx, planned, s, rows, writes)
                else if a.limit == Some(0) then o == State(planned, Stopped(rows))
                else if a.backend == None then o == State(planned, Failed(NoBackend))
                else if !Usable(ctx, s, rows, a.backend.value.provenance)
                then o == State(planned, Failed(BackendMismatch))
                else o == Generating(ctx, planned, s, a.backend.value, rows, m, a.limit, writes)
  {
    hide LoadBatches, LoadsTo, ValidAttempt, Finalized, Generating, Acceptable, Count;
    AcceptableIff(ctx, s, a);
    if Acceptable(ctx, s, a) {
      AcceptableFacts(ctx, s, a);
      LoadDecided(ctx, s, files.batches);
    }
  }

  // --- The manifest ---

  ghost predicate IdsOf(rows: seq<Row>, ids: seq<string>) {
    |ids| == |rows| && forall j :: 0 <= j < |rows| ==> ids[j] == rows[j].body.runId
  }

  ghost predicate HashesOf(rows: seq<Row>, hashes: seq<string>) {
    |hashes| == |rows| && forall j :: 0 <= j < |rows| ==> hashes[j] == rows[j].recordHash
  }

  // The entry of a batch file: its index, its length, its digest and that of its record hashes.
  ghost predicate EntryOf(ctx: Context, item: BatchFile, i: nat, rows: seq<Row>) {
    && item.index == i && item.rowCount == |rows| && item.sha == ctx.hash(RowsFile(rows))
    && exists hashes :: HashesOf(rows, hashes) && item.rowHashes == ctx.hash(Texts(hashes))
  }

  lemma RecordHashesAre(rows: seq<Row>)
    ensures HashesOf(rows, RecordHashes(rows))
    ensures forall hashes :: HashesOf(rows, hashes) ==> hashes == RecordHashes(rows)
  {
  }

  lemma EntryIff(ctx: Context, item: BatchFile, i: nat, rows: seq<Row>)
    ensures item == BatchFileOf(ctx, i, rows) <==> EntryOf(ctx, item, i, rows)
  {
    RecordHashesAre(rows);
  }

  // What the manifest of a finished phase says of the plan, the rows and the batch files.
  lemma ManifestSays(ctx: Context, s: Setup, batches: map<nat, seq<Row>>, rows: seq<Row>, identity: string)
    requires s.batchSize > 0 && |rows| > 0 && AllPresent(batches, Count(s))
    ensures var m := ManifestFor(ctx, s, batches, rows, identity);
            var u := m.summary;
            && m.manifestHash == ctx.hash(ManifestBody(u)) && u.phase == s.phase
            && u.planHash == ctx.hash(PlanBody(s)) && u.requestCount == |s.requests| && u.rowCount == |rows|
            && (exists ids :: IdsOf(rows, ids) && u.runIds == ctx.hash(Texts(ids)))
            && (exists hashes :: HashesOf(rows, hashes) && u.rowHashes == ctx.hash(Texts(hashes)))
            && u.backend == rows[0].body.backend && u.backendHash == ctx.hash(BackendBody(rows[0].body.backend))
            && u.identity == identity && u.mergedSha == ctx.hash(RowsFile(rows))
            && |u.batchFiles| == Count(s)
            && forall i: nat :: i < Count(s) ==> EntryOf(ctx, u.batchFiles[i], i, batches[i])
  {
    hide Count;
    assert IdsOf(rows, RunIds(rows));
    RecordHashesAre(rows);
    forall i: nat | i < Count(s)
      ensures EntryOf(ctx, BatchFileOf(ctx, i, batches[i]), i, batches[i])
    {
      EntryIff(ctx, BatchFileOf(ctx, i, batches[i]), i, batches[i]);
    }
  }

  // One row for every request, in order, all from one backend that has an identity.
  ghost predicate Complete(ctx: Context, s: Setup, rows: seq<Row>) {
    && rows != [] && |rows| == |s.requests|
    && (forall j :: 0 <= j < |rows| ==> rows[j].body.runId == s.requests[j].id)
    && (forall j :: 0 <= j < |rows| ==> rows[j].body.backend == rows[0].body.backend)
    && ctx.identity(s.environment, rows[0].body.backend) != None
  }

  lemma CompleteIff(ctx: Context, s: Setup, rows: seq<Row>)
    ensures Finalizable(ctx, s, rows) <==> Complete(ctx, s, rows)
  {
    SameIdsIff(rows, s.requests);
  }

  // Finalising refuses incomplete rows and a merged file or manifest of other rows, unless it is cut before it gets
  // there; when it completes both files are those of the rows.
  lemma FinalDecided(ctx: Context, files: Files, s: Setup, rows: seq<Row>, writes: Writes)
    requires s.batchSize > 0 && AllPresent(files.batches, Count(s))
    ensures var o := Finalized(ctx, files, s, rows, writes);
            if !Complete(ctx, s, rows) || (files.merged != None && files.merged != Some(rows))
            then o == State(files, Failed(BadFinal))
            else
              var identity := ctx.identity(s.environment, rows[0].body.backend).value;
              var m := ManifestFor(ctx, s, files.batches, rows, identity);
              && (o.outcome == Failed(BadFinal) <==>
                  files.manifest != None && files.manifest != Some(m) && (files.merged != None || writes != Some(0)))
              && (o.outcome.Completed? ==>
                    o == State(files.(merged := Some(rows), manifest := Some(m)), Completed(rows, m)))
              && (o.outcome.Crashed? ==>
                    writes == Some(0) || (writes == Some(1) && files.merged == None && files.manifest == None))
              && !o.outcome.Stopped?
  {
    hide ManifestFor, Finalizable, Complete, Count;
    CompleteIff(ctx, s, rows);
    if Complete(ctx, s, rows) {
      CompleteRows(ctx, s, rows);
    }
  }

  lemma CompleteRows(ctx: Context, s: Setup, rows: seq<Row>)
    requires Complete(ctx, s, rows)
    ensures rows != [] && ctx.identity(s.environment, rows[0].body.backend) != None
  {
  }

  // --- Reading a completed phase ---

  ghost predicate Intact(ctx: Context, rows: seq<Row>) {
    forall j :: 0 <= j < |rows| ==> rows[j].recordHash == ctx.hash(RowBody(rows[j].body))
  }

  // Plan, manifest and merged file fit each other and the rows.
  ghost predicate Authentic(ctx: Context, files: Files, rows: seq<Row>) {
    && files.plan.Some? && files.manifest.Some? && files.merged == Some(rows)
    && var s, m := files.plan.value.setup, files.manifest.value;
       && s.batchSize > 0 && files.plan.value.planHash == ctx.hash(PlanBody(s))
       && m.manifestHash == ctx.hash(ManifestBody(m.summary)) && m.summary.planHash == ctx.hash(PlanBody(s))
       && ctx.identity(s.environment, m.summary.backend) == Some(m.summary.identity)
       && |rows| == |s.requests| == m.summary.rowCount
       && (forall j :: 0 <= j < |rows| ==> rows[j].body.runId == s.requests[j].id)
       && DistinctRequests(s.requests)
       && (forall j :: 0 <= j < |rows| ==> rows[j].body.backend == m.summary.backend)
       && m.summary.mergedSha == ctx.hash(RowsFile(rows))
       && (exists hashes :: HashesOf(rows, hashes) && m.summary.rowHashes == ctx.hash(Texts(hashes)))
       && m.summary.backendHash == ctx.hash(BackendBody(m.summary.backend))
  }

  // The batch files are those of the manifest, each row's hash is its own, and together they are the rows.
  ghost predicate Stored(ctx: Context, files: Files, rows: seq<Row>)
    requires Authentic(ctx, files, rows)
  {
    var s, items := files.plan.value.setup, files.manifest.value.summary.batchFiles;
    && |items| == Count(s) && AllPresent(files.batches, Count(s))
    && (forall i: nat :: i < Count(s) ==>
          EntryOf(ctx, items[i], i, files.batches[i]) && Intact(ctx, files.batches[i]))
    && Concatenated(files.batches, Count(s)) == rows
  }

  lemma InventoryIff(ctx: Context, files: Files, items: seq<BatchFile>)
    requires AllPresent(files.batches, |items|)
    ensures (forall i :: 0 <= i < |items| ==> BatchAuthentic(ctx, files, items[i], i)) <==>
            forall i: nat :: i < |items| ==>
              EntryOf(ctx, items[i], i, files.batches[i]) && Intact(ctx, files.batches[i])
  {
    hide EntryOf, BatchFileOf;
    forall i: nat | i < |items|
      ensures BatchAuthentic(ctx, files, items[i], i) <==>
              EntryOf(ctx, items[i], i, files.batches[i]) && Intact(ctx, files.batches[i])
    {
      EntryIff(ctx, items[i], i, files.batches[i]);
      EntryIndex(ctx, items[i], i, files.batches[i]);
    }
  }

  lemma EntryIndex(ctx: Context, item: BatchFile, i: nat, rows: seq<Row>)
    ensures EntryOf(ctx, item, i, rows) ==> item.index == i
  {
  }

  // A completed phase is accepted exactly when its files authenticate each other.
  lemma PhaseLoadedIff(ctx: Context, files: Files, rows: seq<Row>)
    ensures LoadPhase(ctx, files) == Some(rows) <==> Authentic(ctx, files, rows) && Stored(ctx, files, rows)
  {
    hide EntryOf, BatchAuthentic, Intact, Concatenated, Count;
    RecordHashesAre(rows);
    if files.plan.Some? && files.manifest.Some? && files.plan.value.setup.batchSize > 0
       && AllPresent(files.batches, Count(files.plan.value.setup)) {
      var s, items := files.plan.value.setup, files.manifest.value.summary.batchFiles;
      if |items| == Count(s) {
        InventoryIff(ctx, files, items);
      }
      SameIdsIff(Concatenated(files.batches, Count(s)), s.requests);
    }
  }

  lemma SameIdsIff(rows: seq<Row>, requests: seq<Request>)
    ensures RunIds(rows) == RequestIds(requests) <==>
            |rows| == |requests| && forall j :: 0 <= j < |rows| ==> rows[j].body.runId == requests[j].id
    ensures RunIds(rows) == RequestIds(requests) ==> (UniqueRuns(rows) <==> DistinctRequests(requests))
  {
    if RunIds(rows) == RequestIds(requests) {
      assert |RunIds(rows)| == |RequestIds(requests)|;
      forall j | 0 <= j < |rows|
        ensures rows[j].body.runId == requests[j].id
      {
        assert RunIds(rows)[j] == RequestIds(requests)[j];
      }
    }
  }
}
