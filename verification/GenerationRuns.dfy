// Any history of generation runs, each cut anywhere, ends where an uninterrupted run would.
module GenerationRuns {
  import opened Options
  import opened GenerationPhase

  // --- The checkpoint invariant ---

  ghost predicate Committed(batches: map<nat, seq<Row>>, k: nat) {
    forall i: nat :: i in batches <==> i < k
  }

  ghost predicate BatchesValid(ctx: Context, s: Setup, batches: map<nat, seq<Row>>, k: nat, backend: Provenance)
    requires s.batchSize > 0
  {
    && Committed(batches, k)
    && forall i: nat :: i < k ==> ValidBatch(ctx, s, i, batches[i]) && SameBackend(batches[i], backend)
  }

  // The first k batches are stored, all from one backend; the merged rows and the manifest only after the last batch.
  ghost predicate Good(ctx: Context, s: Setup, files: Files, k: nat, backend: Provenance) {
    && ValidSetup(ctx, s) && files.plan == Some(PlanOf(ctx, s)) && k <= Count(s)
    && BatchesValid(ctx, s, files.batches, k, backend)
    && (k > 0 ==> Matches(backend, s.expected) && ctx.identity(s.environment, backend).Some?)
    && (files.merged.Some? ==> k == Count(s) && files.merged.value == Concatenated(files.batches, k))
    && (files.manifest.Some? ==>
          && files.merged.Some? && |files.merged.value| > 0 && ctx.identity(s.environment, backend).Some?
          && files.manifest.value ==
            ManifestFor(ctx, s, files.batches, files.merged.value, ctx.identity(s.environment, backend).value))
  }

  // Nothing stored is lost or changed.
  ghost predicate Extends(before: Files, after: Files) {
    && (before.plan.Some? ==> after.plan == before.plan)
    && (forall i :: i in before.batches ==> i in after.batches && after.batches[i] == before.batches[i])
    && (before.merged.Some? ==> after.merged == before.merged)
    && (before.manifest.Some? ==> after.manifest == before.manifest)
  }

  // --- Where batches start ---

  lemma StartExact(s: Setup, i: nat)
    requires s.batchSize > 0
    ensures i < Count(s) ==> Start(s, i) == i * s.batchSize < |s.requests|
    ensures i >= Count(s) ==> Start(s, i) == |s.requests|
  {
    var n, b := |s.requests|, s.batchSize;
    var c := Count(s);
    assert c * b <= n + b - 1 < c * b + b by {
      assert n + b - 1 == b * ((n + b - 1) / b) + (n + b - 1) % b;
    }
    if i < c {
      Multiples(i, c - 1, b);
      assert (c - 1) * b == c * b - b;
    } else {
      Multiples(c, i, b);
    }
  }

  lemma Multiples(a: nat, c: nat, b: int)
    requires a <= c && b > 0
    ensures a * b <= c * b
  {
  }

  // What row j of a phase must be.
  ghost predicate RowFits(ctx: Context, s: Setup, j: nat, r: Row) {
    && j < |s.requests|
    && r.body.runId == s.requests[j].id && r.body.dispatch == j && r.body.phase == s.phase
    && r.body.planHash == PlanOf(ctx, s).planHash && r.recordHash == ctx.hash(RowBody(r.body))
  }

  ghost predicate RowsFit(ctx: Context, s: Setup, rows: seq<Row>) {
    forall j :: 0 <= j < |rows| ==> RowFits(ctx, s, j, rows[j])
  }

  lemma BatchFits(ctx: Context, s: Setup, i: nat, rows: seq<Row>)
    requires s.batchSize > 0 && i < Count(s) && ValidBatch(ctx, s, i, rows)
    ensures |rows| == Start(s, i + 1) - Start(s, i)
    ensures forall o :: 0 <= o < |rows| ==> RowFits(ctx, s, Start(s, i) + o, rows[o])
  {
    StartExact(s, i);
    Ordered(s, i);
    forall o | 0 <= o < |rows|
      ensures RowFits(ctx, s, Start(s, i) + o, rows[o])
    {
      assert BatchRequests(s, i)[o] == s.requests[Start(s, i) + o];
      assert ValidRow(ctx, s, i, o, rows[o]);
    }
  }

  // The stored rows are the frozen requests' rows, in request order and numbered from zero.
  lemma {:induction false} StoredRows(ctx: Context, s: Setup, batches: map<nat, seq<Row>>, k: nat, backend: Provenance)
    requires s.batchSize > 0 && k <= Count(s) && AllPresent(batches, k)
    requires forall i: nat :: i < k ==> ValidBatch(ctx, s, i, batches[i]) && SameBackend(batches[i], backend)
    ensures var rows := Concatenated(batches, k);
            |rows| == Start(s, k) && RowsFit(ctx, s, rows) && SameBackend(rows, backend)
  {
    hide ValidBatch, RowFits, Start, Count;
    if k == 0 {
      NothingBefore(s);
    } else {
      StoredRows(ctx, s, batches, k - 1, backend);
      BatchFits(ctx, s, k - 1, batches[k - 1]);
    }
  }

  lemma NothingBefore(s: Setup)
    requires s.batchSize > 0
    ensures Start(s, 0) == 0
  {
  }

  lemma FittingRowsUnique(ctx: Context, s: Setup, rows: seq<Row>)
    requires DistinctRequests(s.requests) && RowsFit(ctx, s, rows)
    ensures UniqueRuns(rows)
  {
    forall i, j | 0 <= i < j < |rows|
      ensures rows[i].body.runId != rows[j].body.runId
    {
      assert RowFits(ctx, s, i, rows[i]) && RowFits(ctx, s, j, rows[j]);
    }
  }

  lemma BatchUnique(ctx: Context, s: Setup, i: nat, rows: seq<Row>)
    requires s.batchSize > 0 && DistinctRequests(s.requests) && ValidBatch(ctx, s, i, rows)
    ensures UniqueRuns(rows)
  {
    Ordered(s, i);
    forall a, b | 0 <= a < b < |rows|
      ensures rows[a].body.runId != rows[b].body.runId
    {
      assert BatchRequests(s, i)[a] == s.requests[Start(s, i) + a]
             && BatchRequests(s, i)[b] == s.requests[Start(s, i) + b];
    }
  }

  // --- Loading ---

  lemma {:induction false} ScanMissing(ctx: Context, s: Setup, batches: map<nat, seq<Row>>, index: nat, k: nat)
    requires s.batchSize > 0 && Committed(batches, k) && k <= index
    ensures Scan(ctx, s, batches, index, Some(k)) == Ok(Loaded([], k))
    decreases Count(s) - index
  {
    hide ValidBatch, Count, UniqueRuns;
    if index < Count(s) {
      ScanMissing(ctx, s, batches, index + 1, k);
    }
  }

  lemma {:induction false} ScanStored(ctx: Context, s: Setup, batches: map<nat, seq<Row>>, index: nat, k: nat,
                                      backend: Provenance)
    requires ValidSetup(ctx, s) && BatchesValid(ctx, s, batches, k, backend) && index <= k <= Count(s)
    ensures var o := Scan(ctx, s, batches, index, None);
            o.Ok? && o.value.firstMissing == k
              && Concatenated(batches, index) + o.value.rows == Concatenated(batches, k)
    decreases k - index
  {
    hide ValidBatch, Count, UniqueRuns, SameBackend, ValidSetup;
    SetupFacts(ctx, s);
    if index < k {
      BatchUnique(ctx, s, index, batches[index]);
      ScanStored(ctx, s, batches, index + 1, k, backend);
      var rest := Scan(ctx, s, batches, index + 1, None).value.rows;
      assert Concatenated(batches, index) + (batches[index] + rest) == Concatenated(batches, index + 1) + rest;
    } else {
      assert Concatenated(batches, k) + [] == Concatenated(batches, k);
      if k < Count(s) {
        ScanMissing(ctx, s, batches, k + 1, k);
      }
    }
  }

  lemma SetupFacts(ctx: Context, s: Setup)
    requires ValidSetup(ctx, s)
    ensures s.batchSize > 0 && DistinctRequests(s.requests) && |s.requests| > 0 && Count(s) > 0
  {
  }

  // A sound checkpoint is never refused: loading returns exactly the committed prefix.
  lemma LoadsPrefix(ctx: Context, s: Setup, files: Files, k: nat, backend: Provenance)
    requires Good(ctx, s, files, k, backend)
    ensures LoadBatches(ctx, s, files.batches) == Ok(Loaded(Concatenated(files.batches, k), k))
    ensures |Concatenated(files.batches, k)| == Start(s, k) && RowsFit(ctx, s, Concatenated(files.batches, k))
    ensures SameBackend(Concatenated(files.batches, k), backend)
  {
    hide ValidBatch, Count, UniqueRuns, SameBackend, Scan, RowsFit;
    ScanStored(ctx, s, files.batches, 0, k, backend);
    StoredRows(ctx, s, files.batches, k, backend);
    FittingRowsUnique(ctx, s, Concatenated(files.batches, k));
    var o := Scan(ctx, s, files.batches, 0, None);
    assert Concatenated(files.batches, 0) + o.value.rows == o.value.rows;
  }

  // --- Generating ---

  lemma ProducedValid(ctx: Context, s: Setup, backend: Backend, i: nat)
    requires s.batchSize > 0 && Matches(backend.provenance, s.expected) && Produced(ctx, s, backend, i).Some?
    ensures ValidBatch(ctx, s, i, Produced(ctx, s, backend, i).value)
    ensures SameBackend(Produced(ctx, s, backend, i).value, backend.provenance)
  {
    hide Matches, BatchRequests;
  }

  lemma {:induction false} ConcatenatedSame(a: map<nat, seq<Row>>, b: map<nat, seq<Row>>, k: nat)
    requires AllPresent(a, k) && AllPresent(b, k) && forall i: nat :: i < k ==> a[i] == b[i]
    ensures Concatenated(a, k) == Concatenated(b, k)
  {
    if k > 0 {
      ConcatenatedSame(a, b, k - 1);
    }
  }

  // Committing the next batch keeps the checkpoint sound.
  lemma CommitKeeps(ctx: Context, s: Setup, files: Files, k: nat, backend: Backend)
    requires Good(ctx, s, files, k, backend.provenance) && k < Count(s)
    requires Matches(backend.provenance, s.expected) && ctx.identity(s.environment, backend.provenance).Some?
    requires Produced(ctx, s, backend, k).Some?
    ensures var rows := Produced(ctx, s, backend, k).value;
            var next := files.(batches := files.batches[k := rows]);
            && Good(ctx, s, next, k + 1, backend.provenance) && Extends(files, next)
            && Concatenated(next.batches, k + 1) == Concatenated(files.batches, k) + rows
            && ValidBatch(ctx, s, k, rows) && UniqueRuns(rows)
  {
    hide ValidBatch, SameBackend, Matches, Produced, Count, ManifestFor, ValidSetup;
    SetupFacts(ctx, s);
    ProducedValid(ctx, s, backend, k);
    var rows := Produced(ctx, s, backend, k).value;
    BatchUnique(ctx, s, k, rows);
    ConcatenatedSame(files.batches, files.batches[k := rows], k);
  }

  // --- Finalising ---

  lemma CompleteFinalizable(ctx: Context, s: Setup, files: Files, backend: Provenance)
    requires s.batchSize > 0 && Good(ctx, s, files, Count(s), backend)
    ensures AllPresent(files.batches, Count(s))
    ensures Finalizable(ctx, s, Concatenated(files.batches, Count(s)))
    ensures Concatenated(files.batches, Count(s))[0].body.backend == backend
  {
    hide BatchesValid, ValidBatch, ManifestFor, Count;
    SetupFacts(ctx, s);
    LoadsPrefix(ctx, s, files, Count(s), backend);
    StartExact(s, Count(s));
    AllCommitted(ctx, s, files, backend);
    var rows := Concatenated(files.batches, Count(s));
    forall j | 0 <= j < |rows|
      ensures RunIds(rows)[j] == RequestIds(s.requests)[j]
    {
      assert RowFits(ctx, s, j, rows[j]);
    }
  }

  // What finalising leaves behind, crash or not.
  ghost predicate FinalOutcome(ctx: Context, s: Setup, before: Files, st: State, backend: Provenance, writes: Writes)
    requires s.batchSize > 0
  {
    && Good(ctx, s, st.files, Count(s), backend) && Extends(before, st.files) && st.files.batches == before.batches
    && (st.outcome.Crashed? || st.outcome.Completed?) && (writes.None? ==> st.outcome.Completed?)
    && (st.outcome.Completed? ==>
          && st.files.merged == Some(st.outcome.rows) && st.files.manifest == Some(st.outcome.manifest)
          && AllPresent(before.batches, Count(s)) && st.outcome.rows == Concatenated(before.batches, Count(s)))
  }

  lemma FinalizedKeeps(ctx: Context, s: Setup, files: Files, backend: Provenance, writes: Writes)
    requires s.batchSize > 0 && Good(ctx, s, files, Count(s), backend)
    ensures FinalOutcome(ctx, s, files, Finalized(ctx, files, s, Concatenated(files.batches, Count(s)), writes),
                         backend, writes)
  {
    hide BatchesValid, ValidBatch, ManifestFor, Count, Finalizable, Concatenated;
    SetupFacts(ctx, s);
    CompleteFinalizable(ctx, s, files, backend);
    AllCommitted(ctx, s, files, backend);
    FinalizableFacts(ctx, s, Concatenated(files.batches, Count(s)));
  }

  lemma AllCommitted(ctx: Context, s: Setup, files: Files, backend: Provenance)
    requires s.batchSize > 0 && Good(ctx, s, files, Count(s), backend)
    ensures AllPresent(files.batches, Count(s))
  {
  }

  lemma FinalizableFacts(ctx: Context, s: Setup, rows: seq<Row>)
    requires Finalizable(ctx, s, rows)
    ensures |rows| == |s.requests| > 0 && ctx.identity(s.environment, rows[0].body.backend).Some?
  {
  }

  // --- One run ---

  // The batches a run has added are what its backend produced for them.
  ghost predicate AddedBy(ctx: Context, s: Setup, backend: Backend, from: nat, to: nat, batches: map<nat, seq<Row>>)
    requires s.batchSize > 0
  {
    forall i: nat :: from <= i < to ==> i in batches && Produced(ctx, s, backend, i) == Some(batches[i])
  }

  ghost predicate RunOutcome(ctx: Context, s: Setup, st: State, k: nat)
    requires s.batchSize > 0
  {
    match st.outcome
    case Crashed => true
    case Failed(error) => error != NonContiguous && error != BadBatch && error != BadFinal
    case Stopped(rows) => k < Count(s) && AllPresent(st.files.batches, k) && rows == Concatenated(st.files.batches, k)
    case Completed(rows, manifest) =>
      && k == Count(s) && AllPresent(st.files.batches, k) && rows == Concatenated(st.files.batches, k)
      && st.files.merged == Some(rows) && st.files.manifest == Some(manifest)
  }

  lemma GoodFacts(ctx: Context, s: Setup, files: Files, k: nat, backend: Provenance)
    requires Good(ctx, s, files, k, backend)
    ensures ValidSetup(ctx, s) && s.batchSize > 0 && k <= Count(s) && AllPresent(files.batches, k)
  {
  }

  lemma {:induction false} GeneratingKeeps(ctx: Context, s: Setup, files: Files, backend: Backend, k: nat,
                                           left: Option<int>, writes: Writes) returns (to: nat)
    requires Good(ctx, s, files, k, backend.provenance)
    requires Matches(backend.provenance, s.expected) && ctx.identity(s.environment, backend.provenance).Some?
    ensures var st := Generating(ctx, files, s, backend, Concatenated(files.batches, k), k, left, writes);
            && k <= to && Good(ctx, s, st.files, to, backend.provenance) && Extends(files, st.files)
            && AddedBy(ctx, s, backend, k, to, st.files.batches) && RunOutcome(ctx, s, st, to)
            && (left.None? && writes.None?
                && (forall i: nat :: k <= i < Count(s) ==> Produced(ctx, s, backend, i).Some?) ==>
                  st.outcome.Completed?)
    decreases Count(s) - k
  {
    hide Good, BatchesValid, ValidBatch, ManifestFor, Produced, UniqueRuns, Matches, Finalized, Finalizable,
      Concatenated, Count, RowsFit, SameBackend, ValidSetup, LoadBatches, AllPresent, Start;
    GoodFacts(ctx, s, files, k, backend.provenance);
    SetupFacts(ctx, s);
    LoadsPrefix(ctx, s, files, k, backend.provenance);
    StartExact(s, k);
    to := k;
    if k == Count(s) {
      FinalizedKeeps(ctx, s, files, backend.provenance, writes);
      AllCommitted(ctx, s, files, backend.provenance);
    } else if left.Some? && left.value <= 0 {
      PrefixPresent(ctx, s, files, k, backend.provenance);
    } else if Produced(ctx, s, backend, k).Some? {
      CommitKeeps(ctx, s, files, k, backend);
      NotYet(ctx, s, files, k, backend.provenance);
      if writes != Some(0) {
        var next := files.(batches := files.batches[k := Produced(ctx, s, backend, k).value]);
        to := GeneratingKeeps(ctx, s, next, backend, k + 1, if left.None? then None else Some(left.value - 1),
                              Less(writes));
      }
    }
  }

  lemma PrefixPresent(ctx: Context, s: Setup, files: Files, k: nat, backend: Provenance)
    requires Good(ctx, s, files, k, backend)
    ensures AllPresent(files.batches, k)
  {
  }

  lemma NotYet(ctx: Context, s: Setup, files: Files, k: nat, backend: Provenance)
    requires Good(ctx, s, files, k, backend)
    ensures k !in files.batches
  {
  }

  // No two plans share a content hash.
  ghost predicate PlansDistinct(ctx: Context) {
    forall p, q :: ctx.hash(PlanFile(p)) == ctx.hash(PlanFile(q)) ==> p == q
  }

  ghost predicate Sound(ctx: Context, files: Files) {
    files == EMPTY || exists s, k, backend :: Good(ctx, s, files, k, backend)
  }

  // Every run on a sound checkpoint, whatever its plan, backend, limit and crash point, keeps it sound and loses
  // nothing. The checkpoint never looks non-contiguous or corrupt, so no such refusal can follow.
  lemma RunningKeeps(ctx: Context, files: Files, s: Setup, a: Attempt)
    requires PlansDistinct(ctx) && Sound(ctx, files)
    ensures Sound(ctx, Running(ctx, files, s, a).files) && Extends(files, Running(ctx, files, s, a).files)
    ensures var o := Running(ctx, files, s, a).outcome;
            o.Failed? ==> o.error != NonContiguous && o.error != BadBatch && o.error != BadFinal
  {
    hide Resuming, Good, ValidAttempt;
    if ValidAttempt(ctx, s, a) {
      if files == EMPTY {
        if a.writes != Some(0) {
          FreshPlan(ctx, s, a);
          var k, b := ResumingKeeps(ctx, s, EMPTY.(plan := Some(PlanOf(ctx, s))), a, 0, map[], Less(a.writes));
        }
      } else {
        var s', k, b :| Good(ctx, s', files, k, b);
        PlanStored(ctx, s', files, k, b);
        if ctx.hash(PlanFile(files.plan.value)) == ctx.hash(PlanFile(PlanOf(ctx, s))) {
          assert s' == s;
          var k', b' := ResumingKeeps(ctx, s, files, a, k, b, a.writes);
        }
      }
    }
  }

  lemma PlanStored(ctx: Context, s: Setup, files: Files, k: nat, backend: Provenance)
    requires Good(ctx, s, files, k, backend)
    ensures files.plan == Some(PlanOf(ctx, s)) && ValidSetup(ctx, s)
  {
  }

  lemma FreshPlan(ctx: Context, s: Setup, a: Attempt)
    requires ValidAttempt(ctx, s, a)
    ensures Good(ctx, s, EMPTY.(plan := Some(PlanOf(ctx, s))), 0, map[])
  {
    SetupFacts(ctx, s);
  }

  // A run that could do nothing but stop or fail leaves the prefix as it is; otherwise its backend extends it.
  ghost predicate Resumed(ctx: Context, s: Setup, a: Attempt, files: Files, from: nat, st: State, to: nat)
    requires s.batchSize > 0
  {
    && from <= to && Extends(files, st.files) && RunOutcome(ctx, s, st, to)
    && (from < to ==> a.backend.Some? && AddedBy(ctx, s, a.backend.value, from, to, st.files.batches))
  }

  lemma ResumingKeeps(ctx: Context, s: Setup, files: Files, a: Attempt, k: nat, backend: Provenance, writes: Writes)
    returns (to: nat, after: Provenance)
    requires ValidAttempt(ctx, s, a) && Good(ctx, s, files, k, backend)
    ensures var st := Resuming(ctx, files, s, a, writes);
            && Good(ctx, s, st.files, to, after) && Resumed(ctx, s, a, files, k, st, to)
            && (k > 0 ==> after == backend) && (k < to ==> after == a.backend.value.provenance)
            && (k == Count(s) && writes.None? ==> st.outcome.Completed?)
            && (Unhindered(ctx, s, a, k, backend) && writes.None? ==> st.outcome.Completed?)
  {
    hide BatchesValid, ValidBatch, ManifestFor, Produced, UniqueRuns, Matches, Finalized, Finalizable, Concatenated,
      Count, Generating, LoadBatches, ValidSetup;
    SetupFacts(ctx, s);
    LoadsPrefix(ctx, s, files, k, backend);
    PrefixPresent(ctx, s, files, k, backend);
    to, after := k, backend;
    if k == Count(s) {
      FinalizedKeeps(ctx, s, files, backend, writes);
    } else if a.limit != Some(0) && a.backend.Some? {
      var b := a.backend.value;
      PrefixBackend(ctx, s, files, k, backend);
      if BackendFits(ctx, s, Concatenated(files.batches, k), b.provenance) {
        Rebase(ctx, s, files, k, backend, b.provenance);
        after := b.provenance;
        to := GeneratingKeeps(ctx, s, files, b, k, a.limit, writes);
      }
    }
  }

  // A backend that fits the plan and the stored batches, answers every remaining batch, and no limit.
  ghost predicate Unhindered(ctx: Context, s: Setup, a: Attempt, k: nat, backend: Provenance)
    requires s.batchSize > 0
  {
    && a.limit.None? && a.backend.Some?
    && Matches(a.backend.value.provenance, s.expected) && ctx.identity(s.environment, a.backend.value.provenance).Some?
    && (k > 0 ==> a.backend.value.provenance == backend)
    && forall i: nat :: k <= i < Count(s) ==> Produced(ctx, s, a.backend.value, i).Some?
  }

  // The first stored row names the backend of every stored batch.
  lemma PrefixBackend(ctx: Context, s: Setup, files: Files, k: nat, backend: Provenance)
    requires s.batchSize > 0 && Good(ctx, s, files, k, backend) && k <= Count(s)
    ensures AllPresent(files.batches, k)
    ensures |Concatenated(files.batches, k)| > 0 <==> k > 0
    ensures k > 0 ==> Concatenated(files.batches, k)[0].body.backend == backend
  {
    hide BatchesValid, ValidBatch, ManifestFor, Concatenated;
    SetupFacts(ctx, s);
    LoadsPrefix(ctx, s, files, k, backend);
    PrefixPresent(ctx, s, files, k, backend);
    StartExact(s, k);
    StartExact(s, 0);
    StartGrows(s, k);
  }

  lemma StartGrows(s: Setup, k: nat)
    requires s.batchSize > 0 && |s.requests| > 0
    ensures Start(s, k) > 0 <==> k > 0
  {
    if k > 0 {
      Multiples(1, k, s.batchSize);
    }
  }

  // With no batch stored any backend may begin.
  lemma Rebase(ctx: Context, s: Setup, files: Files, k: nat, backend: Provenance, other: Provenance)
    requires s.batchSize > 0 && Good(ctx, s, files, k, backend) && k < Count(s)
    requires k > 0 ==> other == backend
    ensures Good(ctx, s, files, k, other)
  {
    hide ManifestFor, Concatenated;
  }

  // --- Histories ---

  datatype Launch = Launch(setup: Setup, attempt: Attempt)

  function History(ctx: Context, files: Files, launches: seq<Launch>): Files {
    if |launches| == 0 then files
    else
      var last := launches[|launches| - 1];
      Running(ctx, History(ctx, files, launches[..|launches| - 1]), last.setup, last.attempt).files
  }

  // Over any sequence of runs, each cut at any point, stored batches form a contiguous prefix and nothing stored ever
  // changes.
  lemma {:induction false} HistorySound(ctx: Context, files: Files, launches: seq<Launch>)
    requires PlansDistinct(ctx) && Sound(ctx, files)
    ensures Sound(ctx, History(ctx, files, launches)) && Extends(files, History(ctx, files, launches))
  {
    hide Running, Good;
    if |launches| > 0 {
      var front, last := launches[..|launches| - 1], launches[|launches| - 1];
      HistorySound(ctx, files, front);
      RunningKeeps(ctx, History(ctx, files, front), last.setup, last.attempt);
    }
  }

  // A run that reports completion has stored every request's row once, in frozen order and numbered from zero,
  // and the loader accepts the result.
  lemma CompletionIsWhole(ctx: Context, files: Files, s: Setup, a: Attempt)
    requires PlansDistinct(ctx) && Sound(ctx, files) && Running(ctx, files, s, a).outcome.Completed?
    ensures var st := Running(ctx, files, s, a);
            && RunIds(st.outcome.rows) == RequestIds(s.requests)
            && (forall j :: 0 <= j < |st.outcome.rows| ==> st.outcome.rows[j].body.dispatch == j)
            && LoadPhase(ctx, st.files) == Some(st.outcome.rows)
  {
    hide Resuming, Good;
    SetupFacts(ctx, s);
    var k, b: Provenance := 0, map[];
    if files == EMPTY {
      FreshPlan(ctx, s, a);
      k, b := ResumingKeeps(ctx, s, EMPTY.(plan := Some(PlanOf(ctx, s))), a, 0, map[], Less(a.writes));
    } else {
      var s', k', b' :| Good(ctx, s', files, k', b');
      PlanStored(ctx, s', files, k', b');
      k, b := ResumingKeeps(ctx, s, files, a, k', b', a.writes);
    }
    FinishedLoads(ctx, s, Running(ctx, files, s, a).files, k, b);
  }

  lemma FinishedLoads(ctx: Context, s: Setup, files: Files, k: nat, backend: Provenance)
    requires s.batchSize > 0 && Good(ctx, s, files, k, backend) && k == Count(s)
    requires files.merged.Some? && files.manifest.Some?
    ensures var rows := files.merged.value;
            && RunIds(rows) == RequestIds(s.requests)
            && (forall j :: 0 <= j < |rows| ==> rows[j].body.dispatch == j)
            && LoadPhase(ctx, files) == Some(rows)
  {
    hide BatchesValid, ValidBatch, Count, Matches, ValidSetup;
    SetupFacts(ctx, s);
    CompleteFinalizable(ctx, s, files, backend);
    LoadsPrefix(ctx, s, files, k, backend);
    var rows := Concatenated(files.batches, k);
    FittingRowsUnique(ctx, s, rows);
    FinalizableFacts(ctx, s, rows);
    forall j | 0 <= j < |rows|
      ensures rows[j].body.dispatch == j
    {
      assert RowFits(ctx, s, j, rows[j]);
    }
    BatchesAuthentic(ctx, s, files, backend);
  }

  lemma BatchesAuthentic(ctx: Context, s: Setup, files: Files, backend: Provenance)
    requires s.batchSize > 0 && Good(ctx, s, files, Count(s), backend) && files.manifest.Some?
    ensures AllPresent(files.batches, Count(s))
    ensures var items := files.manifest.value.summary.batchFiles;
            |items| == Count(s) && forall i :: 0 <= i < |items| ==> BatchAuthentic(ctx, files, items[i], i)
  {
    hide ManifestFor, Concatenated, ValidSetup, Matches;
    AllCommitted(ctx, s, files, backend);
    ManifestItems(ctx, s, files, backend);
    forall i | 0 <= i < Count(s)
      ensures BatchAuthentic(ctx, files, files.manifest.value.summary.batchFiles[i], i)
    {
      var rows := files.batches[i];
      assert ValidBatch(ctx, s, i, rows);
      forall o | 0 <= o < |rows|
        ensures rows[o].recordHash == ctx.hash(RowBody(rows[o].body))
      {
        assert ValidRow(ctx, s, i, o, rows[o]);
      }
    }
  }

  lemma ManifestItems(ctx: Context, s: Setup, files: Files, backend: Provenance)
    requires s.batchSize > 0 && Good(ctx, s, files, Count(s), backend) && files.manifest.Some?
    ensures AllPresent(files.batches, Count(s))
    ensures files.manifest.value.summary.batchFiles == BatchFiles(ctx, files.batches, Count(s))
  {
    hide Concatenated, ValidBatch;
  }

  // After every batch is stored, a crash while finalising is repaired by a run that has no backend at all.
  lemma FinalisingNeedsNoBackend(ctx: Context, files: Files, s: Setup, limit: Option<int>, backend: Provenance)
    requires s.batchSize > 0 && Good(ctx, s, files, Count(s), backend) && (limit.Some? ==> limit.value >= 0)
    ensures Running(ctx, files, s, Attempt(None, limit, None)).outcome.Completed?
  {
    hide Resuming, Good, ValidSetup;
    PlanStored(ctx, s, files, Count(s), backend);
    var k, b := ResumingKeeps(ctx, s, files, Attempt(None, limit, None), Count(s), backend, None);
  }

  // A run with a fitting backend that answers every remaining batch, no limit and no crash completes from any sound
  // checkpoint.
  lemma UnhinderedCompletes(ctx: Context, files: Files, s: Setup, a: Attempt, k: nat, backend: Provenance)
    requires Good(ctx, s, files, k, backend) && ValidAttempt(ctx, s, a) && s.batchSize > 0
    requires Unhindered(ctx, s, a, k, backend) && a.writes.None?
    ensures Running(ctx, files, s, a).outcome.Completed?
  {
    hide Resuming, Good, ValidSetup;
    PlanStored(ctx, s, files, k, backend);
    var to, b := ResumingKeeps(ctx, s, files, a, k, backend, None);
  }

  // --- The same result as a run that was never interrupted ---

  ghost predicate FromBackend(ctx: Context, s: Setup, files: Files, backend: Backend) {
    files == EMPTY
    || exists k, b ::
         && Good(ctx, s, files, k, b) && (k > 0 ==> b == backend.provenance)
         && AddedBy(ctx, s, backend, 0, k, files.batches)
  }

  lemma {:induction false} HistoryFromBackend(ctx: Context, s: Setup, backend: Backend, launches: seq<Launch>)
    requires PlansDistinct(ctx)
    requires forall i :: 0 <= i < |launches| ==>
               && launches[i].setup == s
               && (launches[i].attempt.backend.None? || launches[i].attempt.backend.value == backend)
    ensures FromBackend(ctx, s, History(ctx, EMPTY, launches), backend)
  {
    hide Good, AddedBy, Running;
    if |launches| > 0 {
      HistoryFromBackend(ctx, s, backend, launches[..|launches| - 1]);
      RunFromBackend(ctx, s, History(ctx, EMPTY, launches[..|launches| - 1]), backend,
                     launches[|launches| - 1].attempt);
    }
  }

  lemma RunFromBackend(ctx: Context, s: Setup, files: Files, backend: Backend, a: Attempt)
    requires PlansDistinct(ctx) && FromBackend(ctx, s, files, backend)
    requires a.backend.None? || a.backend.value == backend
    ensures FromBackend(ctx, s, Running(ctx, files, s, a).files, backend)
  {
    hide Good, Produced, Resuming;
    if ValidAttempt(ctx, s, a) {
      SetupFacts(ctx, s);
      if files == EMPTY {
        if a.writes != Some(0) {
          FreshPlan(ctx, s, a);
          var k, b := ResumingKeeps(ctx, s, EMPTY.(plan := Some(PlanOf(ctx, s))), a, 0, map[], Less(a.writes));
        }
      } else {
        var k, b :| Good(ctx, s, files, k, b) && (k > 0 ==> b == backend.provenance)
          && AddedBy(ctx, s, backend, 0, k, files.batches);
        PlanStored(ctx, s, files, k, b);
        var k', b' := ResumingKeeps(ctx, s, files, a, k, b, a.writes);
      }
    }
  }

  // Whatever crashes, limits and restarts came before, the files a completed phase leaves are those of one
  // uninterrupted run.
  lemma InterruptionsInvisible(ctx: Context, s: Setup, backend: Backend, launches: seq<Launch>, a: Attempt)
    requires PlansDistinct(ctx)
    requires forall i :: 0 <= i < |launches| ==>
               && launches[i].setup == s
               && (launches[i].attempt.backend.None? || launches[i].attempt.backend.value == backend)
    requires a.backend.None? || a.backend.value == backend
    requires Running(ctx, History(ctx, EMPTY, launches), s, a).outcome.Completed?
    ensures var whole := Running(ctx, EMPTY, s, Attempt(Some(backend), None, None));
            && whole.outcome == Running(ctx, History(ctx, EMPTY, launches), s, a).outcome
            && whole.files == Running(ctx, History(ctx, EMPTY, launches), s, a).files
  {
    hide Good, Produced, Resuming, AddedBy, Count;
    var before := History(ctx, EMPTY, launches);
    HistoryFromBackend(ctx, s, backend, launches);
    var k, b := CompletedFrom(ctx, s, before, backend, a);
    var full := Attempt(Some(backend), None, None);
    FreshPlan(ctx, s, a);
    ValidFull(ctx, s, a, backend);
    var start := EMPTY.(plan := Some(PlanOf(ctx, s)));
    BackendOk(ctx, s, Running(ctx, before, s, a).files, k, backend);
    assert Unhindered(ctx, s, full, 0, map[]);
    var k', b' := ResumingKeeps(ctx, s, start, full, 0, map[], None);
    var whole := Running(ctx, EMPTY, s, full);
    assert whole == Resuming(ctx, start, s, full, None);
    assert RunOutcome(ctx, s, whole, k');
    Determined(ctx, s, backend, Running(ctx, before, s, a).files, whole.files);
  }

  lemma ValidFull(ctx: Context, s: Setup, a: Attempt, backend: Backend)
    requires ValidAttempt(ctx, s, a)
    ensures ValidAttempt(ctx, s, Attempt(Some(backend), None, None))
  {
  }

  // A completed run's files, all from one backend.
  lemma CompletedFrom(ctx: Context, s: Setup, files: Files, backend: Backend, a: Attempt)
    returns (k: nat, b: Provenance)
    requires PlansDistinct(ctx) && FromBackend(ctx, s, files, backend)
             && (a.backend.None? || a.backend.value == backend)
    requires Running(ctx, files, s, a).outcome.Completed?
    ensures ValidAttempt(ctx, s, a) && s.batchSize > 0 && k == Count(s) && k > 0
    ensures var st := Running(ctx, files, s, a);
            && Good(ctx, s, st.files, k, backend.provenance) && AddedBy(ctx, s, backend, 0, k, st.files.batches)
            && st.files.merged == Some(st.outcome.rows) && st.files.manifest == Some(st.outcome.manifest)
  {
    hide Good, Produced, Resuming;
    SetupFacts(ctx, s);
    if files == EMPTY {
      FreshPlan(ctx, s, a);
      k, b := ResumingKeeps(ctx, s, EMPTY.(plan := Some(PlanOf(ctx, s))), a, 0, map[], Less(a.writes));
    } else {
      var k0, b0 :| Good(ctx, s, files, k0, b0) && (k0 > 0 ==> b0 == backend.provenance)
        && AddedBy(ctx, s, backend, 0, k0, files.batches);
      PlanStored(ctx, s, files, k0, b0);
      k, b := ResumingKeeps(ctx, s, files, a, k0, b0, a.writes);
    }
  }

  lemma BackendOk(ctx: Context, s: Setup, files: Files, k: nat, backend: Backend)
    requires s.batchSize > 0 && Good(ctx, s, files, k, backend.provenance) && k == Count(s) && k > 0
    requires AddedBy(ctx, s, backend, 0, k, files.batches)
    ensures Matches(backend.provenance, s.expected) && ctx.identity(s.environment, backend.provenance).Some?
    ensures forall i: nat :: i < Count(s) ==> Produced(ctx, s, backend, i).Some?
  {
    hide Matches, Produced, ManifestFor, Concatenated;
  }

  // The plan and the backend determine everything a completed phase stores.
  lemma Determined(ctx: Context, s: Setup, backend: Backend, a: Files, b: Files)
    requires s.batchSize > 0
    requires Good(ctx, s, a, Count(s), backend.provenance) && Good(ctx, s, b, Count(s), backend.provenance)
    requires AddedBy(ctx, s, backend, 0, Count(s), a.batches) && AddedBy(ctx, s, backend, 0, Count(s), b.batches)
    requires a.merged.Some? && b.merged.Some? && a.manifest.Some? && b.manifest.Some?
    ensures a == b
  {
    hide Matches, Produced, ManifestFor, Concatenated, ValidBatch;
    AllCommitted(ctx, s, a, backend.provenance);
    AllCommitted(ctx, s, b, backend.provenance);
    ConcatenatedSame(a.batches, b.batches, Count(s));
    assert a.batches == b.batches by {
      assert forall i: nat :: i in a.batches <==> i in b.batches;
    }
  }
}
