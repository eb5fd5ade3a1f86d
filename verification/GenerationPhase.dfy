// Crash-safe generation: a frozen plan, one durable file per microbatch, a merged file and a manifest.
// A crash may fall between any two durable writes.
module GenerationPhase {
  import opened Numbers
  import opened Options

  // --- What is frozen, stored and hashed ---

  datatype Request = Request(id: string, condition: string, content: string)

  type Provenance = map<string, string>

  datatype Setup = Setup(requests: seq<Request>, phase: string, batchSize: int, expected: Provenance,
                         environment: Provenance)

  datatype Plan = Plan(setup: Setup, planHash: string)

  datatype Body = Body(runId: string, text: string, phase: string, batchIndex: int, dispatch: int, planHash: string,
                       backend: Provenance)

  datatype Row = Row(body: Body, recordHash: string)

  datatype BatchFile = BatchFile(index: int, rowCount: int, sha: string, rowHashes: string)

  datatype Summary = Summary(phase: string, planHash: string, requestCount: int, rowCount: int, runIds: string,
                             rowHashes: string, backend: Provenance, backendHash: string, identity: string,
                             mergedSha: string, batchFiles: seq<BatchFile>)

  datatype Manifest = Manifest(summary: Summary, manifestHash: string)

  datatype Preimage =
    | PlanBody(setup: Setup)
    | PlanFile(plan: Plan)
    | RowBody(body: Body)
    | RowsFile(rows: seq<Row>)
    | Texts(texts: seq<string>)
    | BackendBody(backend: Provenance)
    | ManifestBody(summary: Summary)

  // stable_hash, the environment normalisation, and the shared environment identity (None where it raises).
  datatype Context = Context(hash: Preimage -> string, environmentOk: (Provenance, Provenance) -> bool,
                             identity: (Provenance, Provenance) -> Option<string>)

  datatype Files = Files(plan: Option<Plan>, batches: map<nat, seq<Row>>, merged: Option<seq<Row>>,
                         manifest: Option<Manifest>)

  const EMPTY := Files(None, map[], None, None)

  // --- The plan ---

  predicate DistinctRequests(requests: seq<Request>) {
    forall i, j :: 0 <= i < j < |requests| ==> requests[i].id != requests[j].id
  }

  predicate ConditionsFit(requests: seq<Request>, phase: string) {
    forall i :: 0 <= i < |requests| ==> (phase == "baseline" <==> requests[i].condition == "baseline")
  }

  predicate ValidSetup(ctx: Context, s: Setup) {
    && (s.phase == "baseline" || s.phase == "treatment")
    && |s.requests| > 0 && DistinctRequests(s.requests) && ConditionsFit(s.requests, s.phase)
    && s.batchSize > 0 && s.expected != map[] && ctx.environmentOk(s.environment, s.expected)
  }

  function Count(s: Setup): nat
    requires s.batchSize > 0
  {
    (|s.requests| + s.batchSize - 1) / s.batchSize
  }

  function PlanOf(ctx: Context, s: Setup): Plan {
    Plan(s, ctx.hash(PlanBody(s)))
  }

  // --- Batches ---

  // Where batch i starts; also the number of requests covered by the batches before it.
  function Start(s: Setup, i: nat): (n: nat)
    requires s.batchSize > 0
    ensures n <= |s.requests|
  {
    Times(i, s.batchSize);
    Min(i * s.batchSize, |s.requests|)
  }

  lemma Times(a: nat, b: int)
    requires b > 0
    ensures a * b >= 0
  {
  }

  function BatchRequests(s: Setup, i: nat): seq<Request>
    requires s.batchSize > 0
  {
    Ordered(s, i);
    s.requests[Start(s, i)..Start(s, i + 1)]
  }

  lemma Ordered(s: Setup, i: nat)
    requires s.batchSize > 0
    ensures Start(s, i) <= Start(s, i + 1)
  {
    assert (i + 1) * s.batchSize == i * s.batchSize + s.batchSize;
  }

  predicate Matches(actual: Provenance, expected: Provenance) {
    forall key :: key in expected ==> key in actual && actual[key] == expected[key]
  }

  predicate ValidRow(ctx: Context, s: Setup, i: nat, offset: nat, r: Row)
    requires s.batchSize > 0
  {
    && r.recordHash == ctx.hash(RowBody(r.body))
    && r.body.phase == s.phase && r.body.batchIndex == i && r.body.dispatch == i * s.batchSize + offset
    && r.body.planHash == PlanOf(ctx, s).planHash
    && Matches(r.body.backend, s.expected)
  }

  // _validate_batch_rows
  predicate ValidBatch(ctx: Context, s: Setup, i: nat, rows: seq<Row>)
    requires s.batchSize > 0
  {
    var requests := BatchRequests(s, i);
    && |rows| == |requests|
    && forall offset :: 0 <= offset < |rows| ==>
      rows[offset].body.runId == requests[offset].id && ValidRow(ctx, s, i, offset, rows[offset])
  }

  predicate UniqueRuns(rows: seq<Row>) {
    forall i, j :: 0 <= i < j < |rows| ==> rows[i].body.runId != rows[j].body.runId
  }

  datatype PhaseError =
    | BadArguments | PlanMismatch | NonContiguous | BadBatch | NoBackend | BackendMismatch | BadResults | BadFinal

  datatype Loaded = Loaded(rows: seq<Row>, firstMissing: nat)

  // _load_existing_batches from one index on.
  function Scan(ctx: Context, s: Setup, batches: map<nat, seq<Row>>, index: nat,
                missing: Option<nat>): Result<Loaded, PhaseError>
    requires s.batchSize > 0
    decreases Count(s) - index
  {
    if index >= Count(s) then Ok(Loaded([], if missing.Some? then missing.value else Count(s)))
    else if index !in batches then Scan(ctx, s, batches, index + 1, if missing.None? then Some(index) else missing)
    else if missing.Some? then Err(NonContiguous)
    else if !ValidBatch(ctx, s, index, batches[index]) || !UniqueRuns(batches[index]) then Err(BadBatch)
    else Before(batches[index], Scan(ctx, s, batches, index + 1, missing))
  }

  function Before(rows: seq<Row>, rest: Result<Loaded, PhaseError>): Result<Loaded, PhaseError> {
    if rest.Err? then rest else Ok(Loaded(rows + rest.value.rows, rest.value.firstMissing))
  }

  function LoadBatches(ctx: Context, s: Setup, batches: map<nat, seq<Row>>): Result<Loaded, PhaseError>
    requires s.batchSize > 0
  {
    var o := Scan(ctx, s, batches, 0, None);
    if o.Ok? && !UniqueRuns(o.value.rows) then Err(BadBatch) else o
  }

  // --- Generation of one batch ---

  datatype Generation = Generation(id: string, text: string)

  datatype Backend = Backend(provenance: Provenance, generate: seq<Request> -> Option<seq<Generation>>)

  function TextOf(results: seq<Generation>, id: string): Option<string> {
    if |results| == 0 then None
    else if results[|results| - 1].id == id then Some(results[|results| - 1].text)
    else TextOf(results[..|results| - 1], id)
  }

  predicate Asked(requests: seq<Request>, id: string) {
    exists i :: 0 <= i < |requests| && requests[i].id == id
  }

  predicate SameIds(requests: seq<Request>, results: seq<Generation>) {
    && (forall i :: 0 <= i < |requests| ==> TextOf(results, requests[i].id).Some?)
    && (forall j :: 0 <= j < |results| ==> Asked(requests, results[j].id))
  }

  function RowFor(ctx: Context, s: Setup, i: nat, offset: nat, r: Request, text: string, backend: Provenance): Row
    requires s.batchSize > 0
  {
    var body := Body(r.id, text, s.phase, i, i * s.batchSize + offset, PlanOf(ctx, s).planHash, backend);
    Row(body, ctx.hash(RowBody(body)))
  }

  // The rows of batch i as this backend produces them; None where generation or materialisation fails.
  function Produced(ctx: Context, s: Setup, backend: Backend, i: nat): Option<seq<Row>>
    requires s.batchSize > 0
  {
    var requests := BatchRequests(s, i);
    var results := backend.generate(requests);
    if results.None? || !SameIds(requests, results.value) then None
    else Some(seq(|requests|, offset requires 0 <= offset < |requests| =>
                RowFor(ctx, s, i, offset, requests[offset], TextOf(results.value, requests[offset].id).value,
                       backend.provenance)))
  }

  // --- Finalising ---

  function RunIds(rows: seq<Row>): seq<string> {
    seq(|rows|, i requires 0 <= i < |rows| => rows[i].body.runId)
  }

  function RecordHashes(rows: seq<Row>): seq<string> {
    seq(|rows|, i requires 0 <= i < |rows| => rows[i].recordHash)
  }

  function RequestIds(requests: seq<Request>): seq<string> {
    seq(|requests|, i requires 0 <= i < |requests| => requests[i].id)
  }

  predicate SameBackend(rows: seq<Row>, backend: Provenance) {
    forall i :: 0 <= i < |rows| ==> rows[i].body.backend == backend
  }

  predicate AllPresent(batches: map<nat, seq<Row>>, count: nat) {
    forall i: nat :: i < count ==> i in batches
  }

  function BatchFileOf(ctx: Context, i: nat, rows: seq<Row>): BatchFile {
    BatchFile(i, |rows|, ctx.hash(RowsFile(rows)), ctx.hash(Texts(RecordHashes(rows))))
  }

  function BatchFiles(ctx: Context, batches: map<nat, seq<Row>>, count: nat): seq<BatchFile>
    requires AllPresent(batches, count)
  {
    seq(count, i requires 0 <= i < count => BatchFileOf(ctx, i, batches[i]))
  }

  function ManifestFor(ctx: Context, s: Setup, batches: map<nat, seq<Row>>, rows: seq<Row>, identity: string): Manifest
    requires s.batchSize > 0 && |rows| > 0 && AllPresent(batches, Count(s))
  {
    var backend := rows[0].body.backend;
    var summary := Summary(s.phase, PlanOf(ctx, s).planHash, |s.requests|, |rows|, ctx.hash(Texts(RunIds(rows))),
                           ctx.hash(Texts(RecordHashes(rows))), backend, ctx.hash(BackendBody(backend)), identity,
                           ctx.hash(RowsFile(rows)), BatchFiles(ctx, batches, Count(s)));
    Manifest(summary, ctx.hash(ManifestBody(summary)))
  }

  datatype Outcome =
    | Crashed
    | Failed(error: PhaseError)
    | Stopped(rows: seq<Row>)
    | Completed(rows: seq<Row>, manifest: Manifest)

  datatype State = State(files: Files, outcome: Outcome)

  // How many durable writes are left before the crash; None when there is no crash.
  type Writes = Option<nat>

  function Less(w: Writes): Writes {
    if w.None? || w.value == 0 then w else Some(w.value - 1)
  }

  predicate Finalizable(ctx: Context, s: Setup, rows: seq<Row>) {
    && |rows| == |s.requests| > 0 && RunIds(rows) == RequestIds(s.requests)
    && SameBackend(rows, rows[0].body.backend)
    && ctx.identity(s.environment, rows[0].body.backend).Some?
  }

  // _finalize_generation_phase: the merged rows, then the manifest.
  function Finalized(ctx: Context, files: Files, s: Setup, rows: seq<Row>, writes: Writes): State
    requires s.batchSize > 0
  {
    if !Finalizable(ctx, s, rows) then State(files, Failed(BadFinal))
    else if files.merged.Some? && files.merged.value != rows then State(files, Failed(BadFinal))
    else if files.merged.None? && writes == Some(0) then State(files, Crashed)
    else if files.merged.None? then WriteManifest(ctx, files.(merged := Some(rows)), s, rows, Less(writes))
    else WriteManifest(ctx, files, s, rows, writes)
  }

  function WriteManifest(ctx: Context, files: Files, s: Setup, rows: seq<Row>, writes: Writes): State
    requires s.batchSize > 0 && Finalizable(ctx, s, rows)
  {
    if !AllPresent(files.batches, Count(s)) then State(files, Failed(BadFinal))
    else
      var manifest := ManifestFor(ctx, s, files.batches, rows, ctx.identity(s.environment, rows[0].body.backend).value);
      if files.manifest.Some?
        then State(files, if files.manifest.value == manifest then Completed(rows, manifest) else Failed(BadFinal))
      else if writes == Some(0) then State(files, Crashed)
      else State(files.(manifest := Some(manifest)), Completed(rows, manifest))
  }

  // --- One run ---

  datatype Attempt = Attempt(backend: Option<Backend>, limit: Option<int>, writes: Writes)

  predicate BackendFits(ctx: Context, s: Setup, rows: seq<Row>, provenance: Provenance) {
    && Matches(provenance, s.expected)
    && (|rows| > 0 ==> rows[0].body.backend == provenance)
    && ctx.identity(s.environment, provenance).Some?
  }

  function Generating(ctx: Context, files: Files, s: Setup, backend: Backend, rows: seq<Row>, index: nat,
                      left: Option<int>, writes: Writes): State
    requires s.batchSize > 0
    decreases Count(s) - index
  {
    if index >= Count(s) || (left.Some? && left.value <= 0) then
      (if |rows| == |s.requests| then Finalized(ctx, files, s, rows, writes) else State(files, Stopped(rows)))
    else
      var produced := Produced(ctx, s, backend, index);
      if produced.None? then State(files, Failed(BadResults))
      else if !ValidBatch(ctx, s, index, produced.value) || !UniqueRuns(produced.value)
        then State(files, Failed(BadBatch))
      else if index in files.batches then State(files, Failed(BadBatch))
      else if writes == Some(0) then State(files, Crashed)
      else Generating(ctx, files.(batches := files.batches[index := produced.value]), s, backend,
                      rows + produced.value, index + 1, if left.None? then None else Some(left.value - 1), Less(writes))
  }

  function Resuming(ctx: Context, files: Files, s: Setup, a: Attempt, writes: Writes): State
    requires s.batchSize > 0
  {
    var loaded := LoadBatches(ctx, s, files.batches);
    if loaded.Err? then State(files, Failed(loaded.error))
    else if loaded.value.firstMissing == Count(s) then Finalized(ctx, files, s, loaded.value.rows, writes)
    else if a.limit == Some(0) then State(files, Stopped(loaded.value.rows))
    else if a.backend.None? then State(files, Failed(NoBackend))
    else if !BackendFits(ctx, s, loaded.value.rows, a.backend.value.provenance)
      then State(files, Failed(BackendMismatch))
    else Generating(ctx, files, s, a.backend.value, loaded.value.rows, loaded.value.firstMissing, a.limit, writes)
  }

  predicate ValidAttempt(ctx: Context, s: Setup, a: Attempt) {
    ValidSetup(ctx, s) && (a.limit.Some? ==> a.limit.value >= 0)
  }

  // run_behavioral_generation_phase on the files as they are.
  function Running(ctx: Context, files: Files, s: Setup, a: Attempt): State {
    if !ValidAttempt(ctx, s, a) then State(files, Failed(BadArguments))
    else
      var plan := PlanOf(ctx, s);
      if files.plan.Some? then
        (if ctx.hash(PlanFile(files.plan.value)) != ctx.hash(PlanFile(plan)) then State(files, Failed(PlanMismatch))
         else Resuming(ctx, files, s, a, a.writes))
      else if a.writes == Some(0) then State(files, Crashed)
      else Resuming(ctx, files.(plan := Some(plan)), s, a, Less(a.writes))
  }

  // --- The run as it is carried out on the checkpoint directory ---

  class Checkpoint {
    var plan: Option<Plan>
    var batches: map<nat, seq<Row>>
    var merged: Option<seq<Row>>
    var manifest: Option<Manifest>

    constructor ()
      ensures Contents() == EMPTY
    {
      plan, batches, merged, manifest := None, map[], None, None;
    }

    function Contents(): Files
      reads this
    {
      Files(plan, batches, merged, manifest)
    }

    method LoadExisting(ctx: Context, s: Setup) returns (result: Result<Loaded, PhaseError>)
      requires s.batchSize > 0
      ensures result == LoadBatches(ctx, s, batches)
    {
      hide ValidBatch, UniqueRuns;
      var rows: seq<Row> := [];
      var missing: Option<nat> := None;
      var index: nat := 0;
      PrependNothing(Scan(ctx, s, batches, 0, None));
      while index < Count(s)
        invariant index <= Count(s)
        invariant Scan(ctx, s, batches, 0, None) == Before(rows, Scan(ctx, s, batches, index, missing))
      {
        if index !in batches {
          if missing.None? {
            missing := Some(index);
          }
        } else {
          if missing.Some? {
            return Err(NonContiguous);
          }
          if !ValidBatch(ctx, s, index, batches[index]) || !UniqueRuns(batches[index]) {
            return Err(BadBatch);
          }
          PrependTwice(rows, batches[index], Scan(ctx, s, batches, index + 1, missing));
          rows := rows + batches[index];
        }
        index := index + 1;
      }
      assert rows + [] == rows;
      if !UniqueRuns(rows) {
        return Err(BadBatch);
      }
      return Ok(Loaded(rows, if missing.Some? then missing.value else Count(s)));
    }

    method Finalize(ctx: Context, s: Setup, rows: seq<Row>, writes: Writes) returns (outcome: Outcome)
      requires s.batchSize > 0
      modifies this
      ensures State(Contents(), outcome) == Finalized(ctx, old(Contents()), s, rows, writes)
    {
      hide Finalizable, ManifestFor;
      if !Finalizable(ctx, s, rows) {
        return Failed(BadFinal);
      }
      var remaining := writes;
      if merged.Some? {
        if merged.value != rows {
          return Failed(BadFinal);
        }
      } else {
        if remaining == Some(0) {
          return Crashed;
        }
        merged := Some(rows);
        remaining := Less(remaining);
      }
      var present := CheckPresent(Count(s));
      if !present {
        return Failed(BadFinal);
      }
      HasIdentity(ctx, s, rows);
      var manifest' := ManifestFor(ctx, s, batches, rows, ctx.identity(s.environment, rows[0].body.backend).value);
      if manifest.Some? {
        if manifest.value != manifest' {
          return Failed(BadFinal);
        }
        return Completed(rows, manifest');
      }
      if remaining == Some(0) {
        return Crashed;
      }
      manifest := Some(manifest');
      return Completed(rows, manifest');
    }

    method CheckPresent(count: nat) returns (present: bool)
      ensures present == AllPresent(batches, count)
    {
      for i := 0 to count
        invariant AllPresent(batches, i)
      {
        if i !in batches {
          return false;
        }
      }
      return true;
    }

    // The crash falls after the given number of durable writes.
    method Run(ctx: Context, s: Setup, a: Attempt) returns (outcome: Outcome)
      modifies this
      ensures State(Contents(), outcome) == Running(ctx, old(Contents()), s, a)
    {
      hide LoadBatches, Finalized, Produced, ValidBatch, UniqueRuns, BackendFits;
      if !ValidAttempt(ctx, s, a) {
        return Failed(BadArguments);
      }
      var writes := a.writes;
      if plan.Some? {
        if ctx.hash(PlanFile(plan.value)) != ctx.hash(PlanFile(PlanOf(ctx, s))) {
          return Failed(PlanMismatch);
        }
      } else {
        if writes == Some(0) {
          return Crashed;
        }
        plan := Some(PlanOf(ctx, s));
        writes := Less(writes);
      }
      var loaded := LoadExisting(ctx, s);
      if loaded.Err? {
        return Failed(loaded.error);
      }
      var rows, index := loaded.value.rows, loaded.value.firstMissing;
      if index == Count(s) {
        outcome := Finalize(ctx, s, rows, writes);
        return;
      }
      if a.limit == Some(0) {
        return Stopped(rows);
      }
      if a.backend.None? {
        return Failed(NoBackend);
      }
      var backend := a.backend.value;
      if !BackendFits(ctx, s, rows, backend.provenance) {
        return Failed(BackendMismatch);
      }
      var left := a.limit;
      while index < Count(s) && !(left.Some? && left.value <= 0)
        invariant Running(ctx, old(Contents()), s, a) ==
                  Generating(ctx, Contents(), s, backend, rows, index, left, writes)
        decreases Count(s) - index
      {
        var produced := Produced(ctx, s, backend, index);
        if produced.None? {
          return Failed(BadResults);
        }
        if !ValidBatch(ctx, s, index, produced.value) || !UniqueRuns(produced.value) {
          return Failed(BadBatch);
        }
        if index in batches {
          return Failed(BadBatch);
        }
        if writes == Some(0) {
          return Crashed;
        }
        batches := batches[index := produced.value];
        writes := Less(writes);
        rows := rows + produced.value;
        left := if left.None? then None else Some(left.value - 1);
        index := index + 1;
      }
      if |rows| == |s.requests| {
        outcome := Finalize(ctx, s, rows, writes);
        return;
      }
      return Stopped(rows);
    }
  }

  lemma HasIdentity(ctx: Context, s: Setup, rows: seq<Row>)
    requires Finalizable(ctx, s, rows)
    ensures |rows| > 0 && ctx.identity(s.environment, rows[0].body.backend).Some?
  {
  }

  lemma PrependNothing(rest: Result<Loaded, PhaseError>)
    ensures Before([], rest) == rest
  {
    if rest.Ok? {
      assert [] + rest.value.rows == rest.value.rows;
    }
  }

  lemma PrependTwice(a: seq<Row>, b: seq<Row>, rest: Result<Loaded, PhaseError>)
    ensures Before(a, Before(b, rest)) == Before(a + b, rest)
  {
    if rest.Ok? {
      assert a + (b + rest.value.rows) == (a + b) + rest.value.rows;
    }
  }

  // --- Reading a completed phase ---

  predicate BatchAuthentic(ctx: Context, files: Files, item: BatchFile, index: nat) {
    && item.index == index && index in files.batches
    && item == BatchFileOf(ctx, index, files.batches[index])
    && forall k :: 0 <= k < |files.batches[index]| ==>
         files.batches[index][k].recordHash == ctx.hash(RowBody(files.batches[index][k].body))
  }

  function Concatenated(batches: map<nat, seq<Row>>, count: nat): seq<Row>
    requires AllPresent(batches, count)
  {
    if count == 0 then [] else Concatenated(batches, count - 1) + batches[count - 1]
  }

  // load_behavioral_generation_phase: the rows, or None where a check fails.
  function LoadPhase(ctx: Context, files: Files): Option<seq<Row>> {
    if files.plan.None? || files.manifest.None? then None
    else
      var plan, m := files.plan.value, files.manifest.value;
      var s, summary := plan.setup, m.summary;
      if s.batchSize <= 0 || plan.planHash != ctx.hash(PlanBody(s))
        || m.manifestHash != ctx.hash(ManifestBody(summary)) then None
      else if summary.planHash != plan.planHash
        || ctx.identity(s.environment, summary.backend) != Some(summary.identity) then None
      else if |summary.batchFiles| != Count(s) || !AllPresent(files.batches, Count(s))
              || !(forall i :: 0 <= i < |summary.batchFiles| ==>
                   BatchAuthentic(ctx, files, summary.batchFiles[i], i)) then None
      else
        var rows := Concatenated(files.batches, Count(s));
        if RunIds(rows) != RequestIds(s.requests) then None
        else if files.merged != Some(rows) || summary.mergedSha != ctx.hash(RowsFile(rows)) then None
        else if |rows| != summary.rowCount || |rows| != |s.requests|
          || summary.rowHashes != ctx.hash(Texts(RecordHashes(rows))) then None
        else if summary.backendHash != ctx.hash(BackendBody(summary.backend)) || !SameBackend(rows, summary.backend)
          then None
        else if !UniqueRuns(rows) then None
        else Some(rows)
  }
}
