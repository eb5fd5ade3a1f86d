// Resumable adjudication: six parallel logs, rewritten one after another for every completed unit.
// A crash may fall between any two file writes.
module AdjudicationPhase {
  import opened Numbers
  import opened Options

  // --- Cases, judges and instruments ---

  datatype Source = Source(runId: string, recordHash: string, task: string, trace: string, answer: string)

  datatype Case = Case(task: string, trace: string, answer: string)

  datatype Instrument = FinalAnswer | Trajectory

  datatype Reading = Reading(status: string, value: Option<int>)

  datatype Provenance = Provenance(provider: string, modelId: string, revision: string, version: string,
                                   decoding: map<string, string>)

  // The judges answer as functions of the request.
  datatype Judges = Judges(primary: (Instrument, Case) -> string, independent: Case -> string,
                           provenance: Case -> Provenance, metadata: Case -> map<string, string>)

  // The measurement the primary responses lead to: a row, a manifest and a raw record.
  datatype Measured = Measured(row: string, manifest: string, raw: string)

  datatype Context = Context(
    hash: Preimage -> string,
    parseFinal: string -> Option<Reading>,
    parsesTrajectory: string -> bool,
    measure: (Source, string, string) -> Measured,
    instrumentHash: string)

  // --- Log entries ---

  datatype RowBody = RowBody(runId: string, sourceHash: string, content: string, failures: seq<Instrument>,
                             independentFailure: bool)

  datatype ManifestBody = ManifestBody(runId: string, content: string, failures: seq<Instrument>)

  datatype RawBody = RawBody(runId: string, content: string, final: string, trajectory: string,
                             failures: seq<Instrument>)

  datatype JudgmentBody = JudgmentBody(
    unitId: string, caseHash: string, requestId: string, instrumentHash: string, responseHash: string,
    status: string, value: Option<int>, provenance: Provenance, usageHash: Option<string>, terminal: Option<string>)

  datatype ResponseBody = ResponseBody(unitId: string, caseHash: string, requestId: string, response: string,
                                       terminal: Option<string>)

  datatype UsageBody = UsageBody(unitId: string, requestId: string, provenance: Provenance, usage: map<string, string>,
                                 terminal: Option<string>)

  datatype Hashed<T> = Hashed(body: T, recordHash: string)

  datatype Preimage =
    | OfRow(row: RowBody)
    | OfManifest(manifest: ManifestBody)
    | OfRaw(raw: RawBody)
    | OfJudgment(judgment: JudgmentBody)
    | OfResponse(response: ResponseBody)
    | OfUsage(usage: UsageBody)
    | OfCase(case_: Case)
    | OfRequest(request: Case)
    | OfText(text: string)
    | OfUsageMap(entries: map<string, string>)

  const MALFORMED := "malformed_independent_final"

  // --- The independent record ---

  datatype Judgment = Judgment(unitId: string, caseHash: string, requestId: string, instrumentHash: string,
                               response: string, status: string, value: Option<int>, provenance: Provenance,
                               usage: map<string, string>)

  const PUBLIC_DECODING: set<string> :=
    {"temperature", "top_p", "top_k", "max_tokens", "response_format", "explicit_reasoning", "seed",
     "preflight_input_bound"}

  const PUBLIC_USAGE: set<string> :=
    {"calls_completed", "purpose", "logical_request_hash", "provider_response_id_hash", "request_id_hash",
     "response_model", "response_provider", "attempts_used", "input_tokens", "prompt_tokens", "output_tokens",
     "completion_tokens", "reported_cost_usd", "computed_cost_usd", "charged_cost_usd", "cost_usd",
     "preflight_upper_bound_usd", "api_total_usd", "replayed_from_checkpoint", "paid_response_checkpoint_hash"}

  function Kept(m: map<string, string>, fields: set<string>): map<string, string> {
    map key | key in m && key in fields :: m[key]
  }

  function PublicProvenance(p: Provenance): Provenance {
    p.(decoding := Kept(p.decoding, PUBLIC_DECODING))
  }

  // Building a record: only its public parts are kept, and the stored reading must be what the response says.
  function MakeJudgment(ctx: Context, j: Judgment): Option<Judgment> {
    if j.unitId == "" || j.provenance.provider == "" || j.provenance.modelId == "" then None
    else if ctx.parseFinal(j.response) != Some(Reading(j.status, j.value)) then None
    else Some(j.(provenance := PublicProvenance(j.provenance), usage := Kept(j.usage, PUBLIC_USAGE)))
  }

  function JudgmentManifest(ctx: Context, j: Judgment): Hashed<JudgmentBody> {
    var body := JudgmentBody(j.unitId, j.caseHash, j.requestId, j.instrumentHash, ctx.hash(OfText(j.response)),
                             j.status, j.value, j.provenance, Some(ctx.hash(OfUsageMap(j.usage))), None);
    Hashed(body, ctx.hash(OfJudgment(body)))
  }

  function JudgmentResponse(ctx: Context, j: Judgment): Hashed<ResponseBody> {
    var body := ResponseBody(j.unitId, j.caseHash, j.requestId, j.response, None);
    Hashed(body, ctx.hash(OfResponse(body)))
  }

  function JudgmentUsage(ctx: Context, j: Judgment): Hashed<UsageBody> {
    var body := UsageBody(j.unitId, j.requestId, j.provenance, j.usage, None);
    Hashed(body, ctx.hash(OfUsage(body)))
  }

  // --- One unit ---

  datatype Unit = Unit(row: Hashed<RowBody>, manifest: Hashed<ManifestBody>, raw: Hashed<RawBody>,
                       judgment: Hashed<JudgmentBody>, response: Hashed<ResponseBody>, usage: Hashed<UsageBody>,
                       record: Option<Judgment>)

  const UNKNOWN_FINAL := "{\"status\":\"UNKNOWN\",\"value\":null}"
  const UNKNOWN_TRAJECTORY := "{\"status\":\"UNKNOWN\",\"values\":[]}"

  predicate WellFormedResponse(ctx: Context, i: Instrument, raw: string) {
    if i.FinalAnswer? then ctx.parseFinal(raw).Some? else ctx.parsesTrajectory(raw)
  }

  // What the measurement sees: a malformed response is replaced by an explicit unknown.
  function Isolated(ctx: Context, i: Instrument, raw: string): string {
    if WellFormedResponse(ctx, i, raw) then raw else if i.FinalAnswer? then UNKNOWN_FINAL else UNKNOWN_TRAJECTORY
  }

  function CaseOf(s: Source): Case {
    Case(s.task, s.trace, s.answer)
  }

  function Failures(ctx: Context, final: string, trajectory: string): seq<Instrument> {
    (if WellFormedResponse(ctx, FinalAnswer, final) then [] else [FinalAnswer])
    + (if WellFormedResponse(ctx, Trajectory, trajectory) then [] else [Trajectory])
  }

  datatype Independent = Independent(judgment: Hashed<JudgmentBody>, response: Hashed<ResponseBody>,
                                     usage: Hashed<UsageBody>, record: Option<Judgment>)

  // _collect_independent_final_safely; None where it raises.
  function CollectIndependent(ctx: Context, judges: Judges, s: Source): Option<Independent> {
    var c := CaseOf(s);
    var raw := judges.independent(c);
    var caseHash, requestId := ctx.hash(OfCase(c)), ctx.hash(OfRequest(c));
    if s.runId == "" then None
    else match ctx.parseFinal(raw)
      case None =>
        var body := JudgmentBody(s.runId, caseHash, requestId, ctx.instrumentHash, ctx.hash(OfText(raw)),
                                 "MALFORMED", None, judges.provenance(c).(decoding := map[]), None, Some(MALFORMED));
        var response := ResponseBody(s.runId, caseHash, requestId, raw, Some(MALFORMED));
        var usage := UsageBody(s.runId, requestId, judges.provenance(c).(decoding := map[]), map[], Some(MALFORMED));
        Some(Independent(Hashed(body, ctx.hash(OfJudgment(body))), Hashed(response, ctx.hash(OfResponse(response))),
                         Hashed(usage, ctx.hash(OfUsage(usage))), None))
      case Some(reading) =>
        var judgment := Judgment(s.runId, caseHash, requestId, ctx.instrumentHash, raw, reading.status, reading.value,
                                 judges.provenance(c), judges.metadata(c));
        var made := MakeJudgment(ctx, judgment);
        if made.None? then None
        else Some(Independent(JudgmentManifest(ctx, made.value), JudgmentResponse(ctx, made.value),
                              JudgmentUsage(ctx, made.value), made))
  }

  function Measure(ctx: Context, judges: Judges, s: Source): Option<Unit> {
    var c := CaseOf(s);
    var final, trajectory := judges.primary(FinalAnswer, c), judges.primary(Trajectory, c);
    var failures := Failures(ctx, final, trajectory);
    var measured := ctx.measure(s, Isolated(ctx, FinalAnswer, final), Isolated(ctx, Trajectory, trajectory));
    var independent := CollectIndependent(ctx, judges, s);
    if independent.None? then None
    else
      var row := RowBody(s.runId, s.recordHash, measured.row, failures, independent.value.record.None?);
      var manifest := ManifestBody(s.runId, measured.manifest, failures);
      var raw := RawBody(s.runId, measured.raw, final, trajectory, failures);
      Some(Unit(Hashed(row, ctx.hash(OfRow(row))), Hashed(manifest, ctx.hash(OfManifest(manifest))),
                Hashed(raw, ctx.hash(OfRaw(raw))), independent.value.judgment, independent.value.response,
                independent.value.usage, independent.value.record))
  }

  // The caller that isolates malformed responses, and remembers every raw one.
  class IsolatingCaller {
    var raws: map<Instrument, string>
    var failures: set<Instrument>

    constructor ()
      ensures raws == map[] && failures == {}
    {
      raws, failures := map[], {};
    }

    method Complete(ctx: Context, judges: Judges, i: Instrument, c: Case) returns (seen: string)
      modifies this
      ensures seen == Isolated(ctx, i, judges.primary(i, c))
      ensures raws == old(raws)[i := judges.primary(i, c)]
      ensures failures == old(failures) + (if WellFormedResponse(ctx, i, judges.primary(i, c)) then {} else {i})
    {
      var raw := judges.primary(i, c);
      raws := raws[i := raw];
      if !WellFormedResponse(ctx, i, raw) {
        failures := failures + {i};
        if i.FinalAnswer? {
          return UNKNOWN_FINAL;
        }
        return UNKNOWN_TRAJECTORY;
      }
      return raw;
    }
  }

  method MeasureUnit(ctx: Context, judges: Judges, s: Source) returns (result: Option<Unit>)
    ensures result == Measure(ctx, judges, s)
  {
    hide CollectIndependent, WellFormedResponse;
    var caller := new IsolatingCaller();
    var c := CaseOf(s);
    var final := caller.Complete(ctx, judges, FinalAnswer, c);
    var trajectory := caller.Complete(ctx, judges, Trajectory, c);
    var measured := ctx.measure(s, final, trajectory);
    var failures: seq<Instrument> := [];
    if FinalAnswer in caller.failures {
      failures := failures + [FinalAnswer];
    }
    if Trajectory in caller.failures {
      failures := failures + [Trajectory];
    }
    var independent := CollectIndependent(ctx, judges, s);
    if independent.None? {
      return None;
    }
    var row := RowBody(s.runId, s.recordHash, measured.row, failures, independent.value.record.None?);
    var manifest := ManifestBody(s.runId, measured.manifest, failures);
    var raw := RawBody(s.runId, measured.raw, caller.raws[FinalAnswer], caller.raws[Trajectory], failures);
    assert failures == Failures(ctx, judges.primary(FinalAnswer, c), judges.primary(Trajectory, c));
    return Some(Unit(Hashed(row, ctx.hash(OfRow(row))), Hashed(manifest, ctx.hash(OfManifest(manifest))),
                     Hashed(raw, ctx.hash(OfRaw(raw))), independent.value.judgment, independent.value.response,
                     independent.value.usage, independent.value.record));
  }

  // --- The six logs ---

  datatype Logs = Logs(rows: seq<Hashed<RowBody>>, manifests: seq<Hashed<ManifestBody>>, raws: seq<Hashed<RawBody>>,
                       judgments: seq<Hashed<JudgmentBody>>, responses: seq<Hashed<ResponseBody>>,
                       usages: seq<Hashed<UsageBody>>)

  const NO_LOGS := Logs([], [], [], [], [], [])

  function Extended(l: Logs, u: Unit): Logs {
    Logs(l.rows + [u.row], l.manifests + [u.manifest], l.raws + [u.raw],
         l.judgments + [u.judgment], l.responses + [u.response], l.usages + [u.usage])
  }

  datatype Files = Files(rows: Option<seq<Hashed<RowBody>>>, manifests: Option<seq<Hashed<ManifestBody>>>,
                         raws: Option<seq<Hashed<RawBody>>>, judgments: Option<seq<Hashed<JudgmentBody>>>,
                         responses: Option<seq<Hashed<ResponseBody>>>, usages: Option<seq<Hashed<UsageBody>>>)

  const NO_FILES := Files(None, None, None, None, None, None)

  // The files after the first j of the six writes.
  function Written(f: Files, l: Logs, j: nat): Files {
    Files(if j >= 1 then Some(l.rows) else f.rows, if j >= 2 then Some(l.manifests) else f.manifests,
          if j >= 3 then Some(l.raws) else f.raws, if j >= 4 then Some(l.judgments) else f.judgments,
          if j >= 5 then Some(l.responses) else f.responses, if j >= 6 then Some(l.usages) else f.usages)
  }

  // --- Loading a checkpoint ---

  datatype PhaseError =
    | Incomplete | LengthsDisagree | TooLong | HashMismatch | SourceMismatch | UnknownDisposition | NotReconstructed
    | ContentMismatch | UnitFailed

  datatype State = State(logs: Logs, records: seq<Judgment>, consensus: seq<Judgment>)

  predicate HashesValid(ctx: Context, l: Logs, i: nat)
    requires i < |l.rows| == |l.manifests| == |l.raws| == |l.judgments| == |l.responses| == |l.usages|
  {
    && l.rows[i].recordHash == ctx.hash(OfRow(l.rows[i].body))
    && l.manifests[i].recordHash == ctx.hash(OfManifest(l.manifests[i].body))
    && l.raws[i].recordHash == ctx.hash(OfRaw(l.raws[i].body))
    && l.judgments[i].recordHash == ctx.hash(OfJudgment(l.judgments[i].body))
    && l.responses[i].recordHash == ctx.hash(OfResponse(l.responses[i].body))
    && l.usages[i].recordHash == ctx.hash(OfUsage(l.usages[i].body))
  }

  predicate SourcesMatch(l: Logs, i: nat, s: Source)
    requires i < |l.rows| == |l.manifests| == |l.raws| == |l.judgments| == |l.responses| == |l.usages|
  {
    && l.rows[i].body.runId == s.runId && l.manifests[i].body.runId == s.runId && l.raws[i].body.runId == s.runId
    && l.judgments[i].body.unitId == s.runId && l.responses[i].body.unitId == s.runId
    && l.usages[i].body.unitId == s.runId
    && l.rows[i].body.sourceHash == s.recordHash
  }

  // The independent record stored at one index: none where the response was malformed.
  function StoredRecord(ctx: Context, l: Logs, i: nat, s: Source): Result<Option<Judgment>, PhaseError>
    requires i < |l.rows| == |l.manifests| == |l.raws| == |l.judgments| == |l.responses| == |l.usages|
  {
    var j := l.judgments[i].body;
    if !HashesValid(ctx, l, i) then Err(HashMismatch)
    else if !SourcesMatch(l, i, s) then Err(SourceMismatch)
    else if j.terminal.Some? then (if j.terminal != Some(MALFORMED) then Err(UnknownDisposition) else Ok(None))
    else
      var judgment := Judgment(s.runId, j.caseHash, j.requestId, j.instrumentHash, l.responses[i].body.response,
                               j.status, j.value, j.provenance, l.usages[i].body.usage);
      var made := MakeJudgment(ctx, judgment);
      if made.None? then Err(NotReconstructed)
      else if JudgmentManifest(ctx, made.value) != l.judgments[i] then Err(ContentMismatch)
      else Ok(made)
  }

  function WithRecord(st: State, record: Option<Judgment>, failures: seq<Instrument>): State {
    if record.None? then st
    else st.(records := st.records + [record.value],
             consensus := if FinalAnswer in failures then st.consensus else st.consensus + [record.value])
  }

  // The records of the first k units.
  function Rebuilt(ctx: Context, l: Logs, sources: seq<Source>, k: nat): Result<State, PhaseError>
    requires k <= |l.rows| == |l.manifests| == |l.raws| == |l.judgments| == |l.responses| == |l.usages|
             && k <= |sources|
  {
    if k == 0 then Ok(State(l, [], []))
    else
      var front := Rebuilt(ctx, l, sources, k - 1);
      if front.Err? then front
      else
        var record := StoredRecord(ctx, l, k - 1, sources[k - 1]);
        if record.Err? then Err(record.error)
        else Ok(WithRecord(front.value, record.value, l.rows[k - 1].body.failures))
  }

  predicate NonePresent(f: Files) {
    f == NO_FILES
  }

  predicate AllPresent(f: Files) {
    f.rows.Some? && f.manifests.Some? && f.raws.Some? && f.judgments.Some? && f.responses.Some? && f.usages.Some?
  }

  function LogsIn(f: Files): Logs
    requires AllPresent(f)
  {
    Logs(f.rows.value, f.manifests.value, f.raws.value, f.judgments.value, f.responses.value, f.usages.value)
  }

  predicate SameLengths(l: Logs) {
    |l.rows| == |l.manifests| == |l.raws| == |l.judgments| == |l.responses| == |l.usages|
  }

  // _load_checkpoint_state
  function Loaded(ctx: Context, f: Files, sources: seq<Source>): Result<State, PhaseError> {
    if NonePresent(f) then Ok(State(NO_LOGS, [], []))
    else if !AllPresent(f) then Err(Incomplete)
    else if !SameLengths(LogsIn(f)) then Err(LengthsDisagree)
    else if |f.rows.value| > |sources| then Err(TooLong)
    else Rebuilt(ctx, LogsIn(f), sources, |f.rows.value|)
  }

  // --- The phase ---

  type Writes = Option<nat>

  datatype Outcome = Crashed | Failed(error: PhaseError) | Finished(state: State)

  datatype Progress = Progress(files: Files, outcome: Outcome)

  // From the state after some completed units to the end, or to the crash.
  function Continuing(ctx: Context, judges: Judges, f: Files, sources: seq<Source>, st: State, index: nat,
                      writes: Writes): Progress
    decreases |sources| - index
  {
    if index >= |sources| then Progress(f, Finished(st))
    else
      var u := Measure(ctx, judges, sources[index]);
      if u.None? then Progress(f, Failed(UnitFailed))
      else
        var next := WithRecord(st.(logs := Extended(st.logs, u.value)), u.value.record, u.value.row.body.failures);
        if writes.Some? && writes.value < 6 then Progress(Written(f, next.logs, writes.value), Crashed)
        else Continuing(ctx, judges, Written(f, next.logs, 6), sources, next, index + 1,
                        if writes.None? then None else Some(writes.value - 6))
  }

  // _adjudicate_generation_rows on the files as they are.
  function Adjudicating(ctx: Context, judges: Judges, f: Files, sources: seq<Source>, writes: Writes): Progress {
    var loaded := Loaded(ctx, f, sources);
    if loaded.Err? then Progress(f, Failed(loaded.error))
    else Continuing(ctx, judges, f, sources, loaded.value, |loaded.value.logs.rows|, writes)
  }

  class Checkpoint {
    var rows: Option<seq<Hashed<RowBody>>>
    var manifests: Option<seq<Hashed<ManifestBody>>>
    var raws: Option<seq<Hashed<RawBody>>>
    var judgments: Option<seq<Hashed<JudgmentBody>>>
    var responses: Option<seq<Hashed<ResponseBody>>>
    var usages: Option<seq<Hashed<UsageBody>>>

    constructor ()
      ensures Contents() == NO_FILES
    {
      rows, manifests, raws, judgments, responses, usages := None, None, None, None, None, None;
    }

    function Contents(): Files
      reads this
    {
      Files(rows, manifests, raws, judgments, responses, usages)
    }

    method LoadState(ctx: Context, sources: seq<Source>) returns (result: Result<State, PhaseError>)
      ensures result == Loaded(ctx, Contents(), sources)
    {
      hide StoredRecord;
      var f := Contents();
      if NonePresent(f) {
        return Ok(State(NO_LOGS, [], []));
      }
      if !AllPresent(f) {
        return Err(Incomplete);
      }
      var logs := LogsIn(f);
      if !SameLengths(logs) {
        return Err(LengthsDisagree);
      }
      var completed := |logs.rows|;
      if completed > |sources| {
        return Err(TooLong);
      }
      var st := State(logs, [], []);
      var index := 0;
      while index < completed
        invariant index <= completed && Rebuilt(ctx, logs, sources, index) == Ok(st)
      {
        var record := StoredRecord(ctx, logs, index, sources[index]);
        if record.Err? {
          StaysRefused(ctx, logs, sources, index + 1, completed);
          return Err(record.error);
        }
        st := WithRecord(st, record.value, logs.rows[index].body.failures);
        index := index + 1;
      }
      return Ok(st);
    }

    // _checkpoint_completed_units: six writes, cut off after the given number of them.
    method WriteAll(l: Logs, writes: Writes) returns (done: bool)
      modifies this
      ensures done == (writes.None? || writes.value >= 6)
      ensures Contents() == Written(old(Contents()), l, if writes.None? then 6 else Min(writes.value, 6))
    {
      var left := writes;
      if left == Some(0) {
        return false;
      }
      rows := Some(l.rows);
      left := Less(left);
      if left == Some(0) {
        return false;
      }
      manifests := Some(l.manifests);
      left := Less(left);
      if left == Some(0) {
        return false;
      }
      raws := Some(l.raws);
      left := Less(left);
      if left == Some(0) {
        return false;
      }
      judgments := Some(l.judgments);
      left := Less(left);
      if left == Some(0) {
        return false;
      }
      responses := Some(l.responses);
      left := Less(left);
      if left == Some(0) {
        return false;
      }
      usages := Some(l.usages);
      return true;
    }

    method Adjudicate(ctx: Context, judges: Judges, sources: seq<Source>, writes: Writes) returns (outcome: Outcome)
      modifies this
      ensures Progress(Contents(), outcome) == Adjudicating(ctx, judges, old(Contents()), sources, writes)
    {
      hide Loaded, Measure, Written;
      var loaded := LoadState(ctx, sources);
      if loaded.Err? {
        return Failed(loaded.error);
      }
      var st := loaded.value;
      var index := |st.logs.rows|;
      var left := writes;
      while index < |sources|
        invariant Adjudicating(ctx, judges, old(Contents()), sources, writes) ==
                  Continuing(ctx, judges, Contents(), sources, st, index, left)
        decreases |sources| - index
      {
        var u := MeasureUnit(ctx, judges, sources[index]);
        if u.None? {
          return Failed(UnitFailed);
        }
        st := WithRecord(st.(logs := Extended(st.logs, u.value)), u.value.record, u.value.row.body.failures);
        var done := WriteAll(st.logs, left);
        if !done {
          return Crashed;
        }
        left := if left.None? then None else Some(left.value - 6);
        index := index + 1;
      }
      return Finished(st);
    }
  }

  function Less(w: Writes): Writes {
    if w.None? || w.value == 0 then w else Some(w.value - 1)
  }

  lemma {:induction false} StaysRefused(ctx: Context, l: Logs, sources: seq<Source>, k: nat, to: nat)
    requires SameLengths(l) && 0 < k <= to <= |l.rows| && to <= |sources| && Rebuilt(ctx, l, sources, k).Err?
    ensures Rebuilt(ctx, l, sources, to) == Rebuilt(ctx, l, sources, k)
  {
    hide StoredRecord, WithRecord;
    if k < to {
      StaysRefused(ctx, l, sources, k, to - 1);
    }
  }
}
