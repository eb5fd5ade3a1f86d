// What the six logs hold for each unit, in terms of the source row and the judges' answers.
module AdjudicationEntries {
  import opened Options
  import opened AdjudicationPhase
  import opened AdjudicationRuns

  // --- What the judges answered ---

  // The case shows the row's task, trace and answer.
  ghost predicate Shows(c: Case, s: Source) {
    c.task == s.task && c.trace == s.trace && c.answer == s.answer
  }

  // What the measurement is given in place of a response: the response itself, or an explicit unknown.
  ghost function SeenFinal(ctx: Context, raw: string): string {
    if ctx.parseFinal(raw) != None then raw else "{\"status\":\"UNKNOWN\",\"value\":null}"
  }

  ghost function SeenTrajectory(ctx: Context, raw: string): string {
    if ctx.parsesTrajectory(raw) then raw else "{\"status\":\"UNKNOWN\",\"values\":[]}"
  }

  ghost predicate FailuresAre(ctx: Context, final: string, trajectory: string, failures: seq<Instrument>) {
    failures ==
      if ctx.parseFinal(final) != None
      then (if ctx.parsesTrajectory(trajectory) then [] else [Trajectory])
      else if ctx.parsesTrajectory(trajectory) then [FinalAnswer] else [FinalAnswer, Trajectory]
  }

  // --- The six entries of a unit ---

  ghost predicate PrimaryEntries(ctx: Context, judges: Judges, s: Source, c: Case, row: Hashed<RowBody>,
                                 manifest: Hashed<ManifestBody>, raw: Hashed<RawBody>) {
    var final, trajectory := judges.primary(FinalAnswer, c), judges.primary(Trajectory, c);
    var measured := ctx.measure(s, SeenFinal(ctx, final), SeenTrajectory(ctx, trajectory));
    && row.body.runId == s.runId && row.body.sourceHash == s.recordHash && row.body.content == measured.row
    && (row.body.independentFailure <==> ctx.parseFinal(judges.independent(c)) == None)
    && manifest.body.runId == s.runId && manifest.body.content == measured.manifest
    && raw.body.runId == s.runId && raw.body.content == measured.raw
    && raw.body.final == final && raw.body.trajectory == trajectory
    && FailuresAre(ctx, final, trajectory, row.body.failures)
    && manifest.body.failures == row.body.failures && raw.body.failures == row.body.failures
    && row.recordHash == ctx.hash(OfRow(row.body)) && manifest.recordHash == ctx.hash(OfManifest(manifest.body))
    && raw.recordHash == ctx.hash(OfRaw(raw.body))
  }

  // The fields of a map that are in a public list.
  ghost predicate PublicPart(part: map<string, string>, whole: map<string, string>, fields: set<string>) {
    && (forall key :: key in part <==> key in whole && key in fields)
    && forall key :: key in part ==> part[key] == whole[key]
  }

  ghost predicate SameModel(p: Provenance, q: Provenance) {
    p.provider == q.provider && p.modelId == q.modelId && p.revision == q.revision && p.version == q.version
  }

  ghost predicate IndependentEntries(ctx: Context, judges: Judges, s: Source, c: Case, j: Hashed<JudgmentBody>,
                                     p: Hashed<ResponseBody>, u: Hashed<UsageBody>) {
    var raw := judges.independent(c);
    && j.body.unitId == s.runId && p.body.unitId == s.runId && u.body.unitId == s.runId
    && j.body.caseHash == ctx.hash(OfCase(c)) && p.body.caseHash == ctx.hash(OfCase(c))
    && j.body.requestId == ctx.hash(OfRequest(c)) && p.body.requestId == ctx.hash(OfRequest(c))
    && u.body.requestId == ctx.hash(OfRequest(c))
    && j.body.instrumentHash == ctx.instrumentHash && j.body.responseHash == ctx.hash(OfText(raw))
    && p.body.response == raw
    && SameModel(j.body.provenance, judges.provenance(c)) && u.body.provenance == j.body.provenance
    && j.recordHash == ctx.hash(OfJudgment(j.body)) && p.recordHash == ctx.hash(OfResponse(p.body))
    && u.recordHash == ctx.hash(OfUsage(u.body))
    && match ctx.parseFinal(raw)
       case None =>
         && j.body.status == "MALFORMED" && j.body.value == None && j.body.usageHash == None
         && j.body.terminal == p.body.terminal == u.body.terminal == Some("malformed_independent_final")
         && j.body.provenance.decoding == map[] && u.body.usage == map[]
       case Some(reading) =>
         && j.body.status == reading.status && j.body.value == reading.value
         && j.body.usageHash == Some(ctx.hash(OfUsageMap(u.body.usage)))
         && j.body.terminal == p.body.terminal == u.body.terminal == None
         && PublicPart(j.body.provenance.decoding, judges.provenance(c).decoding, PUBLIC_DECODING)
         && PublicPart(u.body.usage, judges.metadata(c), PUBLIC_USAGE)
  }

  lemma PrimaryAre(ctx: Context, judges: Judges, s: Source, c: Case)
    requires Shows(c, s) && Measure(ctx, judges, s).Some?
    ensures var u := Measure(ctx, judges, s).value; PrimaryEntries(ctx, judges, s, c, u.row, u.manifest, u.raw)
  {
    hide MakeJudgment, JudgmentManifest, JudgmentResponse, JudgmentUsage;
    assert c == CaseOf(s);
  }

  lemma IndependentAre(ctx: Context, judges: Judges, s: Source, c: Case)
    requires Shows(c, s) && Measure(ctx, judges, s).Some?
    ensures var u := Measure(ctx, judges, s).value;
            IndependentEntries(ctx, judges, s, c, u.judgment, u.response, u.usage)
  {
    assert c == CaseOf(s);
  }

  // A unit fails exactly when its row has no id, or a readable response comes from an unnamed model.
  lemma MeasureIff(ctx: Context, judges: Judges, s: Source, c: Case)
    requires Shows(c, s)
    ensures Measure(ctx, judges, s).Some? <==>
            && s.runId != ""
            && (ctx.parseFinal(judges.independent(c)) != None ==>
                  judges.provenance(c).provider != "" && judges.provenance(c).modelId != "")
  {
    assert c == CaseOf(s);
  }

  // --- The logs and the records of a committed prefix ---

  // Every committed unit's six entries are those of its own row and of the judges' answers to its own case.
  lemma PrefixEntries(ctx: Context, judges: Judges, sources: seq<Source>, k: nat, i: nat, c: Case)
    requires Measurable(ctx, judges, sources) && i < k <= |sources| && Shows(c, sources[i])
    ensures var l := StateAt(ctx, judges, sources, k).logs;
            && LogsLong(l, k)
            && PrimaryEntries(ctx, judges, sources[i], c, l.rows[i], l.manifests[i], l.raws[i])
            && IndependentEntries(ctx, judges, sources[i], c, l.judgments[i], l.responses[i], l.usages[i])
  {
    hide Measure, PrimaryEntries, IndependentEntries, StateAt;
    LogsOfPrefix(ctx, judges, sources, k);
    assert EntriesOf(StateAt(ctx, judges, sources, k).logs, i, UnitAt(ctx, judges, sources, i));
    PrimaryAre(ctx, judges, sources[i], c);
    IndependentAre(ctx, judges, sources[i], c);
  }

  // The record of a unit: the independent judge's readable response, its reading, and the public parts of the call.
  ghost predicate RecordIs(ctx: Context, judges: Judges, s: Source, c: Case, r: Judgment) {
    var raw := judges.independent(c);
    && r.unitId == s.runId && r.caseHash == ctx.hash(OfCase(c)) && r.requestId == ctx.hash(OfRequest(c))
    && r.instrumentHash == ctx.instrumentHash && r.response == raw
    && ctx.parseFinal(raw) == Some(Reading(r.status, r.value))
    && SameModel(r.provenance, judges.provenance(c))
    && PublicPart(r.provenance.decoding, judges.provenance(c).decoding, PUBLIC_DECODING)
    && PublicPart(r.usage, judges.metadata(c), PUBLIC_USAGE)
  }

  // Committing unit k adds its record exactly when the independent response was readable, and passes it on to the
  // consensus exactly when the primary final was readable too.
  lemma RecordsGrow(ctx: Context, judges: Judges, sources: seq<Source>, k: nat, c: Case)
    requires Measurable(ctx, judges, sources) && k < |sources| && Shows(c, sources[k])
    ensures var before, after := StateAt(ctx, judges, sources, k), StateAt(ctx, judges, sources, k + 1);
            if ctx.parseFinal(judges.independent(c)) == None
            then after.records == before.records && after.consensus == before.consensus
            else exists r :: RecordIs(ctx, judges, sources[k], c, r) && after.records == before.records + [r]
                   && after.consensus == before.consensus
                      + (if ctx.parseFinal(judges.primary(FinalAnswer, c)) != None then [r] else [])
  {
    hide JudgmentManifest, JudgmentResponse, JudgmentUsage, StateAt;
    StateNext(ctx, judges, sources, k);
    assert c == CaseOf(sources[k]);
    var u := UnitAt(ctx, judges, sources, k);
    if u.record.Some? {
      assert RecordIs(ctx, judges, sources[k], c, u.record.value);
    }
  }

  lemma StateNext(ctx: Context, judges: Judges, sources: seq<Source>, k: nat)
    requires Measurable(ctx, judges, sources) && k < |sources|
    ensures StateAt(ctx, judges, sources, k + 1) ==
            After(StateAt(ctx, judges, sources, k), UnitAt(ctx, judges, sources, k))
    ensures StateAt(ctx, judges, sources, 0).records == [] && StateAt(ctx, judges, sources, 0).consensus == []
  {
  }

  // --- What the loader accepts ---

  ghost predicate HashesFit(ctx: Context, l: Logs, i: nat)
    requires i < |l.rows| == |l.manifests| == |l.raws| == |l.judgments| == |l.responses| == |l.usages|
  {
    && ctx.hash(OfRow(l.rows[i].body)) == l.rows[i].recordHash
    && ctx.hash(OfManifest(l.manifests[i].body)) == l.manifests[i].recordHash
    && ctx.hash(OfRaw(l.raws[i].body)) == l.raws[i].recordHash
    && ctx.hash(OfJudgment(l.judgments[i].body)) == l.judgments[i].recordHash
    && ctx.hash(OfResponse(l.responses[i].body)) == l.responses[i].recordHash
    && ctx.hash(OfUsage(l.usages[i].body)) == l.usages[i].recordHash
  }

  ghost predicate NamesUnit(l: Logs, i: nat, s: Source)
    requires i < |l.rows| == |l.manifests| == |l.raws| == |l.judgments| == |l.responses| == |l.usages|
  {
    && s.runId == l.rows[i].body.runId && s.runId == l.manifests[i].body.runId && s.runId == l.raws[i].body.runId
    && s.runId == l.judgments[i].body.unitId && s.runId == l.responses[i].body.unitId
    && s.runId == l.usages[i].body.unitId && s.recordHash == l.rows[i].body.sourceHash
  }

  // The stored judgment says what the stored response says, with public fields only and the hashes of what is stored.
  ghost predicate Consistent(ctx: Context, j: JudgmentBody, response: string, usage: map<string, string>) {
    && j.unitId != "" && j.provenance.provider != "" && j.provenance.modelId != ""
    && ctx.parseFinal(response) == Some(Reading(j.status, j.value))
    && (forall key :: key in j.provenance.decoding ==> key in PUBLIC_DECODING)
    && j.responseHash == ctx.hash(OfText(response))
    && exists kept :: PublicPart(kept, usage, PUBLIC_USAGE) && j.usageHash == Some(ctx.hash(OfUsageMap(kept)))
  }

  ghost predicate UnitAccepted(ctx: Context, l: Logs, i: nat, s: Source)
    requires i < |l.rows| == |l.manifests| == |l.raws| == |l.judgments| == |l.responses| == |l.usages|
  {
    var j := l.judgments[i].body;
    && HashesFit(ctx, l, i) && NamesUnit(l, i, s)
    && (j.terminal == Some("malformed_independent_final")
        || (j.terminal == None && Consistent(ctx, j, l.responses[i].body.response, l.usages[i].body.usage)))
  }

  // A stored unit is accepted exactly when its hashes and ids fit and it is either marked as malformed or consistent.
  lemma StoredIff(ctx: Context, l: Logs, i: nat, s: Source)
    requires i < |l.rows| == |l.manifests| == |l.raws| == |l.judgments| == |l.responses| == |l.usages|
    ensures var o, j := StoredRecord(ctx, l, i, s), l.judgments[i].body;
            && (o == Err(HashMismatch) <==> !HashesFit(ctx, l, i))
            && (o == Err(SourceMismatch) <==> HashesFit(ctx, l, i) && !NamesUnit(l, i, s))
            && (o.Ok? <==> UnitAccepted(ctx, l, i, s))
            && (o.Ok? ==> (o.value.Some? <==> j.terminal == None))
  {
    var j := l.judgments[i].body;
    if HashesFit(ctx, l, i) && NamesUnit(l, i, s) && j.terminal == None {
      ConsistentIff(ctx, j, l.responses[i].body.response, l.usages[i].body.usage);
      assert l.judgments[i] == Hashed(j, ctx.hash(OfJudgment(j)));
    }
  }

  lemma {:induction false} RebuiltIff(ctx: Context, l: Logs, sources: seq<Source>, k: nat)
    requires k <= |l.rows| == |l.manifests| == |l.raws| == |l.judgments| == |l.responses| == |l.usages|
             && k <= |sources|
    ensures Rebuilt(ctx, l, sources, k).Ok? <==> forall i :: 0 <= i < k ==> UnitAccepted(ctx, l, i, sources[i])
  {
    hide UnitAccepted, StoredRecord, HashesFit, NamesUnit;
    if k > 0 {
      RebuiltIff(ctx, l, sources, k - 1);
      StoredIff(ctx, l, k - 1, sources[k - 1]);
    }
  }

  // A checkpoint is loaded exactly when it is empty, or all six logs are there, equally long and no longer than the
  // source, and every unit is accepted.
  lemma LoadedIff(ctx: Context, f: Files, sources: seq<Source>)
    ensures Loaded(ctx, f, sources).Ok? <==>
            || f == Files(None, None, None, None, None, None)
            || (&& f.rows != None && f.manifests != None && f.raws != None && f.judgments != None
                && f.responses != None && f.usages != None
                && var l := Logs(f.rows.value, f.manifests.value, f.raws.value, f.judgments.value, f.responses.value,
                                 f.usages.value);
                   && |l.rows| == |l.manifests| == |l.raws| == |l.judgments| == |l.responses| == |l.usages|
                   && |l.rows| <= |sources|
                   && forall i :: 0 <= i < |l.rows| ==> UnitAccepted(ctx, l, i, sources[i]))
  {
    hide UnitAccepted, Rebuilt;
    if AllPresent(f) && SameLengths(LogsIn(f)) && |f.rows.value| <= |sources| {
      RebuiltIff(ctx, LogsIn(f), sources, |f.rows.value|);
    }
  }

  lemma ConsistentIff(ctx: Context, j: JudgmentBody, response: string, usage: map<string, string>)
    requires j.terminal == None
    ensures var made := MakeJudgment(ctx, Judgment(j.unitId, j.caseHash, j.requestId, j.instrumentHash, response,
                                                   j.status, j.value, j.provenance, usage));
            Consistent(ctx, j, response, usage) <==> made.Some? && JudgmentManifest(ctx, made.value).body == j
  {
    KeptIs(usage, PUBLIC_USAGE);
    KeptIs(j.provenance.decoding, PUBLIC_DECODING);
    forall kept | PublicPart(kept, usage, PUBLIC_USAGE)
      ensures kept == Kept(usage, PUBLIC_USAGE)
    {
    }
    if forall key :: key in j.provenance.decoding ==> key in PUBLIC_DECODING {
      assert Kept(j.provenance.decoding, PUBLIC_DECODING) == j.provenance.decoding;
    }
  }

  lemma KeptIs(m: map<string, string>, fields: set<string>)
    ensures PublicPart(Kept(m, fields), m, fields)
  {
  }
}
