// An interrupted adjudication either resumes to exactly the uninterrupted result or is refused.
module AdjudicationRuns {
  import opened Options
  import opened AdjudicationPhase

  // --- The state after the first k units ---

  ghost predicate Measurable(ctx: Context, judges: Judges, sources: seq<Source>) {
    forall i :: 0 <= i < |sources| ==> Measure(ctx, judges, sources[i]).Some?
  }

  ghost function UnitAt(ctx: Context, judges: Judges, sources: seq<Source>, i: nat): Unit
    requires Measurable(ctx, judges, sources) && i < |sources|
  {
    Measure(ctx, judges, sources[i]).value
  }

  ghost function After(st: State, u: Unit): State {
    WithRecord(st.(logs := Extended(st.logs, u)), u.record, u.row.body.failures)
  }

  ghost function StateAt(ctx: Context, judges: Judges, sources: seq<Source>, k: nat): State
    requires Measurable(ctx, judges, sources) && k <= |sources|
  {
    if k == 0 then State(NO_LOGS, [], [])
    else After(StateAt(ctx, judges, sources, k - 1), UnitAt(ctx, judges, sources, k - 1))
  }

  // The committed prefix of k units.
  ghost function FilesAt(ctx: Context, judges: Judges, sources: seq<Source>, k: nat): Files
    requires Measurable(ctx, judges, sources) && k <= |sources|
  {
    if k == 0 then NO_FILES else Written(NO_FILES, StateAt(ctx, judges, sources, k).logs, 6)
  }

  // A crash after j of the six writes that commit unit k + 1.
  ghost function Torn(ctx: Context, judges: Judges, sources: seq<Source>, k: nat, j: nat): Files
    requires Measurable(ctx, judges, sources) && k < |sources|
  {
    Written(FilesAt(ctx, judges, sources, k), StateAt(ctx, judges, sources, k + 1).logs, j)
  }

  ghost predicate LogsLong(l: Logs, k: nat) {
    |l.rows| == |l.manifests| == |l.raws| == |l.judgments| == |l.responses| == |l.usages| == k
  }

  ghost predicate EntriesOf(l: Logs, i: nat, u: Unit)
    requires LogsLong(l, |l.rows|) && i < |l.rows|
  {
    && l.rows[i] == u.row && l.manifests[i] == u.manifest && l.raws[i] == u.raw
    && l.judgments[i] == u.judgment && l.responses[i] == u.response && l.usages[i] == u.usage
  }

  lemma {:induction false} LogsOfPrefix(ctx: Context, judges: Judges, sources: seq<Source>, k: nat)
    requires Measurable(ctx, judges, sources) && k <= |sources|
    ensures LogsLong(StateAt(ctx, judges, sources, k).logs, k)
    ensures forall i :: 0 <= i < k ==>
            EntriesOf(StateAt(ctx, judges, sources, k).logs, i, UnitAt(ctx, judges, sources, i))
  {
    hide Measure, Measurable, EntriesOf, After, Extended, UnitAt;
    if k > 0 {
      LogsOfPrefix(ctx, judges, sources, k - 1);
      var st, u := StateAt(ctx, judges, sources, k - 1), UnitAt(ctx, judges, sources, k - 1);
      AfterLogs(st, u);
      NewEntries(st.logs, u);
      forall i | 0 <= i < k - 1
        ensures EntriesOf(Extended(st.logs, u), i, UnitAt(ctx, judges, sources, i))
      {
        EarlierEntries(st.logs, u, i, UnitAt(ctx, judges, sources, i));
      }
    }
  }

  lemma AfterLogs(st: State, u: Unit)
    ensures After(st, u).logs == Extended(st.logs, u)
  {
  }

  lemma NewEntries(l: Logs, u: Unit)
    requires LogsLong(l, |l.rows|)
    ensures LogsLong(Extended(l, u), |l.rows| + 1) && EntriesOf(Extended(l, u), |l.rows|, u)
  {
  }

  lemma EarlierEntries(l: Logs, u: Unit, i: nat, v: Unit)
    requires LogsLong(l, |l.rows|) && i < |l.rows| && EntriesOf(l, i, v)
    ensures LogsLong(Extended(l, u), |l.rows| + 1) && EntriesOf(Extended(l, u), i, v)
  {
  }

  // --- Reloading one unit ---

  lemma KeptTwice(m: map<string, string>, fields: set<string>)
    ensures Kept(Kept(m, fields), fields) == Kept(m, fields)
  {
  }

  // A stored record is rebuilt exactly: keeping the public parts twice is keeping them once.
  lemma JudgmentRebuilt(ctx: Context, j: Judgment)
    requires MakeJudgment(ctx, j).Some?
    ensures var made := MakeJudgment(ctx, j).value; MakeJudgment(ctx, made) == Some(made)
  {
    KeptTwice(j.provenance.decoding, PUBLIC_DECODING);
    KeptTwice(j.usage, PUBLIC_USAGE);
  }

  // What a unit's independent half always is.
  ghost predicate IndependentFits(ctx: Context, s: Source, j: Hashed<JudgmentBody>, p: Hashed<ResponseBody>,
                                  u: Hashed<UsageBody>, record: Option<Judgment>) {
    && j.recordHash == ctx.hash(OfJudgment(j.body)) && p.recordHash == ctx.hash(OfResponse(p.body))
    && u.recordHash == ctx.hash(OfUsage(u.body))
    && j.body.unitId == s.runId && p.body.unitId == s.runId && u.body.unitId == s.runId
    && match record
       case None => j.body.terminal == Some(MALFORMED)
       case Some(made) =>
         && j == JudgmentManifest(ctx, made) && p == JudgmentResponse(ctx, made) && u == JudgmentUsage(ctx, made)
         && MakeJudgment(ctx, made) == Some(made) && made.unitId == s.runId
  }

  lemma CollectedFits(ctx: Context, judges: Judges, s: Source)
    requires CollectIndependent(ctx, judges, s).Some?
    ensures var i := CollectIndependent(ctx, judges, s).value;
            IndependentFits(ctx, s, i.judgment, i.response, i.usage, i.record)
  {
    hide Kept;
    var c := CaseOf(s);
    var reading := ctx.parseFinal(judges.independent(c));
    if reading.Some? {
      var j := Judgment(s.runId, ctx.hash(OfCase(c)), ctx.hash(OfRequest(c)), ctx.instrumentHash, judges.independent(c),
                        reading.value.status, reading.value.value, judges.provenance(c), judges.metadata(c));
      JudgmentRebuilt(ctx, j);
    }
  }

  lemma UnitFits(ctx: Context, judges: Judges, s: Source)
    requires Measure(ctx, judges, s).Some?
    ensures var u := Measure(ctx, judges, s).value;
            && IndependentFits(ctx, s, u.judgment, u.response, u.usage, u.record)
            && u.row.recordHash == ctx.hash(OfRow(u.row.body))
            && u.manifest.recordHash == ctx.hash(OfManifest(u.manifest.body))
            && u.raw.recordHash == ctx.hash(OfRaw(u.raw.body))
            && u.row.body.runId == s.runId && u.manifest.body.runId == s.runId && u.raw.body.runId == s.runId
            && u.row.body.sourceHash == s.recordHash
  {
    hide CollectIndependent, IndependentFits, Isolated, Failures;
    CollectedFits(ctx, judges, s);
  }

  lemma RecordReloads(ctx: Context, judges: Judges, l: Logs, i: nat, s: Source)
    requires LogsLong(l, |l.rows|) && i < |l.rows| && Measure(ctx, judges, s).Some?
    requires EntriesOf(l, i, Measure(ctx, judges, s).value)
    ensures StoredRecord(ctx, l, i, s) == Ok(Measure(ctx, judges, s).value.record)
  {
    hide Measure, MakeJudgment;
    UnitFits(ctx, judges, s);
    var u := Measure(ctx, judges, s).value;
    assert HashesValid(ctx, l, i);
    assert SourcesMatch(l, i, s);
    if u.record.Some? {
      var made := u.record.value;
      var j := l.judgments[i].body;
      assert Judgment(s.runId, j.caseHash, j.requestId, j.instrumentHash, l.responses[i].body.response, j.status,
                      j.value, j.provenance, l.usages[i].body.usage) == made;
    }
  }

  lemma {:induction false} RebuiltIs(ctx: Context, judges: Judges, sources: seq<Source>, k: nat, n: nat)
    requires Measurable(ctx, judges, sources) && k <= n <= |sources|
    ensures LogsLong(StateAt(ctx, judges, sources, n).logs, n)
    ensures var l := StateAt(ctx, judges, sources, n).logs;
            Rebuilt(ctx, l, sources, k) == Ok(StateAt(ctx, judges, sources, k).(logs := l))
  {
    hide Measure, StoredRecord, Extended;
    LogsOfPrefix(ctx, judges, sources, n);
    if k > 0 {
      var l := StateAt(ctx, judges, sources, n).logs;
      RebuiltIs(ctx, judges, sources, k - 1, n);
      assert EntriesOf(l, k - 1, UnitAt(ctx, judges, sources, k - 1));
      RecordReloads(ctx, judges, l, k - 1, sources[k - 1]);
    }
  }

  // Every committed prefix loads, with exactly the records the run held in memory when it was written.
  lemma PrefixLoads(ctx: Context, judges: Judges, sources: seq<Source>, k: nat)
    requires Measurable(ctx, judges, sources) && k <= |sources|
    ensures Loaded(ctx, FilesAt(ctx, judges, sources, k), sources) == Ok(StateAt(ctx, judges, sources, k))
    ensures |StateAt(ctx, judges, sources, k).logs.rows| == k
  {
    hide Measure, Rebuilt, Measurable, UnitAt, After, EntriesOf;
    RebuiltIs(ctx, judges, sources, k, k);
  }

  // Any crash strictly between the six writes is refused.
  lemma TornRefused(ctx: Context, judges: Judges, sources: seq<Source>, k: nat, j: nat)
    requires Measurable(ctx, judges, sources) && k < |sources| && 1 <= j <= 5
    ensures Loaded(ctx, Torn(ctx, judges, sources, k, j), sources) ==
            Err(if k == 0 then Incomplete else LengthsDisagree)
  {
    hide Measure, Rebuilt, Measurable, UnitAt, After, EntriesOf, StateAt;
    LogsOfPrefix(ctx, judges, sources, k);
    LogsOfPrefix(ctx, judges, sources, k + 1);
  }

  // --- Running on ---

  lemma WriteNext(ctx: Context, judges: Judges, sources: seq<Source>, k: nat)
    requires Measurable(ctx, judges, sources) && k < |sources|
    ensures Torn(ctx, judges, sources, k, 6) == FilesAt(ctx, judges, sources, k + 1)
    ensures Torn(ctx, judges, sources, k, 0) == FilesAt(ctx, judges, sources, k)
  {
    hide Measure, Measurable, StateAt;
  }

  // The files once w more writes have happened after the first k units.
  ghost function FilesAfter(ctx: Context, judges: Judges, sources: seq<Source>, k: nat, w: nat): Files
    requires Measurable(ctx, judges, sources) && k <= |sources|
    decreases |sources| - k
  {
    if k == |sources| then FilesAt(ctx, judges, sources, k)
    else if w < 6 then Torn(ctx, judges, sources, k, w)
    else FilesAfter(ctx, judges, sources, k + 1, w - 6)
  }

  lemma {:induction false} ContinuesTo(ctx: Context, judges: Judges, sources: seq<Source>, k: nat, writes: Writes)
    requires Measurable(ctx, judges, sources) && k <= |sources|
    ensures var n := |sources|;
            var p := Continuing(ctx, judges, FilesAt(ctx, judges, sources, k), sources,
                                StateAt(ctx, judges, sources, k), k, writes);
            if writes.None? || writes.value >= 6 * (n - k)
            then p == Progress(FilesAt(ctx, judges, sources, n), Finished(StateAt(ctx, judges, sources, n)))
            else p == Progress(FilesAfter(ctx, judges, sources, k, writes.value), Crashed)
    decreases |sources| - k
  {
    hide Measure, Written, Extended, WithRecord, FilesAt;
    if k < |sources| {
      WriteNext(ctx, judges, sources, k);
      if writes.None? || writes.value >= 6 {
        ContinuesTo(ctx, judges, sources, k + 1, if writes.None? then None else Some(writes.value - 6));
      }
    }
  }

  lemma {:induction false} FilesAfterAre(ctx: Context, judges: Judges, sources: seq<Source>, k: nat, w: nat)
    requires Measurable(ctx, judges, sources) && k <= |sources| && w < 6 * (|sources| - k)
    ensures var q, j := k + w / 6, w % 6;
            q < |sources| && FilesAfter(ctx, judges, sources, k, w) ==
            if j == 0 then FilesAt(ctx, judges, sources, q) else Torn(ctx, judges, sources, q, j)
    decreases |sources| - k
  {
    hide Measure, Measurable, FilesAt, Torn;
    if w < 6 {
      WriteNext(ctx, judges, sources, k);
    } else {
      FilesAfterAre(ctx, judges, sources, k + 1, w - 6);
    }
  }

  // Loading any committed prefix and going on gives the same six logs and the same record lists as a run that never
  // stopped.
  lemma ResumeEqualsUninterrupted(ctx: Context, judges: Judges, sources: seq<Source>, k: nat)
    requires Measurable(ctx, judges, sources) && k <= |sources|
    ensures Adjudicating(ctx, judges, FilesAt(ctx, judges, sources, k), sources, None) ==
            Adjudicating(ctx, judges, NO_FILES, sources, None)
    ensures Adjudicating(ctx, judges, NO_FILES, sources, None).outcome ==
            Finished(StateAt(ctx, judges, sources, |sources|))
  {
    hide Measure, Loaded, Continuing, Measurable;
    PrefixLoads(ctx, judges, sources, k);
    PrefixLoads(ctx, judges, sources, 0);
    ContinuesTo(ctx, judges, sources, k, None);
    ContinuesTo(ctx, judges, sources, 0, None);
  }

  // A run cut after w writes is resumed to the uninterrupted result exactly when the cut falls on a unit boundary (or
  // after the end); at every other point the next run refuses the files and leaves them alone.
  lemma CutDecides(ctx: Context, judges: Judges, sources: seq<Source>, w: nat)
    requires Measurable(ctx, judges, sources)
    ensures var cut := Adjudicating(ctx, judges, NO_FILES, sources, Some(w));
            var again := Adjudicating(ctx, judges, cut.files, sources, None);
            if w % 6 == 0 || w >= 6 * |sources| then again == Adjudicating(ctx, judges, NO_FILES, sources, None)
            else again == Progress(cut.files, Failed(if w < 6 then Incomplete else LengthsDisagree))
  {
    hide Measure, Loaded, Continuing, Measurable, FilesAfter, FilesAt, Torn, StateAt;
    var n := |sources|;
    PrefixLoads(ctx, judges, sources, 0);
    NothingWritten(ctx, judges, sources);
    ContinuesTo(ctx, judges, sources, 0, Some(w));
    if w >= 6 * n {
      ResumeEqualsUninterrupted(ctx, judges, sources, n);
    } else {
      FilesAfterAre(ctx, judges, sources, 0, w);
      if w % 6 == 0 {
        ResumeEqualsUninterrupted(ctx, judges, sources, w / 6);
      } else {
        TornRefused(ctx, judges, sources, w / 6, w % 6);
      }
    }
  }

  lemma NothingWritten(ctx: Context, judges: Judges, sources: seq<Source>)
    requires Measurable(ctx, judges, sources)
    ensures FilesAt(ctx, judges, sources, 0) == NO_FILES
  {
  }

  // --- Histories ---

  ghost predicate Prefixed(ctx: Context, judges: Judges, sources: seq<Source>, f: Files)
    requires Measurable(ctx, judges, sources)
  {
    exists k: nat :: k <= |sources| && f == FilesAt(ctx, judges, sources, k)
  }

  ghost predicate TornSomewhere(ctx: Context, judges: Judges, sources: seq<Source>, f: Files)
    requires Measurable(ctx, judges, sources)
  {
    exists k: nat, j: nat :: k < |sources| && 1 <= j <= 5 && f == Torn(ctx, judges, sources, k, j)
  }

  ghost function History(ctx: Context, judges: Judges, sources: seq<Source>, cuts: seq<Writes>): Files {
    if |cuts| == 0 then NO_FILES
    else Adjudicating(ctx, judges, History(ctx, judges, sources, cuts[..|cuts| - 1]), sources, cuts[|cuts| - 1]).files
  }

  lemma StepFromPrefix(ctx: Context, judges: Judges, sources: seq<Source>, k: nat, writes: Writes)
    requires Measurable(ctx, judges, sources) && k <= |sources|
    ensures var f := Adjudicating(ctx, judges, FilesAt(ctx, judges, sources, k), sources, writes).files;
            Prefixed(ctx, judges, sources, f) || TornSomewhere(ctx, judges, sources, f)
  {
    hide Measure, Loaded, Continuing, Measurable, FilesAfter, FilesAt, Torn, StateAt;
    PrefixLoads(ctx, judges, sources, k);
    ContinuesTo(ctx, judges, sources, k, writes);
    if writes.Some? && writes.value < 6 * (|sources| - k) {
      FilesAfterAre(ctx, judges, sources, k, writes.value);
    }
  }

  // However often the phase is started and cut, the files are a committed prefix or torn inside one unit,
  // and the next run finishes with the uninterrupted result in the first case and refuses in the second.
  lemma {:induction false} HistoryDecided(ctx: Context, judges: Judges, sources: seq<Source>, cuts: seq<Writes>)
    requires Measurable(ctx, judges, sources)
    ensures var f := History(ctx, judges, sources, cuts);
            && (Prefixed(ctx, judges, sources, f) || TornSomewhere(ctx, judges, sources, f))
            && (Prefixed(ctx, judges, sources, f) ==>
                  Adjudicating(ctx, judges, f, sources, None) == Adjudicating(ctx, judges, NO_FILES, sources, None))
            && (TornSomewhere(ctx, judges, sources, f) ==>
                  forall writes ::
                    var p := Adjudicating(ctx, judges, f, sources, writes); p.outcome.Failed? && p.files == f)
  {
    hide Measure, Loaded, Continuing, Measurable, FilesAt, Torn;
    var f := History(ctx, judges, sources, cuts);
    if |cuts| == 0 {
      NothingWritten(ctx, judges, sources);
    } else {
      var before := History(ctx, judges, sources, cuts[..|cuts| - 1]);
      HistoryDecided(ctx, judges, sources, cuts[..|cuts| - 1]);
      if Prefixed(ctx, judges, sources, before) {
        var k: nat :| k <= |sources| && before == FilesAt(ctx, judges, sources, k);
        StepFromPrefix(ctx, judges, sources, k, cuts[|cuts| - 1]);
      }
    }
    if Prefixed(ctx, judges, sources, f) {
      var k: nat :| k <= |sources| && f == FilesAt(ctx, judges, sources, k);
      ResumeEqualsUninterrupted(ctx, judges, sources, k);
    }
    if TornSomewhere(ctx, judges, sources, f) {
      var k: nat, j: nat :| k < |sources| && 1 <= j <= 5 && f == Torn(ctx, judges, sources, k, j);
      TornRefused(ctx, judges, sources, k, j);
    }
  }
}
