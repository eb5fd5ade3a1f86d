// Which text and which labels each stored generation row carries, in terms of the requests and the backend's answers.
module GenerationAnswers {
  import opened Options
  import opened GenerationPhase
  import opened GenerationRuns

  // --- One batch ---

  // The requests from i * b to (i + 1) * b, as far as there are any.
  ghost predicate RequestsOf(s: Setup, i: nat, requests: seq<Request>) {
    exists start: nat, end: nat ::
      && start <= end <= |s.requests| && requests == s.requests[start..end]
      && (start == i * s.batchSize || (start == |s.requests| && i * s.batchSize > start))
      && (end == (i + 1) * s.batchSize || (end == |s.requests| && (i + 1) * s.batchSize > end))
  }

  // The last generation with this id has this text.
  ghost predicate LastAnswer(results: seq<Generation>, id: string, text: string) {
    exists g :: 0 <= g < |results| && results[g].id == id && results[g].text == text
                && forall h :: g < h < |results| ==> results[h].id != id
  }

  // A row that answers request j of batch i.
  ghost predicate Labelled(ctx: Context, s: Setup, i: nat, j: nat, r: Request, backend: Provenance, row: Row) {
    && row.body.runId == r.id && row.body.phase == s.phase && row.body.batchIndex == i
    && row.body.dispatch == i * s.batchSize + j
    && row.body.planHash == ctx.hash(PlanBody(s)) && row.body.backend == backend
    && row.recordHash == ctx.hash(RowBody(row.body))
  }

  // The backend's answer to the batch's requests, and one row for each request with the answer's text.
  ghost predicate Answered(ctx: Context, s: Setup, backend: Backend, i: nat, rows: seq<Row>) {
    exists requests: seq<Request>, results: seq<Generation> ::
      && RequestsOf(s, i, requests) && backend.generate(requests) == Some(results) && |rows| == |requests|
      && forall j: nat :: j < |rows| ==>
           && Labelled(ctx, s, i, j, requests[j], backend.provenance, rows[j])
           && LastAnswer(results, requests[j].id, rows[j].body.text)
  }

  lemma BatchRequestsAre(s: Setup, i: nat)
    requires s.batchSize > 0
    ensures RequestsOf(s, i, BatchRequests(s, i))
  {
    Ordered(s, i);
    Times(i, s.batchSize);
    assert (i + 1) * s.batchSize == i * s.batchSize + s.batchSize;
    assert BatchRequests(s, i) == s.requests[Start(s, i)..Start(s, i + 1)];
  }

  lemma {:induction false} TextIsLast(results: seq<Generation>, id: string)
    ensures TextOf(results, id).Some? ==> LastAnswer(results, id, TextOf(results, id).value)
    ensures TextOf(results, id).None? <==> forall g :: 0 <= g < |results| ==> results[g].id != id
  {
    if |results| > 0 {
      var front, last := results[..|results| - 1], results[|results| - 1];
      TextIsLast(front, id);
      LastOfMore(front, last, id);
      assert results == front + [last];
    }
  }

  lemma LastOfMore(front: seq<Generation>, last: Generation, id: string)
    ensures last.id == id ==> LastAnswer(front + [last], id, last.text)
    ensures last.id != id ==> forall text :: LastAnswer(front, id, text) ==> LastAnswer(front + [last], id, text)
  {
    var all := front + [last];
    if last.id == id {
      assert all[|front|] == last;
    }
    forall text | last.id != id && LastAnswer(front, id, text)
      ensures LastAnswer(all, id, text)
    {
      var g :| 0 <= g < |front| && front[g].id == id && front[g].text == text
               && forall h :: g < h < |front| ==> front[h].id != id;
      assert all[g] == front[g];
      assert forall h :: g < h < |front| ==> all[h] == front[h];
    }
  }

  // What a backend produces answers the batch.
  lemma ProducedAnswers(ctx: Context, s: Setup, backend: Backend, i: nat)
    requires s.batchSize > 0 && Produced(ctx, s, backend, i).Some?
    ensures Answered(ctx, s, backend, i, Produced(ctx, s, backend, i).value)
  {
    hide BatchRequests, RequestsOf, LastAnswer;
    BatchRequestsAre(s, i);
    var requests, rows := BatchRequests(s, i), Produced(ctx, s, backend, i).value;
    var results := backend.generate(requests).value;
    forall j: nat | j < |rows|
      ensures Labelled(ctx, s, i, j, requests[j], backend.provenance, rows[j])
      ensures LastAnswer(results, requests[j].id, rows[j].body.text)
    {
      TextIsLast(results, requests[j].id);
    }
  }

  ghost predicate IsAnswered(results: seq<Generation>, id: string) {
    exists g :: 0 <= g < |results| && results[g].id == id
  }

  ghost predicate IsRequested(requests: seq<Request>, id: string) {
    exists j :: 0 <= j < |requests| && requests[j].id == id
  }

  // A batch is refused exactly when the backend fails or the ids of its answer are not those of the requests.
  lemma ProducedIff(ctx: Context, s: Setup, backend: Backend, i: nat)
    requires s.batchSize > 0
    ensures var requests := BatchRequests(s, i);
            var results := backend.generate(requests);
            Produced(ctx, s, backend, i).Some? <==>
            results.Some? && forall id :: IsAnswered(results.value, id) <==> IsRequested(requests, id)
  {
    hide BatchRequests, TextOf;
    var requests := BatchRequests(s, i);
    if backend.generate(requests).Some? {
      var results := backend.generate(requests).value;
      forall id
        ensures TextOf(results, id).Some? <==> IsAnswered(results, id)
      {
        TextIsLast(results, id);
      }
      if forall id :: IsAnswered(results, id) <==> IsRequested(requests, id) {
        forall j | 0 <= j < |requests|
          ensures TextOf(results, requests[j].id).Some?
        {
          assert IsRequested(requests, requests[j].id);
        }
        forall g | 0 <= g < |results|
          ensures Asked(requests, results[g].id)
        {
          assert IsAnswered(results, results[g].id) && IsRequested(requests, results[g].id);
        }
      }
    }
  }

  // --- Runs ---

  // Every batch a run adds holds its backend's answers.
  lemma RunAnswers(ctx: Context, files: Files, s: Setup, a: Attempt, i: nat)
    requires PlansDistinct(ctx) && Sound(ctx, files)
    requires i in Running(ctx, files, s, a).files.batches && i !in files.batches
    ensures a.backend.Some? && Answered(ctx, s, a.backend.value, i, Running(ctx, files, s, a).files.batches[i])
  {
    hide Resuming, Good, ValidAttempt, Produced, Answered;
    if ValidAttempt(ctx, s, a) {
      AttemptSize(ctx, s, a);
      if files == EMPTY {
        if a.writes != Some(0) {
          FreshPlan(ctx, s, a);
          var start := EMPTY.(plan := Some(PlanOf(ctx, s)));
          var k, b := ResumingKeeps(ctx, s, start, a, 0, map[], Less(a.writes));
          AddedAnswers(ctx, s, a, start, 0, map[], Resuming(ctx, start, s, a, Less(a.writes)).files, k, b, i);
        }
      } else {
        var s', k, b :| Good(ctx, s', files, k, b);
        PlanStored(ctx, s', files, k, b);
        if ctx.hash(PlanFile(files.plan.value)) == ctx.hash(PlanFile(PlanOf(ctx, s))) {
          assert s' == s;
          var k', b' := ResumingKeeps(ctx, s, files, a, k, b, a.writes);
          AddedAnswers(ctx, s, a, files, k, b, Resuming(ctx, files, s, a, a.writes).files, k', b', i);
        }
      }
    }
  }

  lemma AttemptSize(ctx: Context, s: Setup, a: Attempt)
    requires ValidAttempt(ctx, s, a)
    ensures s.batchSize > 0
  {
  }

  lemma AddedAnswers(ctx: Context, s: Setup, a: Attempt, before: Files, from: nat, b: Provenance, after: Files, to: nat,
                     b': Provenance, i: nat)
    requires Good(ctx, s, before, from, b) && Good(ctx, s, after, to, b') && s.batchSize > 0
    requires from < to ==> a.backend.Some? && AddedBy(ctx, s, a.backend.value, from, to, after.batches)
    requires from <= to && i in after.batches && i !in before.batches
    ensures a.backend.Some? && Answered(ctx, s, a.backend.value, i, after.batches[i])
  {
    hide Answered, Produced, ManifestFor, Concatenated, ValidBatch;
    ProducedAnswers(ctx, s, a.backend.value, i);
  }

  lemma {:induction false} ConcatenatedAt(ctx: Context, s: Setup, batches: map<nat, seq<Row>>, k: nat, i: nat, j: nat)
    requires s.batchSize > 0 && AllPresent(batches, k) && k <= Count(s) && i < k && j < |batches[i]|
    requires forall h: nat :: h < k ==> ValidBatch(ctx, s, h, batches[h])
    ensures |Concatenated(batches, k)| == Start(s, k)
    ensures i * s.batchSize + j < |Concatenated(batches, k)|
    ensures Concatenated(batches, k)[i * s.batchSize + j] == batches[i][j]
  {
    hide ValidBatch, Start, Count;
    BatchSizes(ctx, s, batches, k);
    BatchSizes(ctx, s, batches, k - 1);
    if i < k - 1 {
      ConcatenatedAt(ctx, s, batches, k - 1, i, j);
    } else {
      StartExact(s, k - 1);
    }
  }

  lemma {:induction false} BatchSizes(ctx: Context, s: Setup, batches: map<nat, seq<Row>>, k: nat)
    requires s.batchSize > 0 && AllPresent(batches, k) && k <= Count(s)
    requires forall h: nat :: h < k ==> ValidBatch(ctx, s, h, batches[h])
    ensures |Concatenated(batches, k)| == Start(s, k)
  {
    hide ValidBatch, Start, Count;
    if k == 0 {
      assert Start(s, 0) == 0 by {
        NoStart(s);
      }
    } else {
      BatchSizes(ctx, s, batches, k - 1);
      BatchLength(ctx, s, k - 1, batches[k - 1]);
    }
  }

  lemma NoStart(s: Setup)
    requires s.batchSize > 0
    ensures Start(s, 0) == 0
  {
  }

  lemma BatchLength(ctx: Context, s: Setup, i: nat, rows: seq<Row>)
    requires s.batchSize > 0 && ValidBatch(ctx, s, i, rows)
    ensures |rows| == Start(s, i + 1) - Start(s, i)
  {
    Ordered(s, i);
  }

  // In a completed phase row j, at place o of batch i, carries the text of the last generation for request j in the
  // backend's answer to the batch of that request.
  lemma CompletedAnswers(ctx: Context, s: Setup, backend: Backend, launches: seq<Launch>, a: Attempt, i: nat, o: nat,
                         j: nat)
    requires PlansDistinct(ctx) && o < s.batchSize && j == i * s.batchSize + o
    requires forall i :: 0 <= i < |launches| ==>
               && launches[i].setup == s
               && (launches[i].attempt.backend.None? || launches[i].attempt.backend.value == backend)
    requires a.backend.None? || a.backend.value == backend
    requires Running(ctx, History(ctx, EMPTY, launches), s, a).outcome.Completed? && j < |s.requests|
    ensures var rows := Running(ctx, History(ctx, EMPTY, launches), s, a).outcome.rows;
            && |rows| == |s.requests| && rows[j].body.runId == s.requests[j].id
            && exists requests: seq<Request>, results: seq<Generation> ::
                 && RequestsOf(s, i, requests) && s.requests[j] in requests
                 && backend.generate(requests) == Some(results)
                 && LastAnswer(results, s.requests[j].id, rows[j].body.text)
  {
    hide Good, Produced, Running, AddedBy, RequestsOf, LastAnswer;
    var before := History(ctx, EMPTY, launches);
    HistoryFromBackend(ctx, s, backend, launches);
    var k, b := CompletedFrom(ctx, s, before, backend, a);
    WholeAnswers(ctx, s, backend, Running(ctx, before, s, a).files, i, o, j);
  }

  lemma WholeAnswers(ctx: Context, s: Setup, backend: Backend, files: Files, i: nat, o: nat, j: nat)
    requires o < s.batchSize && j == i * s.batchSize + o && Good(ctx, s, files, Count(s), backend.provenance)
    requires files.merged.Some?
    requires AddedBy(ctx, s, backend, 0, Count(s), files.batches) && j < |s.requests|
    ensures var rows := files.merged.value;
            && |rows| == |s.requests| && rows[j].body.runId == s.requests[j].id
            && exists requests: seq<Request>, results: seq<Generation> ::
                 && RequestsOf(s, i, requests) && s.requests[j] in requests
                 && backend.generate(requests) == Some(results)
                 && LastAnswer(results, s.requests[j].id, rows[j].body.text)
  {
    hide Produced, RequestsOf, LastAnswer, Answered, Good, AddedBy, Count, Start, Concatenated, ValidBatch;
    BatchOf(s, i, o, j);
    WholeBatch(ctx, s, backend, files, i);
    AnsweredAt(ctx, s, backend, files.batches, i, o, j);
    StartExact(s, Count(s));
  }

  lemma WholeBatch(ctx: Context, s: Setup, backend: Backend, files: Files, i: nat)
    requires s.batchSize > 0 && Good(ctx, s, files, Count(s), backend.provenance) && files.merged.Some?
    requires AddedBy(ctx, s, backend, 0, Count(s), files.batches) && i < Count(s)
    ensures AllPresent(files.batches, Count(s)) && files.merged.value == Concatenated(files.batches, Count(s))
    ensures forall h: nat :: h < Count(s) ==> ValidBatch(ctx, s, h, files.batches[h])
    ensures Answered(ctx, s, backend, i, files.batches[i])
  {
    hide Produced, Answered, ManifestFor, Concatenated, ValidBatch, Count;
    AllCommitted(ctx, s, files, backend.provenance);
    ProducedAnswers(ctx, s, backend, i);
  }

  // The batch of a request and its place there.
  lemma BatchOf(s: Setup, i: nat, o: nat, j: nat)
    requires o < s.batchSize && j == i * s.batchSize + o && j < |s.requests|
    ensures i < Count(s) && o < |BatchRequests(s, i)| && BatchRequests(s, i)[o] == s.requests[j]
  {
    var count := Count(s);
    CountCovers(s);
    if count <= i {
      Multiples(count, i, s.batchSize);
    }
    StartExact(s, i);
    assert (i + 1) * s.batchSize == i * s.batchSize + s.batchSize;
    Ordered(s, i);
  }

  lemma CountCovers(s: Setup)
    requires s.batchSize > 0
    ensures Count(s) * s.batchSize >= |s.requests|
  {
    var n, b := |s.requests|, s.batchSize;
    assert n + b - 1 == b * ((n + b - 1) / b) + (n + b - 1) % b;
  }

  lemma AnsweredAt(ctx: Context, s: Setup, backend: Backend, batches: map<nat, seq<Row>>, i: nat, o: nat, j: nat)
    requires s.batchSize > 0 && AllPresent(batches, Count(s)) && i < Count(s) && j == i * s.batchSize + o
    requires j < |s.requests| && o < s.batchSize
    requires forall h: nat :: h < Count(s) ==> ValidBatch(ctx, s, h, batches[h])
    requires Answered(ctx, s, backend, i, batches[i])
    ensures var rows := Concatenated(batches, Count(s));
            && |rows| == Start(s, Count(s)) && j < |rows| && rows[j].body.runId == s.requests[j].id
            && exists requests: seq<Request>, results: seq<Generation> ::
                 && RequestsOf(s, i, requests) && s.requests[j] in requests
                 && backend.generate(requests) == Some(results)
                 && LastAnswer(results, s.requests[j].id, rows[j].body.text)
  {
    hide Concatenated, LastAnswer, ValidBatch, Start, Count, BatchRequests, RequestsOf;
    BatchOf(s, i, o, j);
    BatchSizes(ctx, s, batches, Count(s));
    var requests: seq<Request>, results: seq<Generation> :|
      && RequestsOf(s, i, requests) && backend.generate(requests) == Some(results) && |batches[i]| == |requests|
      && forall j: nat :: j < |batches[i]| ==>
           && Labelled(ctx, s, i, j, requests[j], backend.provenance, batches[i][j])
           && LastAnswer(results, requests[j].id, batches[i][j].body.text);
    RequestsUnique(s, i, requests);
    ConcatenatedAt(ctx, s, batches, Count(s), i, o);
  }

  lemma RequestsUnique(s: Setup, i: nat, requests: seq<Request>)
    requires s.batchSize > 0 && RequestsOf(s, i, requests)
    ensures requests == BatchRequests(s, i)
  {
    Ordered(s, i);
  }
}
