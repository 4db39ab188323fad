/** One test file: enrich, split, send every chunk, then delete the source or keep exactly
    what was not delivered. */
module FileWorker {
  import opened Json
  import opened Serialization
  import opened Splitting
  import opened Enrichment
  import opened Transport
  import opened Wrappers

  /** One chunk's request: preparing it fails locally, or HTTP attempts are made. */
  datatype Sending = PreparationError | Http(attempt: nat -> Attempt)

  /** Everything one run of the worker meets, besides the source file. */
  datatype Run = Run(
    inputs: Inputs,
    printer: Printer,
    limit: int,
    directory: bool,
    writable: nat -> bool,
    maxAttempts: nat,
    retryDelay: real,
    send: nat -> Sending,
    tagsMissing: bool,
    dryRun: bool,
    keepPayloads: bool,
    persistWorks: bool,
    deleteWorks: bool)
  {
    predicate Valid() { maxAttempts > 0 && retryDelay >= 0.0 }
  }

  datatype Status =
    | ReadFailed
    | Skipped
    | TagsMissing
    | SplitFailed(error: SplitError)
    | DryRun
    | RequestPreparationFailed
    | UploadFailed
    | Succeeded

  /** The prepared chunks, the result of each request made, and the published counters. */
  datatype Report = Report(status: Status, chunks: seq<Chunk>, results: seq<HttpResult>, counters: Counters)

  datatype Counters = Counters(attempted: nat, retries: nat, succeeded: nat, failed: nat)

  function Count(c: Counters, r: HttpResult): Counters {
    var c' := c.(attempted := c.attempted + r.attempts, retries := c.retries + r.Retries());
    if r.Succeeded() then c'.(succeeded := c'.succeeded + 1) else c'.(failed := c'.failed + 1)
  }

  function CountAll(results: seq<HttpResult>): Counters {
    if results == [] then Counters(0, 0, 0, 0)
    else Count(CountAll(results[..|results| - 1]), results[|results| - 1])
  }

  // ---------------------------------------------------------------- specification of one run

  predicate Testable(content: Option<Json>) {
    content.Some? && HasEvents(content.value) && Events(content.value) != []
  }

  function Enriched(payload: Json, inputs: Inputs): Json
    requires payload.Obj?
  {
    Obj(Enrich(payload.fields, inputs))
  }

  lemma EnrichedHasEvents(payload: Json, inputs: Inputs)
    requires HasEvents(payload) && DistinctKeys(payload.fields)
    ensures HasEvents(Enriched(payload, inputs)) && DistinctKeys(Enriched(payload, inputs).fields)
    ensures Events(Enriched(payload, inputs)) == Map(Events(payload), e => EnrichEvent(e, inputs))
  {
    RetainedGets(payload.fields, inputs, []);
  }

  /** The chunks, among those sent, whose request succeeded or failed. */
  function Select(chunks: seq<Chunk>, results: seq<HttpResult>, success: bool): seq<Chunk>
    requires |results| <= |chunks|
  {
    if results == [] then []
    else
      var k := |results| - 1;
      Select(chunks, results[..k], success) + if results[k].Succeeded() == success then [chunks[k]] else []
  }

  /** `xs[c.start:c.end]`. */
  function Slice(xs: seq<Json>, c: Chunk): seq<Json> {
    if c.start <= c.end <= |xs| then xs[c.start..c.end] else []
  }

  /** The elements in the ranges of the given chunks, in order. */
  function Slices(xs: seq<Json>, chunks: seq<Chunk>): seq<Json> {
    if chunks == [] then [] else Slices(xs, chunks[..|chunks| - 1]) + Slice(xs, chunks[|chunks| - 1])
  }

  /** The requests made so far ended as their attempts dictate. */
  ghost predicate SentSoFar(run: Run, results: seq<HttpResult>)
    requires run.Valid()
  {
    forall k: nat :: k < |results| ==>
      run.send(k).Http? && RetryOutcome(run.maxAttempts, run.retryDelay, run.send(k).attempt, results[k])
  }

  /** The chunks cut n events into consecutive non-empty ranges. */
  ghost predicate Cut(chunks: seq<Chunk>, n: nat) {
    TilesFrom(RangesOf(chunks), 0, n)
  }

  /** The chunks are the canonical bodies of such a cut, within the limit and as few as possible. */
  ghost predicate Prepared(payload: Json, run: Run, chunks: seq<Chunk>)
    requires HasEvents(payload)
  {
    ExactChunks(run.printer, payload, run.limit, chunks) && Minimal(run.printer, payload, run.limit, |chunks|)
  }

  /** What was kept of a payload whose chunks were only partly delivered. */
  ghost predicate Retains(payload: Json, rep: Report, kept: Json)
    requires HasEvents(payload)
  {
    && |rep.results| <= |rep.chunks|
    && kept == WithEvents(payload, Slices(Events(payload), Select(rep.chunks, rep.results, false)))
  }

  /** One run of `_process_test`: source before, source after, report. */
  ghost predicate RunStep(before: Option<Json>, run: Run, after: Option<Json>, rep: Report)
    requires run.Valid() && (before.Some? && before.value.Obj? ==> DistinctKeys(before.value.fields))
  {
    && Accounts(rep)
    && if Testable(before) then
         EnrichedHasEvents(before.value, run.inputs);
         TestStep(before, Enriched(before.value, run.inputs), run, after, rep)
       else
         && after == before && |rep.results| == 0
         && rep.status == if before.Some? && before.value.Obj? then Skipped else ReadFailed
  }

  /** What follows the enrichment of a payload with events. */
  ghost predicate TestStep(before: Option<Json>, payload: Json, run: Run, after: Option<Json>, rep: Report)
    requires run.Valid() && HasEvents(payload) && |rep.results| <= |rep.chunks|
  {
    match rep.status
    case ReadFailed => false
    case Skipped => false
    case TagsMissing => run.tagsMissing && after == before && |rep.results| == 0
    case SplitFailed(_) => !run.tagsMissing && after == before && |rep.results| == 0
    case _ =>
      && !run.tagsMissing && Cut(rep.chunks, |Events(payload)|)
      && if run.dryRun then DryStep(before, run, after, rep) else Sent(before, payload, run, after, rep)
  }

  /** Preparing each of the first n requests works. */
  predicate AllPrepared(run: Run, n: nat) { forall k: nat :: k < n ==> run.send(k).Http? }

  /** A dry run prepares every request and sends none. */
  ghost predicate DryStep(before: Option<Json>, run: Run, after: Option<Json>, rep: Report) {
    && after == before && |rep.results| == 0
    && rep.status == if AllPrepared(run, |rep.chunks|) then DryRun else RequestPreparationFailed
  }

  /** The chunks of a run, or its size error, are right for the enriched payload. */
  ghost predicate SplitRight(payload: Json, run: Run, rep: Report)
    requires HasEvents(payload)
  {
    match rep.status
    case ReadFailed => false
    case Skipped => false
    case TagsMissing => true
    case SplitFailed(e) => SplitJustified(payload, run, e) && !SplitsFor(payload, run)
    case _ => Prepared(payload, run, rep.chunks) && SplitsFor(payload, run)
  }

  ghost predicate SplitsFor(payload: Json, run: Run) {
    Splits(run.printer, payload, run.limit, run.directory, run.writable)
  }

  /** What the send loop and the cleanup after it do to the source. */
  ghost predicate Sent(before: Option<Json>, payload: Json, run: Run, after: Option<Json>, rep: Report)
    requires run.Valid() && HasEvents(payload) && |rep.results| <= |rep.chunks|
  {
    && SentSoFar(run, rep.results)
    && match rep.status
       case RequestPreparationFailed =>
         |rep.results| < |rep.chunks| && run.send(|rep.results|).PreparationError? && after == before
       case UploadFailed =>
         && |rep.results| == |rep.chunks| && rep.counters.failed > 0
         && (if rep.counters.succeeded > 0 && !run.keepPayloads && run.persistWorks
             then after.Some? && Retains(payload, rep, after.value) else after == before)
       case Succeeded =>
         && |rep.results| == |rep.chunks| && rep.counters.failed == 0
         && after == if !run.keepPayloads && run.deleteWorks then None else before
       case _ => false
  }

  /** The published counters are those of the requests made. */
  ghost predicate Accounts(rep: Report) {
    |rep.results| <= |rep.chunks| && rep.counters == CountAll(rep.results)
  }

  /** A size error is reported exactly when no cut of this payload can respect the limit. */
  ghost predicate SplitJustified(payload: Json, run: Run, e: SplitError)
    requires HasEvents(payload)
  {
    (e.EnvelopeExceedsLimit? || e.SingleEventExceedsLimit?) ==>
      forall rs :: !Partition(run.printer, payload, run.limit, rs)
  }

  // ---------------------------------------------------------------- the worker

  class SourceFile {
    var content: Option<Json>

    constructor (content: Option<Json>)
      ensures this.content == content
    {
      this.content := content;
    }

    /** `_cleanup_source`. */
    method Cleanup(keepPayloads: bool, deleteWorks: bool)
      modifies this
      ensures content == if !keepPayloads && deleteWorks then None else old(content)
    {
      if !keepPayloads && deleteWorks {
        content := None;
      }
    }

    /** `_persist_failed_test_chunks`, with the atomic replacement that follows it. */
    method PersistFailed(payload: Json, chunks: seq<Chunk>, works: bool)
      requires HasEvents(payload)
      modifies this
      ensures content == if works then Some(WithEvents(payload, Slices(Events(payload), chunks))) else old(content)
    {
      var events := Events(payload);
      var failed := [];
      for k := 0 to |chunks|
        invariant failed == Slices(events, chunks[..k])
        invariant content == old(content)
      {
        assert chunks[..k + 1][..k] == chunks[..k];
        failed := failed + Slice(events, chunks[k]);
      }
      assert chunks[..|chunks|] == chunks;
      if works {
        content := Some(WithEvents(payload, failed));
      }
    }
  }

  /** The send loop: a failing chunk does not stop it, a local preparation error does. */
  method SendAll(run: Run, chunks: seq<Chunk>) returns (results: seq<HttpResult>, rep: Report, prepared: bool)
    requires run.Valid()
    ensures |results| <= |chunks| && SentSoFar(run, results)
    ensures prepared <==> |results| == |chunks|
    ensures !prepared ==> run.send(|results|).PreparationError?
    ensures Accounts(rep) && rep.chunks == chunks && rep.results == results
  {
    results, prepared := [], true;
    var counters := Counters(0, 0, 0, 0);
    for k := 0 to |chunks|
      invariant |results| == k && SentSoFar(run, results)
      invariant counters == CountAll(results)
    {
      var sending := run.send(k);
      if sending.PreparationError? {
        rep := Report(RequestPreparationFailed, chunks, results, counters);
        return results, rep, false;
      }
      var r := Post(run.maxAttempts, run.retryDelay, sending.attempt);
      assert (results + [r])[..k] == results;
      results := results + [r];
      counters := Count(counters, r);
    }
    rep := Report(Succeeded, chunks, results, counters);
  }

  method ProcessTest(source: SourceFile, run: Run) returns (rep: Report)
    requires run.Valid()
    requires (source.content.Some? && source.content.value.Obj? ==> DistinctKeys(source.content.value.fields))
    modifies source
    ensures RunStep(old(source.content), run, source.content, rep)
    ensures rep.status.ReadFailed? <==> !(old(source.content).Some? && old(source.content).value.Obj?)
    ensures rep.status.Skipped? <==>
              && old(source.content).Some? && old(source.content).value.Obj?
              && var events := Get(old(source.content).value.fields, "events");
                 events.None? || !events.value.Arr? || events.value.items == []
    ensures Testable(old(source.content)) ==>
              var payload := Enriched(old(source.content).value, run.inputs);
              HasEvents(payload) && SplitRight(payload, run, rep)
  {
    if Testable(source.content) {
      var payload := EnrichSource(source.content.value, run.inputs);
      rep := ProcessEnriched(source, payload, run);
    } else if source.content.Some? && source.content.value.Obj? {
      rep := Nothing(Skipped, []);
    } else {
      rep := Nothing(ReadFailed, []);
    }
  }

  method EnrichSource(original: Json, inputs: Inputs) returns (payload: Json)
    requires HasEvents(original) && DistinctKeys(original.fields)
    ensures payload == Enriched(original, inputs) && HasEvents(payload) && DistinctKeys(payload.fields)
  {
    var fields, stats := EnrichTestPayload(original.fields, inputs, map[]);
    EnrichedHasEvents(original, inputs);
    payload := Obj(fields);
  }

  /** A report without any request. */
  method Nothing(status: Status, chunks: seq<Chunk>) returns (rep: Report)
    ensures Accounts(rep) && rep.status == status && rep.chunks == chunks && |rep.results| == 0
  {
    rep := Report(status, chunks, [], Counters(0, 0, 0, 0));
  }

  method Split(payload: Json, run: Run) returns (split: Result<seq<Chunk>>)
    requires HasEvents(payload) && DistinctKeys(payload.fields)
    ensures split.Ok? <==> SplitsFor(payload, run)
    ensures split.Err? ==> SplitJustified(payload, run, split.error)
    ensures split.Ok? ==> Prepared(payload, run, split.value) && Cut(split.value, |Events(payload)|)
  {
    split := PrepareTestChunks(run.printer, payload, run.limit, run.directory, run.writable);
  }

  method ProcessEnriched(source: SourceFile, payload: Json, run: Run) returns (rep: Report)
    requires run.Valid() && HasEvents(payload) && DistinctKeys(payload.fields)
    modifies source
    ensures Accounts(rep) && TestStep(old(source.content), payload, run, source.content, rep)
    ensures SplitRight(payload, run, rep)
  {
    if run.tagsMissing {
      rep := Nothing(TagsMissing, []);
      return;
    }
    var split := Split(payload, run);
    if split.Err? {
      rep := Nothing(SplitFailed(split.error), []);
    } else if run.dryRun {
      var status := PrepareAll(run, |split.value|);
      rep := Nothing(status, split.value);
    } else {
      rep := Deliver(source, payload, run, split.value);
    }
  }

  /** The loop of a dry run. */
  method PrepareAll(run: Run, n: nat) returns (status: Status)
    ensures status == if AllPrepared(run, n) then DryRun else RequestPreparationFailed
  {
    for k := 0 to n
      invariant AllPrepared(run, k)
    {
      if run.send(k).PreparationError? { return RequestPreparationFailed; }
    }
    status := DryRun;
  }

  method Deliver(source: SourceFile, payload: Json, run: Run, chunks: seq<Chunk>) returns (rep: Report)
    requires run.Valid() && HasEvents(payload)
    modifies source
    ensures Accounts(rep) && rep.chunks == chunks
    ensures Sent(old(source.content), payload, run, source.content, rep)
  {
    var results, prepared;
    results, rep, prepared := SendAll(run, chunks);
    if !prepared {
      rep := rep.(status := RequestPreparationFailed);
    } else if rep.counters.failed > 0 {
      rep := rep.(status := UploadFailed);
      if rep.counters.succeeded > 0 && !run.keepPayloads {
        var failedChunks := FailedChunks(chunks, results);
        source.PersistFailed(payload, failedChunks, run.persistWorks);
      }
    } else {
      rep := rep.(status := Succeeded);
      source.Cleanup(run.keepPayloads, run.deleteWorks);
    }
  }

  method FailedChunks(chunks: seq<Chunk>, results: seq<HttpResult>) returns (failed: seq<Chunk>)
    requires |results| == |chunks|
    ensures failed == Select(chunks, results, false)
  {
    failed := [];
    for k := 0 to |results|
      invariant failed == Select(chunks, results[..k], false)
    {
      assert results[..k + 1][..k] == results[..k];
      if !results[k].Succeeded() {
        failed := failed + [chunks[k]];
      }
    }
    assert results[..|results|] == results;
  }
}
