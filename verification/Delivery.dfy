/** One source file over any number of runs, with arbitrary HTTP outcomes: what was delivered and what remains. */
module Delivery {
  import opened Json
  import opened Serialization
  import opened Splitting
  import opened Enrichment
  import opened Transport
  import opened FileWorker
  import opened Wrappers

  // ---------------------------------------------------------------- what a run delivers, what a source still holds

  /** The events still in the source, as any run with these inputs would send them. */
  function Remaining(content: Option<Json>, inputs: Inputs): seq<Json> {
    if content.Some? && HasEvents(content.value) then Map(Events(content.value), e => EnrichEvent(e, inputs)) else []
  }

  /** Every dictionary of the source has distinct keys, as decoding JSON guarantees. */
  ghost predicate WellFormed(content: Option<Json>) {
    content.Some? ==> Decoded(content.value)
  }

  /** One run of the worker, with its chunks and its report justified. */
  ghost predicate Step(before: Option<Json>, run: Run, after: Option<Json>, rep: Report) {
    && run.Valid() && WellFormed(before) && RunStep(before, run, after, rep)
    && (Testable(before) ==>
          var payload := Enriched(before.value, run.inputs);
          HasEvents(payload) && SplitRight(payload, run, rep))
  }

  /** The events of the requests that succeeded, or failed. */
  function Chosen(xs: seq<Json>, chunks: seq<Chunk>, results: seq<HttpResult>, success: bool): seq<Json>
    requires |results| <= |chunks|
  {
    Slices(xs, Select(chunks, results, success))
  }

  ghost function Delivered(before: Option<Json>, run: Run, rep: Report): seq<Json>
    requires |rep.results| <= |rep.chunks|
  {
    Chosen(Remaining(before, run.inputs), rep.chunks, rep.results, true)
  }

  /** The source was brought up to date: nothing succeeded, or success was recorded by deleting or rewriting it. */
  predicate Recorded(run: Run, rep: Report) {
    || rep.counters.succeeded == 0
    || (rep.status == Succeeded && !run.keepPayloads && run.deleteWorks)
    || (rep.status == UploadFailed && !run.keepPayloads && run.persistWorks)
  }

  // ---------------------------------------------------------------- counters

  /** One attempt per request plus the retries. */
  lemma {:induction false} RetryAccounting(run: Run, results: seq<HttpResult>)
    requires run.Valid() && SentSoFar(run, results)
    ensures CountAll(results).attempted == |results| + CountAll(results).retries
  {
    if results != [] {
      var k: nat := |results| - 1;
      assert forall j: nat :: j < k ==> results[..k][j] == results[j];
      RetryAccounting(run, results[..k]);
      assert RetryOutcome(run.maxAttempts, run.retryDelay, run.send(k).attempt, results[k]);
    }
  }

  /** Every request succeeded or failed. */
  lemma {:induction false} OutcomeAccounting(chunks: seq<Chunk>, results: seq<HttpResult>)
    requires |results| <= |chunks|
    ensures CountAll(results).succeeded == |Select(chunks, results, true)|
    ensures CountAll(results).failed == |Select(chunks, results, false)|
    ensures CountAll(results).succeeded + CountAll(results).failed == |results|
  {
    if results != [] {
      OutcomeAccounting(chunks, results[..|results| - 1]);
    }
  }

  /** The run got as far as its send loop. */
  predicate Sends(run: Run, rep: Report) {
    !run.dryRun && (rep.status.RequestPreparationFailed? || rep.status.UploadFailed? || rep.status.Succeeded?)
  }

  /** How the send loop ended. */
  ghost predicate Ended(run: Run, rep: Report)
    requires run.Valid()
  {
    && Accounts(rep) && SentSoFar(run, rep.results)
    && match rep.status
       case RequestPreparationFailed => |rep.results| < |rep.chunks| && run.send(|rep.results|).PreparationError?
       case UploadFailed => |rep.results| == |rep.chunks| && rep.counters.failed > 0
       case Succeeded => |rep.results| == |rep.chunks| && rep.counters.failed == 0
       case _ => false
  }

  lemma StepEnds(before: Option<Json>, run: Run, after: Option<Json>, rep: Report)
    requires Step(before, run, after, rep) && Sends(run, rep)
    ensures Ended(run, rep)
  {
  }

  lemma NotDry(before: Option<Json>, run: Run, after: Option<Json>, rep: Report)
    requires Step(before, run, after, rep) && (rep.status.UploadFailed? || rep.status.Succeeded?)
    ensures Sends(run, rep)
  {
    EnrichedHasEvents(before.value, run.inputs);
    TestedNotDry(before, Enriched(before.value, run.inputs), run, after, rep);
  }

  lemma TestedNotDry(before: Option<Json>, payload: Json, run: Run, after: Option<Json>, rep: Report)
    requires run.Valid() && HasEvents(payload) && |rep.results| <= |rep.chunks|
    requires TestStep(before, payload, run, after, rep)
    requires rep.status.UploadFailed? || rep.status.Succeeded?
    ensures Sends(run, rep)
  {
  }

  /** What a run that made all its requests reports. */
  lemma ReportAccounting(before: Option<Json>, run: Run, after: Option<Json>, rep: Report)
    requires Step(before, run, after, rep) && (rep.status.UploadFailed? || rep.status.Succeeded?)
    ensures rep.counters.attempted == |rep.chunks| + rep.counters.retries
    ensures rep.counters.succeeded + rep.counters.failed == |rep.chunks|
    ensures rep.status.Succeeded? <==> rep.counters.failed == 0
  {
    NotDry(before, run, after, rep);
    StepEnds(before, run, after, rep);
    EndAccounting(run, rep);
  }

  lemma EndAccounting(run: Run, rep: Report)
    requires run.Valid() && Ended(run, rep) && !rep.status.RequestPreparationFailed?
    ensures rep.counters.attempted == |rep.chunks| + rep.counters.retries
    ensures rep.counters.succeeded + rep.counters.failed == |rep.chunks|
    ensures rep.status.Succeeded? <==> rep.counters.failed == 0
  {
    RetryAccounting(run, rep.results);
    OutcomeAccounting(rep.chunks, rep.results);
  }

  // ---------------------------------------------------------------- parts of a cut

  ghost function EndOf(chunks: seq<Chunk>, k: nat): nat
    requires k <= |chunks|
  {
    if k == 0 then 0 else chunks[k - 1].end
  }

  ghost predicate Contiguous(chunks: seq<Chunk>, n: nat) {
    forall k :: 0 <= k < |chunks| ==> chunks[k].start == EndOf(chunks, k) && chunks[k].start < chunks[k].end <= n
  }

  lemma CutShape(chunks: seq<Chunk>, n: nat)
    requires Cut(chunks, n)
    ensures Contiguous(chunks, n)
    ensures EndOf(chunks, |chunks|) == n
  {
    var rs := RangesOf(chunks);
    TilesWiden(rs, 0, n);
    forall k | 0 <= k < |chunks| ensures chunks[k].start == EndOf(chunks, k) && chunks[k].start < chunks[k].end <= n {
      assert rs[k] == Range(chunks[k].start, chunks[k].end);
      if k > 0 { assert rs[k - 1 + 1].start == rs[k - 1].end; }
    }
  }

  lemma ChosenStep(xs: seq<Json>, chunks: seq<Chunk>, results: seq<HttpResult>, success: bool)
    requires 0 < |results| <= |chunks|
    ensures var k := |results| - 1;
            Chosen(xs, chunks, results, success) == Chosen(xs, chunks, results[..k], success)
              + if results[k].Succeeded() == success then Slice(xs, chunks[k]) else []
  {
    var k := |results| - 1;
    var all, most := Select(chunks, results, success), Select(chunks, results[..k], success);
    if results[k].Succeeded() == success {
      assert all == most + [chunks[k]] && all[..|all| - 1] == most;
    } else {
      assert all == most;
      assert Chosen(xs, chunks, results, success) == Chosen(xs, chunks, results[..k], success);
      assert Slices(xs, most) + [] == Slices(xs, most);
    }
  }

  /** The successful and the failed slices share out the events met so far. */
  lemma {:induction false} Parts(xs: seq<Json>, chunks: seq<Chunk>, results: seq<HttpResult>)
    requires Contiguous(chunks, |xs|) && |results| <= |chunks|
    ensures EndOf(chunks, |results|) <= |xs|
    ensures multiset(xs[..EndOf(chunks, |results|)])
         == multiset(Chosen(xs, chunks, results, true)) + multiset(Chosen(xs, chunks, results, false))
  {
    if results != [] {
      var k := |results| - 1;
      Parts(xs, chunks, results[..k]);
      PartsStep(xs, chunks, results);
    }
  }

  lemma PartsStep(xs: seq<Json>, chunks: seq<Chunk>, results: seq<HttpResult>)
    requires Contiguous(chunks, |xs|) && 0 < |results| <= |chunks|
    ensures var k := |results| - 1;
            && multiset(xs[..chunks[k].end]) == multiset(xs[..chunks[k].start]) + multiset(Slice(xs, chunks[k]))
            && multiset(Chosen(xs, chunks, results, true)) + multiset(Chosen(xs, chunks, results, false))
            == multiset(Chosen(xs, chunks, results[..k], true)) + multiset(Chosen(xs, chunks, results[..k], false)) +
              multiset(Slice(xs, chunks[k]))
  {
    var k := |results| - 1;
    var part := Slice(xs, chunks[k]);
    assert xs[..chunks[k].end] == xs[..chunks[k].start] + part;
    ChosenStep(xs, chunks, results, true);
    ChosenStep(xs, chunks, results, false);
    AddTo(Chosen(xs, chunks, results[..k], true), Chosen(xs, chunks, results[..k], false), part);
  }

  lemma AddTo(a: seq<Json>, b: seq<Json>, part: seq<Json>)
    ensures multiset(a + part) + multiset(b + []) == multiset(a) + multiset(b) + multiset(part)
    ensures multiset(a + []) + multiset(b + part) == multiset(a) + multiset(b) + multiset(part)
  {
    assert a + [] == a && b + [] == b;
  }

  // ---------------------------------------------------------------- order

  ghost predicate Subsequence(a: seq<Json>, b: seq<Json>) {
    if a == [] then true
    else if b == [] then false
    else
      || (a[|a| - 1] == b[|b| - 1] && Subsequence(a[..|a| - 1], b[..|b| - 1]))
      || Subsequence(a, b[..|b| - 1])
  }

  lemma {:induction false} SubsequenceAppend(a: seq<Json>, b: seq<Json>, c: seq<Json>)
    requires Subsequence(a, b)
    ensures Subsequence(a, b + c) && Subsequence(a + c, b + c)
  {
    if c == [] {
      assert a + c == a && b + c == b;
    } else {
      var k := |c| - 1;
      SubsequenceAppend(a, b, c[..k]);
      assert (b + c)[..|b + c| - 1] == b + c[..k];
      assert (a + c)[..|a + c| - 1] == a + c[..k];
    }
  }

  lemma {:induction false} SubsequenceTransitive(a: seq<Json>, b: seq<Json>, c: seq<Json>)
    requires Subsequence(a, b) && Subsequence(b, c)
    ensures Subsequence(a, c)
    decreases |b| + |c|
  {
    if a != [] {
      var a', b', c' := a[..|a| - 1], b[..|b| - 1], c[..|c| - 1];
      if Subsequence(b, c') {
        SubsequenceTransitive(a, b, c');
      } else if Subsequence(a, b') {
        SubsequenceTransitive(a, b', c');
      } else {
        SubsequenceTransitive(a', b', c');
      }
    }
  }

  lemma {:induction false} SubsequenceSelf(a: seq<Json>)
    ensures Subsequence(a, a)
  {
    if a != [] { SubsequenceSelf(a[..|a| - 1]); }
  }

  lemma {:induction false} ChosenInOrder(xs: seq<Json>, chunks: seq<Chunk>, results: seq<HttpResult>, success: bool)
    requires Contiguous(chunks, |xs|) && |results| <= |chunks|
    ensures EndOf(chunks, |results|) <= |xs|
    ensures Subsequence(Chosen(xs, chunks, results, success), xs[..EndOf(chunks, |results|)])
  {
    if results != [] {
      var k := |results| - 1;
      ChosenInOrder(xs, chunks, results[..k], success);
      ChosenStep(xs, chunks, results, success);
      PrefixStep(xs, chunks, k);
      AppendPart(Chosen(xs, chunks, results[..k], success), xs[..EndOf(chunks, k)], Slice(xs, chunks[k]),
        results[k].Succeeded() == success,
        Chosen(xs, chunks, results, success), xs[..EndOf(chunks, k + 1)]);
    }
  }

  lemma PrefixStep(xs: seq<Json>, chunks: seq<Chunk>, k: nat)
    requires Contiguous(chunks, |xs|) && k < |chunks|
    ensures EndOf(chunks, k) <= EndOf(chunks, k + 1) <= |xs|
    ensures xs[..EndOf(chunks, k + 1)] == xs[..EndOf(chunks, k)] + Slice(xs, chunks[k])
  {
  }

  lemma AppendPart(a: seq<Json>, b: seq<Json>, part: seq<Json>, taken: bool, a': seq<Json>, b': seq<Json>)
    requires Subsequence(a, b) && a' == a + (if taken then part else []) && b' == b + part
    ensures Subsequence(a', b')
  {
    SubsequenceAppend(a, b, part);
    assert a + [] == a;
  }

  // ---------------------------------------------------------------- enrichment keeps payloads decoded

  ghost predicate Scalars(ws: Dict) {
    forall i :: 0 <= i < |ws| ==> ws[i].value.Str? || ws[i].value.Number?
  }

  lemma DecodedPut(d: Dict, k: string, v: Json)
    requires Decoded(Obj(d)) && Decoded(v)
    ensures Decoded(Obj(Put(d, k, v)))
  {
    PutDistinct(d, k, v);
  }

  lemma {:induction false} DecodedPutAll(d: Dict, ws: Dict)
    requires Decoded(Obj(d)) && Scalars(ws)
    ensures Decoded(Obj(PutAll(d, ws)))
  {
    if ws != [] {
      DecodedPutAll(d, ws[..|ws| - 1]);
      DecodedPut(PutAll(d, ws[..|ws| - 1]), ws[|ws| - 1].key, ws[|ws| - 1].value);
    }
  }

  lemma {:induction false} WritesScalar(values: Dict, dump: Json -> string)
    ensures Scalars(MetaWrites(values, dump)) && Scalars(MetricWrites(values))
  {
    if values != [] {
      WritesScalar(values[..|values| - 1], dump);
    }
  }

  lemma MergeDecoded(event: Json, inputs: Inputs)
    requires Decoded(event)
    ensures Decoded(MergeEvent(event, inputs))
  {
    if event.Obj? {
      WritesScalar(EventContext(inputs.context), inputs.dump);
      if inputs.bazel.Some? { WritesScalar(inputs.bazel.value, inputs.dump); }
      var content := ObjectOr(Get(event.fields, CONTENT));
      DecodedGet(event.fields, CONTENT);
      DecodedGet(content, META);
      DecodedGet(content, METRICS);
      var meta := PutAll(ObjectOr(Get(content, META)), EventWrites(inputs));
      var metrics := PutAll(ObjectOr(Get(content, METRICS)), EventMetricWrites(inputs));
      DecodedPutAll(ObjectOr(Get(content, META)), EventWrites(inputs));
      DecodedPutAll(ObjectOr(Get(content, METRICS)), EventMetricWrites(inputs));
      DecodedPut(content, META, Obj(meta));
      DecodedPut(Put(content, META, Obj(meta)), METRICS, Obj(metrics));
      DecodedPut(event.fields, CONTENT, Obj(Put(Put(content, META, Obj(meta)), METRICS, Obj(metrics))));
    }
  }

  lemma OwnDecoded(event: Json, lookup: string -> Option<string>)
    requires Decoded(event)
    ensures Decoded(OwnEvent(event, lookup))
  {
    var c := OwnerCaseOf(event, lookup);
    if c.Owned? {
      var content := ObjectOr(Get(event.fields, CONTENT));
      var meta := ObjectOr(Get(content, META));
      DecodedGet(event.fields, CONTENT);
      DecodedGet(content, META);
      DecodedPut(meta, CODEOWNERS, Str(c.owners));
      DecodedPut(content, META, Obj(Put(meta, CODEOWNERS, Str(c.owners))));
      DecodedPut(event.fields, CONTENT, Obj(Put(content, META, Obj(Put(meta, CODEOWNERS, Str(c.owners))))));
    }
  }

  lemma EnrichedEventDecoded(event: Json, inputs: Inputs)
    requires Decoded(event)
    ensures Decoded(EnrichEvent(event, inputs))
  {
    MergeDecoded(event, inputs);
    OwnDecoded(MergeEvent(event, inputs), inputs.matcher.lookup);
  }

  lemma {:induction false} KeptDecoded(m: Dict, keys: seq<string>)
    requires Decoded(Obj(m)) && forall i, j :: 0 <= i < j < |keys| ==> keys[i] != keys[j]
    ensures Decoded(Obj(Kept(m, keys)))
  {
    if keys != [] {
      KeptDecoded(m, keys[1..]);
      KeptKeys(m, keys[1..]);
      DecodedGet(m, keys[0]);
      assert keys[0] !in keys[1..];
    }
  }

  lemma GlobalDecoded(id: string, language: string, version: string, env: string)
    ensures Decoded(Obj(GlobalOf(id, language, version, env)))
  {
    var global := GlobalOf(id, language, version, env);
    assert |RUNTIME_ID| == 10 && |LANGUAGE| == 8 && |VERSION| == 15 && |ENV| == 3;
    forall i, j | 0 <= i < j < |global| ensures global[i].key != global[j].key {
      assert |global[i].key| != |global[j].key|;
    }
  }

  lemma ConsDecoded(f: Field, d: Dict)
    requires Decoded(f.value) && Decoded(Obj(d)) && forall i :: 0 <= i < |d| ==> d[i].key != f.key
    ensures Decoded(Obj([f] + d))
  {
  }

  lemma GlobalMetadataDecoded(global: Dict, inputs: Inputs)
    ensures Decoded(Obj(GlobalMetadata(global, inputs)))
  {
    GlobalDecoded(
      Choose(Get(global, RUNTIME_ID), RuntimeIds(inputs.context) + [Some(Str(inputs.runtimeId))]),
      Choose(Get(global, LANGUAGE), Languages(inputs.context)),
      Choose(Get(global, VERSION), [Some(Str(inputs.rulesVersion))]),
      Choose(Get(global, ENV), [Get(inputs.context, ENV)]));
  }

  lemma MetadataDecoded(metadata: Option<Json>, inputs: Inputs)
    requires metadata.Some? ==> Decoded(metadata.value)
    ensures Decoded(Obj(NormalMetadata(metadata, inputs)))
  {
    var m := ObjectOr(metadata);
    GlobalMetadataDecoded(ObjectOr(Get(m, "*")), inputs);
    TopLevelDistinct();
    KeptDecoded(m, TOP_LEVEL);
    KeptKeys(m, TOP_LEVEL);
    ConsDecoded(Field("*", Obj(GlobalMetadata(ObjectOr(Get(m, "*")), inputs))), Kept(m, TOP_LEVEL));
  }

  lemma EnrichDecoded(fields: Dict, inputs: Inputs)
    requires Decoded(Obj(fields)) && HasEvents(Obj(fields))
    ensures Decoded(Obj(Enrich(fields, inputs)))
  {
    DecodedGet(fields, "metadata");
    MetadataDecoded(Get(fields, "metadata"), inputs);
    DecodedPut(fields, "metadata", Obj(NormalMetadata(Get(fields, "metadata"), inputs)));
    var d := Put(fields, "metadata", Obj(NormalMetadata(Get(fields, "metadata"), inputs)));
    DecodedGet(d, "events");
    var events := Get(d, "events");
    if events.Some? && events.value.Arr? {
      var all := Map(events.value.items, e => EnrichEvent(e, inputs));
      forall i | 0 <= i < |all| ensures Decoded(all[i]) {
        EnrichedEventDecoded(events.value.items[i], inputs);
      }
      DecodedPut(d, "events", Arr(all));
    }
  }

  // ---------------------------------------------------------------- one run

  /** The same upload context; the generated runtime id may differ but is never empty. */
  ghost predicate Compatible(a: Inputs, b: Inputs) {
    b == a.(runtimeId := b.runtimeId) && a.runtimeId != "" && b.runtimeId != ""
  }

  lemma SameRemaining(content: Option<Json>, a: Inputs, b: Inputs)
    requires Compatible(a, b)
    ensures Remaining(content, a) == Remaining(content, b)
  {
  }

  lemma {:induction false} ChosenFrom(xs: seq<Json>, chunks: seq<Chunk>)
    ensures forall e :: e in Slices(xs, chunks) ==> e in xs
  {
    if chunks != [] { ChosenFrom(xs, chunks[..|chunks| - 1]); }
  }

  lemma {:induction false} ChosenEmpty(xs: seq<Json>, chunks: seq<Chunk>, results: seq<HttpResult>, success: bool)
    requires Contiguous(chunks, |xs|) && |results| <= |chunks|
    ensures Chosen(xs, chunks, results, success) == [] <==> Select(chunks, results, success) == []
  {
    if results != [] {
      ChosenStep(xs, chunks, results, success);
      ChosenEmpty(xs, chunks, results[..|results| - 1], success);
    }
  }

  ghost predicate EnrichedFrom(events: seq<Json>, sent: seq<Json>, inputs: Inputs) {
    forall e | e in events :: exists i :: 0 <= i < |sent| && e == EnrichEvent(sent[i], inputs)
  }

  lemma FromRemaining(original: Json, inputs: Inputs, events: seq<Json>)
    requires HasEvents(original) && forall e :: e in events ==> e in Remaining(Some(original), inputs)
    ensures EnrichedFrom(events, Events(original), inputs)
  {
    var sent := Events(original);
    forall e | e in events ensures exists i :: 0 <= i < |sent| && e == EnrichEvent(sent[i], inputs) {
      var i :| 0 <= i < |sent| && Remaining(Some(original), inputs)[i] == e;
    }
  }

  lemma RetainedDecoded(original: Json, inputs: Inputs, events: seq<Json>)
    requires Decoded(original) && HasEvents(original) && EnrichedFrom(events, Events(original), inputs)
    ensures Decoded(WithEvents(Enriched(original, inputs), events))
  {
    var sent := Events(original);
    EnrichDecoded(original.fields, inputs);
    DecodedGet(original.fields, EVENTS);
    forall e | e in events ensures Decoded(e) {
      var i :| 0 <= i < |sent| && e == EnrichEvent(sent[i], inputs);
      EnrichedEventDecoded(sent[i], inputs);
    }
    DecodedPut(Enrich(original.fields, inputs), EVENTS, Arr(events));
  }

  /** What is retained is well formed, and a later run in the same context would send exactly the failed events. */
  lemma RetainedRemaining(original: Json, inputs: Inputs, later: Inputs, events: seq<Json>)
    requires Decoded(original) && HasEvents(original) && Compatible(inputs, later)
    requires EnrichedFrom(events, Events(original), inputs)
    ensures var kept := WithEvents(Enriched(original, inputs), events);
            && HasEvents(kept) && Events(kept) == events
            && Remaining(Some(kept), later) == events && Enriched(kept, later) == kept
  {
    RetainedGets(original.fields, inputs, events);
    RetainedIsFixed(original.fields, inputs, later, events);
    RetainedEventsFixed(original.fields, Events(original), inputs, later, events);
  }

  ghost predicate AllSent(rep: Report, n: nat) {
    Contiguous(rep.chunks, n) && EndOf(rep.chunks, |rep.chunks|) == n && |rep.results| == |rep.chunks|
  }

  ghost predicate Unchanged(before: Option<Json>, run: Run, after: Option<Json>, rep: Report) {
    && after == before && |rep.results| <= |rep.chunks|
    && (rep.results == [] || Contiguous(rep.chunks, |Remaining(before, run.inputs)|))
    && (Recorded(run, rep) <==> rep.counters.succeeded == 0)
  }

  ghost predicate Deleted(before: Option<Json>, run: Run, after: Option<Json>, rep: Report) {
    after == None && AllSent(rep, |Remaining(before, run.inputs)|) && rep.counters.failed == 0 && Recorded(run, rep)
  }

  ghost predicate Retained(before: Option<Json>, run: Run, after: Option<Json>, rep: Report) {
    && Testable(before) && AllSent(rep, |Remaining(before, run.inputs)|) && Recorded(run, rep)
    && after ==
         Some(WithEvents(Enriched(before.value, run.inputs),
         Chosen(Remaining(before, run.inputs), rep.chunks, rep.results, false)))
  }

  lemma EventsAreRemaining(before: Option<Json>, inputs: Inputs)
    requires Testable(before) && WellFormed(before)
    ensures HasEvents(Enriched(before.value, inputs))
    ensures Events(Enriched(before.value, inputs)) == Remaining(before, inputs)
  {
    EnrichedHasEvents(before.value, inputs);
  }

  /** A run leaves the source alone, deletes it, or replaces it with the failed events. */
  lemma StepForms(before: Option<Json>, run: Run, after: Option<Json>, rep: Report)
    requires Step(before, run, after, rep)
    ensures Unchanged(before, run, after, rep) || Deleted(before, run, after, rep) || Retained(before, run, after, rep)
  {
    if Testable(before) {
      EventsAreRemaining(before, run.inputs);
      StepFormsTestable(before, Enriched(before.value, run.inputs), run, after, rep);
    }
  }

  lemma StepFormsTestable(before: Option<Json>, payload: Json, run: Run, after: Option<Json>, rep: Report)
    requires run.Valid() && Testable(before) && HasEvents(payload) && payload == Enriched(before.value, run.inputs)
    requires Events(payload) == Remaining(before, run.inputs)
    requires Accounts(rep) && TestStep(before, payload, run, after, rep)
    ensures Unchanged(before, run, after, rep) || Deleted(before, run, after, rep) || Retained(before, run, after, rep)
  {
    if Sends(run, rep) {
      CutShape(rep.chunks, |Events(payload)|);
      SentForms(before, payload, run, after, rep);
    } else {
      SilentForms(before, payload, run, after, rep);
    }
  }

  lemma SilentForms(before: Option<Json>, payload: Json, run: Run, after: Option<Json>, rep: Report)
    requires run.Valid() && HasEvents(payload) && !Sends(run, rep)
    requires Accounts(rep) && TestStep(before, payload, run, after, rep)
    ensures Unchanged(before, run, after, rep)
  {
    assert CountAll([]) == Counters(0, 0, 0, 0);
    assert rep.results == [];
  }

  lemma SentForms(before: Option<Json>, payload: Json, run: Run, after: Option<Json>, rep: Report)
    requires run.Valid() && Testable(before) && HasEvents(payload) && payload == Enriched(before.value, run.inputs)
    requires Events(payload) == Remaining(before, run.inputs)
    requires Contiguous(rep.chunks, |Events(payload)|) && EndOf(rep.chunks, |rep.chunks|) == |Events(payload)|
    requires |rep.results| <= |rep.chunks| && Sent(before, payload, run, after, rep)
    ensures Unchanged(before, run, after, rep) || Deleted(before, run, after, rep) || Retained(before, run, after, rep)
  {
    assert before != None;
  }

  // ---------------------------------------------------------------- what one run keeps

  /** Events leave the source only through successful requests, in order; the rest are untouched. */
  ghost predicate Conserves(before: seq<Json>, delivered: seq<Json>, after: seq<Json>, exact: bool) {
    && multiset(before) <= multiset(delivered) + multiset(after)
    && (multiset(before) == multiset(delivered) + multiset(after) <==> exact)
    && Subsequence(after, before)
  }

  lemma UnchangedConserves(before: Option<Json>, run: Run, after: Option<Json>, rep: Report, later: Inputs)
    requires Unchanged(before, run, after, rep) && Accounts(rep) && Compatible(run.inputs, later)
    ensures Conserves(Remaining(before, run.inputs), Delivered(before, run, rep), Remaining(after, later),
            Recorded(run, rep))
  {
    var xs := Remaining(before, run.inputs);
    SameRemaining(before, run.inputs, later);
    SubsequenceSelf(xs);
    OutcomeAccounting(rep.chunks, rep.results);
    var sent := Delivered(before, run, rep);
    if rep.results != [] {
      ChosenEmpty(xs, rep.chunks, rep.results, true);
    }
    assert sent == [] <==> rep.counters.succeeded == 0;
    assert |multiset(sent) + multiset(xs)| == |sent| + |xs|;
  }

  lemma DeletedConserves(before: Option<Json>, run: Run, after: Option<Json>, rep: Report, later: Inputs)
    requires Deleted(before, run, after, rep) && Accounts(rep)
    ensures Conserves(Remaining(before, run.inputs), Delivered(before, run, rep), Remaining(after, later),
            Recorded(run, rep))
  {
    var xs := Remaining(before, run.inputs);
    OutcomeAccounting(rep.chunks, rep.results);
    Parts(xs, rep.chunks, rep.results);
    assert Select(rep.chunks, rep.results, false) == [];
    assert xs[..|xs|] == xs;
  }

  lemma RetainedConserves(before: Option<Json>, run: Run, after: Option<Json>, rep: Report, later: Inputs)
    requires Retained(before, run, after, rep) && Accounts(rep) && WellFormed(before) && Compatible(run.inputs, later)
    ensures Conserves(Remaining(before, run.inputs), Delivered(before, run, rep), Remaining(after, later),
            Recorded(run, rep))
    ensures WellFormed(after)
  {
    var xs := Remaining(before, run.inputs);
    var failed := Chosen(xs, rep.chunks, rep.results, false);
    ChosenFrom(xs, Select(rep.chunks, rep.results, false));
    FromRemaining(before.value, run.inputs, failed);
    RetainedDecoded(before.value, run.inputs, failed);
    RetainedRemaining(before.value, run.inputs, later, failed);
    Parts(xs, rep.chunks, rep.results);
    ChosenInOrder(xs, rep.chunks, rep.results, false);
    assert xs[..|xs|] == xs;
  }

  lemma StepConserves(before: Option<Json>, run: Run, after: Option<Json>, rep: Report, later: Inputs)
    requires Step(before, run, after, rep) && Compatible(run.inputs, later)
    ensures WellFormed(after) && |rep.results| <= |rep.chunks|
    ensures Conserves(Remaining(before, run.inputs), Delivered(before, run, rep), Remaining(after, later),
            Recorded(run, rep))
  {
    StepForms(before, run, after, rep);
    if Unchanged(before, run, after, rep) {
      UnchangedConserves(before, run, after, rep, later);
    } else if Deleted(before, run, after, rep) {
      DeletedConserves(before, run, after, rep, later);
    } else {
      RetainedConserves(before, run, after, rep, later);
    }
  }

  // ---------------------------------------------------------------- whether a run records, decided before it

  /** The k-th request would succeed: an accepted attempt within the limit, after retryable ones only. */
  ghost predicate Delivers(run: Run, k: nat)
    requires run.Valid()
  {
    run.send(k).Http? && exists i: nat :: FirstAccepted(run.send(k).attempt, run.maxAttempts, i)
  }

  ghost predicate FirstAccepted(attempt: nat -> Attempt, maxAttempts: nat, i: nat) {
    1 <= i <= maxAttempts && Accepted(attempt(i)) && forall j: nat :: 1 <= j < i ==> Retryable(attempt(j))
  }

  lemma SucceededIs(run: Run, k: nat, r: HttpResult)
    requires run.Valid() && run.send(k).Http? && RetryOutcome(run.maxAttempts, run.retryDelay, run.send(k).attempt, r)
    ensures r.Succeeded() <==> Delivers(run, k)
  {
    var attempt := run.send(k).attempt;
    if r.Succeeded() { assert FirstAccepted(attempt, run.maxAttempts, r.attempts); }
    if i: nat :| FirstAccepted(attempt, run.maxAttempts, i) {
      assert i == r.attempts;
    }
  }

  /** The run sends the source in n requests. */
  ghost predicate Plans(before: Option<Json>, run: Run, n: nat) {
    && Testable(before) && !run.tagsMissing && !run.dryRun
    && var payload := Enriched(before.value, run.inputs);
       SplitsFor(payload, run) && HasEvents(payload) && Fewest(run.printer, payload, run.limit, n)
  }

  /** No request succeeds before the first that cannot be prepared; or all can be prepared, payloads are not kept,
      and the deletion, or where some request fails the rewriting, works. */
  ghost predicate RecordsAll(run: Run, n: nat)
    requires run.Valid()
  {
    || (forall k: nat :: k < n && AllPrepared(run, k) ==> !Delivers(run, k))
    || (AllPrepared(run, n) && !run.keepPayloads &&
        if forall k: nat :: k < n ==> Delivers(run, k) then run.deleteWorks else run.persistWorks)
  }

  /** Whatever the run delivers, it records: said of the source and of what the run meets, not of its report. */
  ghost predicate Records(before: Option<Json>, run: Run) {
    run.Valid() && forall n: nat :: Plans(before, run, n) ==> RecordsAll(run, n)
  }

  lemma PlansOnce(before: Option<Json>, run: Run, m: nat, n: nat)
    requires Plans(before, run, m) && Plans(before, run, n)
    ensures m == n
  {
    var payload := Enriched(before.value, run.inputs);
    var a :| Partition(run.printer, payload, run.limit, a) && |a| == m;
    var b :| Partition(run.printer, payload, run.limit, b) && |b| == n;
  }

  lemma PlannedChunks(before: Option<Json>, run: Run, after: Option<Json>, rep: Report)
    requires Step(before, run, after, rep) && Sends(run, rep)
    ensures Plans(before, run, |rep.chunks|)
  {
    var payload := Enriched(before.value, run.inputs);
    assert Prepared(payload, run, rep.chunks);
    assert Partition(run.printer, payload, run.limit, RangesOf(rep.chunks));
  }

  lemma SilentRun(before: Option<Json>, run: Run, after: Option<Json>, rep: Report, n: nat)
    requires Step(before, run, after, rep) && !Sends(run, rep)
    ensures !Plans(before, run, n) && rep.counters.succeeded == 0
  {
    assert rep.results == [];
  }

  lemma {:induction false} CountedDelivers(run: Run, results: seq<HttpResult>)
    requires run.Valid() && SentSoFar(run, results)
    ensures CountAll(results).succeeded == 0 <==> forall k: nat :: k < |results| ==> !Delivers(run, k)
    ensures CountAll(results).failed == 0 <==> forall k: nat :: k < |results| ==> Delivers(run, k)
  {
    if results != [] {
      var m: nat := |results| - 1;
      var most := results[..m];
      assert forall j: nat :: j < m ==> most[j] == results[j];
      CountedDelivers(run, most);
      SucceededIs(run, m, results[m]);
    }
  }

  lemma SendingRecords(run: Run, rep: Report)
    requires run.Valid() && Ended(run, rep)
    ensures Recorded(run, rep) <==> RecordsAll(run, |rep.chunks|)
  {
    var n := |rep.chunks|;
    CountedDelivers(run, rep.results);
    OutcomeAccounting(rep.chunks, rep.results);
    forall k: nat | k <= n ensures AllPrepared(run, k) <==> k <= |rep.results| { PreparedUpTo(run, rep, k); }
  }

  lemma PreparedUpTo(run: Run, rep: Report, k: nat)
    requires run.Valid() && Ended(run, rep) && k <= |rep.chunks|
    ensures AllPrepared(run, k) <==> k <= |rep.results|
  {
    if |rep.results| < k { assert !run.send(|rep.results|).Http?; }
  }

  /** The reports say nothing that the source and the run's inputs do not decide. */
  lemma RecordedIs(before: Option<Json>, run: Run, after: Option<Json>, rep: Report)
    requires Step(before, run, after, rep)
    ensures Recorded(run, rep) <==> Records(before, run)
  {
    if Sends(run, rep) {
      PlannedChunks(before, run, after, rep);
      StepEnds(before, run, after, rep);
      SendingRecords(run, rep);
      forall n: nat | Plans(before, run, n) ensures n == |rep.chunks| { PlansOnce(before, run, n, |rep.chunks|); }
    } else {
      forall n: nat ensures !Plans(before, run, n) { SilentRun(before, run, after, rep, n); }
      SilentRun(before, run, after, rep, 0);
    }
  }

  // ---------------------------------------------------------------- any number of runs

  /** The contents of the source before each run and after the last, all runs in one upload context. */
  ghost predicate History(contents: seq<Option<Json>>, runs: seq<Run>, reps: seq<Report>, inputs: Inputs) {
    && |contents| == |runs| + 1 && |reps| == |runs| && WellFormed(contents[0])
    && forall k :: 0 <= k < |runs| ==>
         Step(contents[k], runs[k], contents[k + 1], reps[k]) && Compatible(runs[k].inputs, inputs) &&
         Compatible(inputs, runs[k].inputs)
  }

  /** The events of the successful requests, run by run. */
  ghost function DeliveredPer(contents: seq<Option<Json>>, runs: seq<Run>, reps: seq<Report>): (r: seq<seq<Json>>)
    requires |runs| == |reps| <= |contents|
    ensures |r| == |runs|
  {
    seq(|runs|,
      i requires 0 <= i < |runs| => if |reps[i].results| <= |reps[i].chunks|
      then Delivered(contents[i], runs[i], reps[i]) else [])
  }

  ghost function Concat(parts: seq<seq<Json>>, k: nat): seq<Json>
    requires k <= |parts|
  {
    if k == 0 then [] else Concat(parts, k - 1) + parts[k - 1]
  }

  ghost function Exact(runs: seq<Run>, reps: seq<Report>): (r: seq<bool>)
    requires |runs| == |reps|
    ensures |r| == |runs|
  {
    seq(|runs|, i requires 0 <= i < |runs| => Recorded(runs[i], reps[i]))
  }

  ghost function RemainingAt(contents: seq<Option<Json>>, inputs: Inputs): (r: seq<seq<Json>>)
    ensures |r| == |contents|
  {
    seq(|contents|, i requires 0 <= i < |contents| => Remaining(contents[i], inputs))
  }

  ghost predicate AllTrue(bs: seq<bool>, k: nat)
    requires k <= |bs|
  {
    forall i :: 0 <= i < k ==> bs[i]
  }

  lemma Compose(a: seq<Json>, sent: seq<Json>, b: seq<Json>, more: seq<Json>, c: seq<Json>, exact: bool, exactly: bool)
    requires Conserves(a, sent, b, exact) && Conserves(b, more, c, exactly)
    ensures Conserves(a, sent + more, c, exact && exactly)
  {
    SubsequenceTransitive(c, b, a);
    var A, S, B, M, C := multiset(a), multiset(sent), multiset(b), multiset(more), multiset(c);
    ComposeMultisets(A, S, B, M, C);
    assert multiset(sent + more) == S + M;
  }

  lemma ComposeMultisets(A: multiset<Json>, S: multiset<Json>, B: multiset<Json>, M: multiset<Json>, C: multiset<Json>)
    requires A <= S + B && B <= M + C
    ensures A <= (S + M) + C
    ensures A == (S + M) + C <==> A == S + B && B == M + C
  {
    assert S + B <= S + (M + C) == (S + M) + C;
    if A == (S + M) + C {
      forall e ensures B[e] == (M + C)[e] {
        assert A[e] == S[e] + (M + C)[e] && A[e] <= S[e] + B[e];
      }
    }
  }

  ghost predicate Chain(held: seq<seq<Json>>, sent: seq<seq<Json>>, exact: seq<bool>) {
    && |held| == |sent| + 1 && |exact| == |sent|
    && forall i :: 0 <= i < |sent| ==> Conserves(held[i], sent[i], held[i + 1], exact[i])
  }

  lemma {:induction false} Telescope(held: seq<seq<Json>>, sent: seq<seq<Json>>, exact: seq<bool>, k: nat)
    requires Chain(held, sent, exact) && k <= |sent|
    ensures Conserves(held[0], Concat(sent, k), held[k], AllTrue(exact, k))
  {
    if k == 0 {
      SubsequenceSelf(held[0]);
    } else {
      Telescope(held, sent, exact, k - 1);
      Compose(held[0], Concat(sent, k - 1), held[k - 1], sent[k - 1], held[k], AllTrue(exact, k - 1), exact[k - 1]);
    }
  }

  lemma HistoryChain(contents: seq<Option<Json>>, runs: seq<Run>, reps: seq<Report>, inputs: Inputs)
    requires History(contents, runs, reps, inputs)
    ensures Chain(RemainingAt(contents, inputs), DeliveredPer(contents, runs, reps), Exact(runs, reps))
  {
    var held, sent, exact := RemainingAt(contents, inputs), DeliveredPer(contents, runs, reps), Exact(runs, reps);
    forall i | 0 <= i < |sent| ensures Conserves(held[i], sent[i], held[i + 1], exact[i]) {
      HistoryStep(contents, runs, reps, inputs, i);
    }
  }

  ghost predicate AllRecorded(runs: seq<Run>, reps: seq<Report>)
    requires |runs| == |reps|
  {
    forall i :: 0 <= i < |runs| ==> Recorded(runs[i], reps[i])
  }

  lemma AllExact(runs: seq<Run>, reps: seq<Report>)
    requires |runs| == |reps|
    ensures AllTrue(Exact(runs, reps), |runs|) <==> AllRecorded(runs, reps)
  {
    assert forall i :: 0 <= i < |runs| ==> Exact(runs, reps)[i] == Recorded(runs[i], reps[i]);
  }

  /** Every run was such that it records what it delivers. */
  ghost predicate AllRecord(contents: seq<Option<Json>>, runs: seq<Run>)
    requires |contents| == |runs| + 1
  {
    forall i :: 0 <= i < |runs| ==> Records(contents[i], runs[i])
  }

  /** Over any runs and any HTTP outcomes: every event is in a successful request or still in the source, in order;
      it is delivered exactly once if and only if every run was such that it records what it delivers. */
  lemma NothingLost(contents: seq<Option<Json>>, runs: seq<Run>, reps: seq<Report>, inputs: Inputs)
    requires History(contents, runs, reps, inputs)
    ensures Conserves(Remaining(contents[0], inputs), Concat(DeliveredPer(contents, runs, reps), |runs|),
                      Remaining(contents[|runs|], inputs), AllRecord(contents, runs))
  {
    HistoryChain(contents, runs, reps, inputs);
    AllExact(runs, reps);
    forall i | 0 <= i < |runs| ensures Recorded(runs[i], reps[i]) <==> Records(contents[i], runs[i]) {
      RecordedIs(contents[i], runs[i], contents[i + 1], reps[i]);
    }
    Telescope(RemainingAt(contents, inputs), DeliveredPer(contents, runs, reps), Exact(runs, reps), |runs|);
  }

  /** What the uploader promises: deleting and rewriting sources works, and requests can be prepared. */
  ghost predicate Reliable(run: Run) {
    !run.keepPayloads && run.deleteWorks && run.persistWorks && forall k: nat :: run.send(k).Http?
  }

  /** Then every event is delivered exactly once or still in the source, whatever HTTP does. */
  lemma ExactlyOnce(contents: seq<Option<Json>>, runs: seq<Run>, reps: seq<Report>, inputs: Inputs)
    requires History(contents, runs, reps, inputs) && forall i :: 0 <= i < |runs| ==> Reliable(runs[i])
    ensures multiset(Remaining(contents[0], inputs)) ==
            multiset(Concat(DeliveredPer(contents, runs, reps), |runs|)) + multiset(Remaining(contents[|runs|], inputs))
  {
    ReliableRecord(contents, runs, reps, inputs);
    NothingLost(contents, runs, reps, inputs);
  }

  lemma ReliableRecord(contents: seq<Option<Json>>, runs: seq<Run>, reps: seq<Report>, inputs: Inputs)
    requires History(contents, runs, reps, inputs) && forall i :: 0 <= i < |runs| ==> Reliable(runs[i])
    ensures AllRecord(contents, runs)
  {
    forall i | 0 <= i < |runs| ensures Records(contents[i], runs[i]) {
      ValidRun(contents, runs, reps, inputs, i);
      ReliableRecords(contents[i], runs[i]);
    }
  }

  lemma ReliableRecords(before: Option<Json>, run: Run)
    requires run.Valid() && Reliable(run)
    ensures Records(before, run)
  {
  }

  lemma ValidRun(contents: seq<Option<Json>>, runs: seq<Run>, reps: seq<Report>, inputs: Inputs, i: nat)
    requires History(contents, runs, reps, inputs) && i < |runs|
    ensures runs[i].Valid()
  {
    assert Step(contents[i], runs[i], contents[i + 1], reps[i]);
  }

  lemma HistoryStep(contents: seq<Option<Json>>, runs: seq<Run>, reps: seq<Report>, inputs: Inputs, i: nat)
    requires History(contents, runs, reps, inputs) && i < |runs|
    ensures |reps[i].results| <= |reps[i].chunks|
    ensures Conserves(Remaining(contents[i], inputs), Delivered(contents[i], runs[i], reps[i]),
            Remaining(contents[i + 1], inputs), Recorded(runs[i], reps[i]))
  {
    assert Step(contents[i], runs[i], contents[i + 1], reps[i]);
    StepConserves(contents[i], runs[i], contents[i + 1], reps[i], inputs);
    SameRemaining(contents[i], runs[i].inputs, inputs);
  }

  // ---------------------------------------------------------------- an event delivered twice

  /** A run that sends everything in one accepted request, and keeps the payload or cannot delete it. */
  function OneRequest(inputs: Inputs, p: Printer, limit: int, keep: bool): Run {
    Run(inputs, p, limit, true, k => true, 1, 0.0, k => Http(i => Response(200, Unusable)), false, false, keep, true,
      keep)
  }

  function OneChunkReport(p: Printer, payload: Json): Report
    requires HasEvents(payload)
  {
    var n := |Events(payload)|;
    Report(Succeeded, [Chunk(1, SliceBody(p, payload, 0, n), 0, n)], [HttpResult(Some(200), 1, None, [])],
      Counters(1, 0, 1, 0))
  }

  lemma OneChunk(p: Printer, payload: Json, run: Run, rep: Report)
    requires HasEvents(payload) && Events(payload) != [] && Encodable(p, payload) && rep == OneChunkReport(p, payload)
    requires run == OneRequest(run.inputs, p, |SliceBody(p, payload, 0, |Events(payload)|)| + 1, run.keepPayloads)
    ensures SplitRight(payload, run, rep) && Cut(rep.chunks, |Events(payload)|)
  {
    var n := |Events(payload)|;
    WholePartition(p, payload, run.limit);
    assert RangesOf(rep.chunks) == [Range(0, n)];
    FewestWrites(p, payload, run.limit, run.writable, [Range(0, n)]);
  }

  lemma OneResult(run: Run, rep: Report, p: Printer, payload: Json, limit: int)
    requires HasEvents(payload) && run == OneRequest(run.inputs, p, limit, run.keepPayloads)
    requires rep == OneChunkReport(p, payload)
    ensures SentSoFar(run, rep.results) && Accounts(rep)
    ensures Select(rep.chunks, rep.results, true) == rep.chunks
  {
    var r := rep.results[0];
    assert rep.results[..0] == [];
    assert CountAll([]) == Counters(0, 0, 0, 0);
    assert Select(rep.chunks, [], true) == [];
    assert RetryOutcome(1, 0.0, i => Response(200, Unusable), r);
  }

  /** The source is left as it was, and everything in it was delivered. */
  lemma OneRequestStep(content: Json, inputs: Inputs, p: Printer, keep: bool) returns (run: Run, rep: Report)
    requires Decoded(content) && HasEvents(content) && Events(content) != [] && Encodable(p, Enriched(content, inputs))
    ensures run.inputs == inputs && run.keepPayloads == keep && run.persistWorks && (run.deleteWorks <==> keep)
    ensures Step(Some(content), run, Some(content), rep)
    ensures Delivered(Some(content), run, rep) == Remaining(Some(content), inputs)
  {
    var payload := Enriched(content, inputs);
    EventsAreRemaining(Some(content), inputs);
    run := OneRequest(inputs, p, |SliceBody(p, payload, 0, |Events(payload)|)| + 1, keep);
    rep := OneChunkReport(p, payload);
    OneRequestTested(content, payload, p, run, rep);
    OneRequestRuns(content, payload, run, rep);
    OneSlice(Events(payload), rep.chunks);
  }

  lemma OneRequestTested(content: Json, payload: Json, p: Printer, run: Run, rep: Report)
    requires HasEvents(payload) && Events(payload) != [] && Encodable(p, payload) && rep == OneChunkReport(p, payload)
    requires run == OneRequest(run.inputs, p, |SliceBody(p, payload, 0, |Events(payload)|)| + 1, run.keepPayloads)
    ensures Accounts(rep) && SplitRight(payload, run, rep)
    ensures TestStep(Some(content), payload, run, Some(content), rep)
    ensures Select(rep.chunks, rep.results, true) == rep.chunks
  {
    OneChunk(p, payload, run, rep);
    OneResult(run, rep, p, payload, run.limit);
  }

  lemma OneRequestRuns(content: Json, payload: Json, run: Run, rep: Report)
    requires Decoded(content) && Testable(Some(content)) && run.Valid() && payload == Enriched(content, run.inputs)
    requires HasEvents(payload) && Accounts(rep) && SplitRight(payload, run, rep)
    requires TestStep(Some(content), payload, run, Some(content), rep)
    ensures Step(Some(content), run, Some(content), rep)
  {
  }

  lemma OneSlice(xs: seq<Json>, chunks: seq<Chunk>)
    requires |chunks| == 1 && chunks[0].start == 0 && chunks[0].end == |xs|
    ensures Slices(xs, chunks) == xs
  {
    assert chunks[..0] == [] && xs[0..|xs|] == xs;
  }

  /** For every serializable source with events: a run whose requests all succeed, with payloads kept or with a
      deletion that fails, followed by the same run again, puts every event into two successful requests. */
  lemma DeliveredTwice(content: Json, inputs: Inputs, p: Printer, keep: bool) returns (run: Run, rep: Report)
    requires Decoded(content) && HasEvents(content) && Events(content) != [] && Encodable(p, Enriched(content, inputs))
    requires inputs.runtimeId != ""
    ensures run.keepPayloads == keep && run.persistWorks && (run.deleteWorks <==> keep)
    ensures var source := Some(content);
            && History([source, source, source], [run, run], [rep, rep], inputs)
            && Concat(DeliveredPer([source, source, source], [run, run], [rep, rep]), 2)
               == Remaining(source, inputs) + Remaining(source, inputs)
            && Remaining(source, inputs) != []
  {
    run, rep := OneRequestStep(content, inputs, p, keep);
    TwiceHistory(Some(content), run, rep, inputs);
    TwiceSent(Some(content), run, rep, Remaining(Some(content), inputs));
  }

  lemma TwiceHistory(source: Option<Json>, run: Run, rep: Report, inputs: Inputs)
    requires Step(source, run, source, rep) && run.inputs == inputs && inputs.runtimeId != ""
    ensures History([source, source, source], [run, run], [rep, rep], inputs)
  {
  }

  lemma TwiceSent(source: Option<Json>, run: Run, rep: Report, part: seq<Json>)
    requires |rep.results| <= |rep.chunks| && Delivered(source, run, rep) == part
    ensures Concat(DeliveredPer([source, source, source], [run, run], [rep, rep]), 2) == part + part
  {
    var sent := DeliveredPer([source, source, source], [run, run], [rep, rep]);
    assert sent == [part, part];
    TwoParts(sent, part);
  }

  lemma TwoParts(parts: seq<seq<Json>>, part: seq<Json>)
    requires parts == [part, part]
    ensures Concat(parts, 2) == part + part
  {
    assert Concat(parts, 0) == [] && Concat(parts, 1) == [] + part;
  }

  // ---------------------------------------------------------------- a retained source splits again

  ghost predicate Splittable(p: Printer, payload: Json, limit: int)
    requires HasEvents(payload)
  {
    exists rs :: Partition(p, payload, limit, rs)
  }

  lemma PutTwice(d: Dict, k: string, v: Json, w: Json)
    ensures Put(Put(d, k, v), k, w) == Put(d, k, w)
  {
    var i, e := Find(d, k), Put(d, k, v);
    assert forall j :: 0 <= j < i ==> e[j].key != k;
    assert Find(e, k) == i;
  }

  lemma {:induction false} Singletons(n: nat, from: nat) returns (rs: seq<Range>)
    requires from <= n
    ensures TilesFrom(rs, from, n) && forall k :: 0 <= k < |rs| ==> rs[k].start < n && rs[k].end == rs[k].start + 1
    decreases n - from
  {
    if from == n {
      rs := [];
    } else {
      var rest := Singletons(n, from + 1);
      rs := [Range(from, from + 1)] + rest;
    }
  }

  /** A body for one event fits wherever a body of a range holding that event fits. */
  lemma AloneFits(p: Printer, payload: Json, limit: int, r: Range, i: nat)
    requires HasEvents(payload) && DistinctKeys(payload.fields) && Fits(p, payload, limit, r) && r.start <= i < r.end
    ensures FitsAlone(p, payload, limit, i)
  {
    var at := Find(payload.fields, EVENTS);
    FrameIsExact(p, payload, at);
    var prefix, suffix := FramePrefix(p, payload.fields[..at]), FrameSuffix(p, payload.fields[at + 1..]);
    SliceSize(p, payload, prefix, suffix, r.start, r.end);
    SliceSize(p, payload, prefix, suffix, i, i + 1);
    SizeMonotone(|prefix| + |suffix|, EncodeAll(p, Events(payload)), r.start, r.end, i, i + 1);
  }

  lemma AllAlone(p: Printer, payload: Json, limit: int, rs: seq<Range>, i: nat)
    requires HasEvents(payload) && DistinctKeys(payload.fields) && Partition(p, payload, limit, rs)
    requires i < |Events(payload)|
    ensures FitsAlone(p, payload, limit, i)
  {
    var k := TilesCover(rs, 0, |Events(payload)|, i);
    AloneFits(p, payload, limit, rs[k], i);
  }

  /** Some events of a payload that splits, in any order, split too. */
  lemma SubpayloadSplits(p: Printer, payload: Json, limit: int, events: seq<Json>)
    requires HasEvents(payload) && DistinctKeys(payload.fields) && Splittable(p, payload, limit)
    requires forall e :: e in events ==> e in Events(payload)
    ensures HasEvents(WithEvents(payload, events)) && Events(WithEvents(payload, events)) == events
    ensures Splittable(p, WithEvents(payload, events), limit)
  {
    var kept := WithEvents(payload, events);
    var rs :| Partition(p, payload, limit, rs);
    PutGet(payload.fields, EVENTS, Arr(events), EVENTS);
    var alone := Singletons(|events|, 0);
    forall k | 0 <= k < |alone| ensures Fits(p, kept, limit, alone[k]) {
      var i := alone[k].start;
      assert events[i] in events;
      var j :| 0 <= j < |Events(payload)| && Events(payload)[j] == events[i];
      AllAlone(p, payload, limit, rs, j);
      assert events[i..i + 1] == Events(payload)[j..j + 1];
      PutTwice(payload.fields, EVENTS, Arr(events), Arr(events[i..i + 1]));
    }
    assert Partition(p, kept, limit, alone);
  }

  /** A source that a run rewrote never fails again for its size, in the same upload context. */
  lemma RetainedSplitsAgain(before: Option<Json>, run: Run, middle: Option<Json>, rep: Report, later: Run,
      after: Option<Json>, rep': Report)
    requires Step(before, run, middle, rep) && Step(middle, later, after, rep')
    requires Compatible(run.inputs, later.inputs) && later.printer == run.printer && later.limit == run.limit
    requires middle != before
    ensures rep'.status.SplitFailed? ==>
            !rep'.status.error.EnvelopeExceedsLimit? && !rep'.status.error.SingleEventExceedsLimit?
  {
    StepForms(before, run, middle, rep);
    if middle.Some? {
      var xs := Remaining(before, run.inputs);
      var failed := Chosen(xs, rep.chunks, rep.results, false);
      EventsAreRemaining(before, run.inputs);
      EnrichedHasEvents(before.value, run.inputs);
      RewrittenWasSplit(before, run, middle, rep);
      ChosenFrom(xs, Select(rep.chunks, rep.results, false));
      SubpayloadSplits(run.printer, Enriched(before.value, run.inputs), run.limit, failed);
      FromRemaining(before.value, run.inputs, failed);
      RetainedRemaining(before.value, run.inputs, later.inputs, failed);
      SplittableSucceeds(middle, later, after, rep');
    }
  }

  lemma RewrittenWasSplit(before: Option<Json>, run: Run, after: Option<Json>, rep: Report)
    requires Step(before, run, after, rep) && Testable(before) && after != before
    ensures HasEvents(Enriched(before.value, run.inputs))
    ensures Splittable(run.printer, Enriched(before.value, run.inputs), run.limit)
  {
    assert Prepared(Enriched(before.value, run.inputs), run, rep.chunks);
  }

  lemma SplittableSucceeds(before: Option<Json>, run: Run, after: Option<Json>, rep: Report)
    requires Step(before, run, after, rep) && before.Some? && HasEvents(before.value)
    requires HasEvents(Enriched(before.value, run.inputs))
    requires Splittable(run.printer, Enriched(before.value, run.inputs), run.limit)
    ensures rep.status.SplitFailed? ==>
            !rep.status.error.EnvelopeExceedsLimit? && !rep.status.error.SingleEventExceedsLimit?
  {
  }
}
