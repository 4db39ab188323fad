/** One telemetry file: its requests, and the retry of the only request that failed. */
module TelemetryFile {
  import opened Json
  import opened Transport
  import opened Wrappers

  const MARKER: string := "_dd_test_optimization_retry_without_augmentation"

  /** Instructions for one file; `messages` is None when they do not decode to a list. */
  datatype Directive = Directive(env: string, messages: Option<seq<Json>>, append: bool, synthetic: bool,
      seqId: Json, timestamp: Json)

  const NOTHING: Directive := Directive("", None, false, false, Null, Null)

  // ---------------------------------------------------------------- provider tags

  function Replacement(suffix: string): Json { Str("provider:bazel/" + suffix) }

  function RewriteTag(tag: Json, suffix: string): Json {
    if tag == Str("provider:bazel") then Replacement(suffix) else tag
  }

  function RewriteTags(tags: seq<Json>, suffix: string): (r: seq<Json>)
    ensures |r| == |tags|
  {
    seq(|tags|, i requires 0 <= i < |tags| => RewriteTag(tags[i], suffix))
  }

  function RewriteSeries(series: Json, suffix: string): Json {
    if series.Obj? && Get(series.fields, "tags").Some? && Get(series.fields, "tags").value.Arr?
    then Obj(Put(series.fields, "tags", Arr(RewriteTags(Get(series.fields, "tags").value.items, suffix))))
    else series
  }

  function RewriteAllSeries(items: seq<Json>, suffix: string): (r: seq<Json>)
    ensures |r| == |items|
  {
    seq(|items|, i requires 0 <= i < |items| => RewriteSeries(items[i], suffix))
  }

  predicate Metrics(m: Dict) {
    Get(m, "request_type") == Some(Str("generate-metrics")) || Get(m, "request_type") == Some(Str("distributions"))
  }

  predicate Batch(m: Dict) { Get(m, "request_type") == Some(Str("message-batch")) }

  function RewriteBody(body: Json, suffix: string): Json {
    if body.Obj? && Get(body.fields, "series").Some? && Get(body.fields, "series").value.Arr?
    then Obj(Put(body.fields, "series", Arr(RewriteAllSeries(Get(body.fields, "series").value.items, suffix))))
    else body
  }

  /** `rewrite_message`, through nested batches. */
  function Rewrite(m: Json, suffix: string): Json {
    if !m.Obj? then m
    else
      var i := Find(m.fields, "payload");
      if i == |m.fields| then m
      else if Metrics(m.fields) then Obj(Put(m.fields, "payload", RewriteBody(m.fields[i].value, suffix)))
      else if Batch(m.fields) && m.fields[i].value.Arr?
        then Obj(Put(m.fields, "payload", Arr(RewriteAll(m.fields[i].value.items, suffix))))
      else m
  }

  function RewriteAll(items: seq<Json>, suffix: string): (r: seq<Json>)
    ensures |r| == |items|
  {
    if items == [] then [] else [Rewrite(items[0], suffix)] + RewriteAll(items[1..], suffix)
  }

  lemma TagsTwice(tags: seq<Json>, suffix: string, later: string)
    requires suffix != ""
    ensures RewriteTags(RewriteTags(tags, suffix), later) == RewriteTags(tags, suffix)
  {
    assert |"provider:bazel/" + suffix| > |"provider:bazel"|;
  }

  lemma SeriesTwice(series: Json, suffix: string, later: string)
    requires suffix != ""
    ensures RewriteSeries(RewriteSeries(series, suffix), later) == RewriteSeries(series, suffix)
  {
    if series.Obj? && Get(series.fields, "tags").Some? && Get(series.fields, "tags").value.Arr? {
      var tags := Get(series.fields, "tags").value.items;
      PutRead(series.fields, "tags", Arr(RewriteTags(tags, suffix)));
      TagsTwice(tags, suffix, later);
    }
  }

  lemma BodyTwice(body: Json, suffix: string, later: string)
    requires suffix != ""
    ensures RewriteBody(RewriteBody(body, suffix), later) == RewriteBody(body, suffix)
  {
    if body.Obj? && Get(body.fields, "series").Some? && Get(body.fields, "series").value.Arr? {
      var items := Get(body.fields, "series").value.items;
      PutRead(body.fields, "series", Arr(RewriteAllSeries(items, suffix)));
      forall i | 0 <= i < |items|
        ensures RewriteSeries(RewriteSeries(items[i], suffix), later) == RewriteSeries(items[i], suffix) {
        SeriesTwice(items[i], suffix, later);
      }
      assert RewriteAllSeries(RewriteAllSeries(items, suffix), later) == RewriteAllSeries(items, suffix);
    }
  }

  /** Writing the payload leaves the request type alone. */
  lemma PayloadOnly(d: Dict, v: Json)
    ensures Get(Put(d, "payload", v), "payload") == Some(v)
    ensures Metrics(Put(d, "payload", v)) == Metrics(d) && Batch(Put(d, "payload", v)) == Batch(d)
    ensures forall w :: Put(Put(d, "payload", v), "payload", w) == Put(d, "payload", w)
  {
    assert |"payload"| != |"request_type"|;
    PutRead(d, "payload", v);
    PutOther(d, "payload", v, "request_type");
  }

  /** Once provider tags are rewritten, no later rewriting changes them, whatever its suffix, at any depth of
      batches. */
  lemma {:induction false} RewriteTwice(m: Json, suffix: string, later: string)
    requires suffix != ""
    ensures Rewrite(Rewrite(m, suffix), later) == Rewrite(m, suffix)
    decreases m
  {
    if m.Obj? && Find(m.fields, "payload") < |m.fields| {
      var body := m.fields[Find(m.fields, "payload")].value;
      if Metrics(m.fields) {
        PayloadOnly(m.fields, RewriteBody(body, suffix));
        BodyTwice(body, suffix, later);
      } else if Batch(m.fields) && body.Arr? {
        PayloadOnly(m.fields, Arr(RewriteAll(body.items, suffix)));
        RewriteAllTwice(body.items, suffix, later);
      }
    }
  }

  lemma {:induction false} RewriteAllTwice(items: seq<Json>, suffix: string, later: string)
    requires suffix != ""
    ensures RewriteAll(RewriteAll(items, suffix), later) == RewriteAll(items, suffix)
    decreases items
  {
    if items != [] {
      RewriteTwice(items[0], suffix, later);
      RewriteAllTwice(items[1..], suffix, later);
    }
  }

  // ---------------------------------------------------------------- the requests of one file

  /** `d.pop(k, ...)`. */
  function Pop(d: Dict, k: string): Dict {
    var i := Find(d, k);
    if i < |d| then d[..i] + d[i + 1..] else d
  }

  predicate Marked(d: Dict) { Get(d, MARKER) == Some(Bool(true)) }

  function OverrideEnv(d: Dict, env: string): Dict {
    if env != "" && Get(d, "application").Some? && Get(d, "application").value.Obj?
    then Put(d, "application", Obj(Put(Get(d, "application").value.fields, "env", Str(env))))
    else d
  }

  function AppendMessages(d: Dict, directive: Directive): Dict {
    if directive.append && directive.messages.Some? && Get(d, "payload").Some? && Get(d, "payload").value.Arr?
    then Put(d, "payload", Arr(Get(d, "payload").value.items + directive.messages.value))
    else d
  }

  function Rewritten(d: Dict, suffix: string): Dict {
    if suffix == "" || !Rewrite(Obj(d), suffix).Obj? then d else Rewrite(Obj(d), suffix).fields
  }

  /** `_prepare_telemetry_source`. */
  function Prepare(d: Dict, directive: Directive, suffix: string): Dict {
    Rewritten(AppendMessages(OverrideEnv(d, directive.env), directive), suffix)
  }

  predicate NonEmptyText(v: Option<Json>) { v.Some? && v.value.Str? && v.value.text != "" }

  predicate Metadata(d: Dict) { NonEmptyText(Get(d, "api_version")) && NonEmptyText(Get(d, "request_type")) }

  function OrNull(v: Option<Json>): Json { if v.Some? then v.value else Null }

  /** `_build_synthetic_telemetry`. */
  function Synthetic(d: Dict, directive: Directive): Option<Dict> {
    if directive.messages.None? || Get(d, "application").None? || !Get(d, "application").value.Obj? then None
    else
      Some([Field("api_version", OrNull(Get(d, "api_version"))), Field("request_type", Str("message-batch")),
            Field("runtime_id", OrNull(Get(d, "runtime_id"))), Field("seq_id", directive.seqId),
            Field("tracer_time", directive.timestamp),
            Field("application", Get(d, "application").value), Field("host", OrNull(Get(d, "host"))),
            Field("payload", Arr(directive.messages.value))]
           + if Get(d, "debug").Some? then [Field("debug", Get(d, "debug").value)] else [])
  }

  /** The bodies sent for this content; None when its metadata is invalid. */
  function Requests(content: Dict, directive: Directive, suffix: string): Option<seq<Dict>> {
    var used := if Marked(content) then NOTHING else directive;
    var body := Prepare(Pop(content, MARKER), used, suffix);
    if !Metadata(body) then None
    else
      Some([body] +
        if used.synthetic && Synthetic(body, used).Some? then [Rewritten(Synthetic(body, used).value, suffix)] else [])
  }

  // ---------------------------------------------------------------- a retry is the same request

  /** The later run cannot rewrite what the earlier one left alone. */
  predicate Lasts(suffix: string, later: string) { suffix != "" || later == "" }

  lemma RewrittenTwice(d: Dict, suffix: string, later: string)
    requires Lasts(suffix, later)
    ensures Rewritten(Rewritten(d, suffix), later) == Rewritten(d, suffix)
  {
    if suffix != "" { RewriteTwice(Obj(d), suffix, later); }
  }

  lemma RewrittenGet(d: Dict, suffix: string, k: string)
    requires k != "payload"
    ensures Get(Rewritten(d, suffix), k) == Get(d, k)
  {
    RewrittenForm(d, suffix);
    PutOtherAny(d, "payload", k);
  }

  /** Rewriting only writes the payload. */
  lemma RewrittenForm(d: Dict, suffix: string)
    ensures Rewritten(d, suffix) == d || exists v :: Rewritten(d, suffix) == Put(d, "payload", v)
  {
  }

  lemma PopAbsent(d: Dict, k: string)
    requires DistinctKeys(d)
    ensures Get(Pop(d, k), k).None?
  {
    var i := Find(d, k);
    if i < |d| {
      var e := Pop(d, k);
      forall j | 0 <= j < |e| ensures e[j].key != k {
        assert e[j] == d[if j < i then j else j + 1];
      }
    }
  }

  lemma PopPut(d: Dict, k: string, v: Json)
    requires Get(d, k).None?
    ensures Pop(Put(d, k, v), k) == d && Get(Put(d, k, v), k) == Some(v)
  {
    PutRead(d, k, v);
    FindIs(Put(d, k, v), k, |d|);
  }

  lemma PreparedUnmarked(d: Dict, directive: Directive, suffix: string)
    requires Get(d, MARKER).None?
    ensures Get(Prepare(d, directive, suffix), MARKER).None?
  {
    assert |MARKER| == 48;
    var e := OverrideEnv(d, directive.env);
    PutOtherAny(d, "application", MARKER);
    PutOtherAny(e, "payload", MARKER);
    RewrittenGet(AppendMessages(e, directive), suffix, MARKER);
  }

  lemma PutOtherAny(d: Dict, k: string, q: string)
    requires q != k
    ensures forall v :: Get(Put(d, k, v), q) == Get(d, q)
  {
    forall v ensures Get(Put(d, k, v), q) == Get(d, q) { PutOther(d, k, v, q); }
  }

  /** The body of a request carries no marker, has its metadata, and is not changed by another preparation. */
  ghost predicate Retryable(b: Dict, suffix: string) {
    Get(b, MARKER).None? && Metadata(b) && Rewritten(b, suffix) == b
  }

  lemma SyntheticRetryable(d: Dict, directive: Directive, suffix: string, later: string)
    requires Metadata(d) && Synthetic(d, directive).Some? && Lasts(suffix, later)
    ensures Retryable(Rewritten(Synthetic(d, directive).value, suffix), later)
  {
    var x := Synthetic(d, directive).value;
    RewrittenTwice(x, suffix, later);
    RewrittenGet(x, suffix, "api_version");
    RewrittenGet(x, suffix, "request_type");
    RewrittenGet(x, suffix, MARKER);
    SyntheticGets(d, directive);
    SyntheticUnmarked(d, directive);
  }

  lemma SyntheticGets(d: Dict, directive: Directive)
    requires Metadata(d) && Synthetic(d, directive).Some?
    ensures var x := Synthetic(d, directive).value;
            Get(x, "api_version") == Get(d, "api_version") && Get(x, "request_type") == Some(Str("message-batch"))
  {
    var x := Synthetic(d, directive).value;
    assert |"api_version"| == 11 && |"request_type"| == 12;
    FindIs(x, "api_version", 0);
    FindIs(x, "request_type", 1);
  }

  lemma SyntheticUnmarked(d: Dict, directive: Directive)
    requires Synthetic(d, directive).Some?
    ensures Get(Synthetic(d, directive).value, MARKER).None?
  {
    assert |MARKER| == 48;
    var x := Synthetic(d, directive).value;
    ShortKeys(x);
    assert !Has(x, MARKER);
  }

  lemma ShortKeys(x: Dict)
    requires 8 <= |x| <= 9
    requires x[0].key == "api_version" && x[1].key == "request_type" && x[2].key == "runtime_id" && x[3].key == "seq_id"
    requires x[4].key == "tracer_time" && x[5].key == "application" && x[6].key == "host" && x[7].key == "payload"
    requires |x| == 9 ==> x[8].key == "debug"
    ensures forall i :: 0 <= i < |x| ==> |x[i].key| < 48
  {
    assert |x[0].key| == 11 && |x[1].key| == 12 && |x[2].key| == 10 && |x[3].key| == 6;
    assert |x[4].key| == 11 && |x[5].key| == 11 && |x[6].key| == 4 && |x[7].key| == 7;
  }

  lemma RequestsRetryable(content: Dict, directive: Directive, suffix: string, later: string)
    requires DistinctKeys(content) && Requests(content, directive, suffix).Some? && Lasts(suffix, later)
    ensures forall b :: b in Requests(content, directive, suffix).value ==> Retryable(b, later)
  {
    var used := if Marked(content) then NOTHING else directive;
    var d := Pop(content, MARKER);
    var body := Prepare(d, used, suffix);
    PopAbsent(content, MARKER);
    PreparedRetryable(d, used, suffix, later);
    if used.synthetic && Synthetic(body, used).Some? { SyntheticRetryable(body, used, suffix, later); }
  }

  lemma PreparedRetryable(d: Dict, directive: Directive, suffix: string, later: string)
    requires Get(d, MARKER).None? && Metadata(Prepare(d, directive, suffix)) && Lasts(suffix, later)
    ensures Retryable(Prepare(d, directive, suffix), later)
  {
    PreparedUnmarked(d, directive, suffix);
    RewrittenTwice(AppendMessages(OverrideEnv(d, directive.env), directive), suffix, later);
  }

  /** A request kept for a retry is, in the next run, the only request, with the same JSON value: without the
      marker, without a second augmentation and without a second provider rewrite, whatever the new plan says. */
  lemma RetriedSame(content: Dict, directive: Directive, suffix: string, b: Dict, next: Directive, later: string)
    requires DistinctKeys(content) && Requests(content, directive, suffix).Some?
    requires b in Requests(content, directive, suffix).value && Lasts(suffix, later)
    ensures Requests(Put(b, MARKER, Bool(true)), next, later) == Some([b])
  {
    RequestsRetryable(content, directive, suffix, later);
    RetryableSame(b, next, later);
  }

  lemma RetryableSame(b: Dict, later: Directive, suffix: string)
    requires Retryable(b, suffix)
    ensures Requests(Put(b, MARKER, Bool(true)), later, suffix) == Some([b])
  {
    PopPut(b, MARKER, Bool(true));
    var e := Put(b, MARKER, Bool(true));
    assert Marked(e) && Pop(e, MARKER) == b;
    assert Prepare(b, NOTHING, suffix) == Rewritten(b, suffix);
    assert Requests(e, later, suffix) == Some([b] + []);
    assert [b] + [] == [b];
  }

  // ---------------------------------------------------------------- one run

  /** What one run meets; `prepared(k)` is false where preparing request k fails locally. */
  datatype Run = Run(
    directive: Directive,
    suffix: string,
    maxAttempts: nat,
    retryDelay: real,
    prepared: nat -> bool,
    attempt: nat -> nat -> Attempt,
    dryRun: bool,
    keepPayloads: bool,
    persistWorks: bool,
    deleteWorks: bool)
  {
    predicate Valid() { maxAttempts > 0 && retryDelay >= 0.0 }
  }

  datatype Status = InvalidMetadata | DryRun | RequestPreparationFailed | UploadFailed | Succeeded

  class TelemetrySource {
    var content: Option<Dict>

    constructor (content: Dict)
      ensures this.content == Some(content)
    {
      this.content := Some(content);
    }

    /** `_process_telemetry`: the source is deleted when everything succeeded; when exactly one of several
        requests failed, that request replaces it; otherwise it stays. */
    method Process(run: Run) returns (status: Status, results: seq<HttpResult>)
      requires content.Some? && DistinctKeys(content.value) && run.Valid()
      modifies this
      ensures status.InvalidMetadata? <==> Requests(old(content.value), run.directive, run.suffix).None?
      ensures status.InvalidMetadata? ==> results == [] && content == old(content)
      ensures !status.InvalidMetadata? ==> AfterRun(old(content.value), run, status, results, content)
    {
      results := [];
      var requests := Requests(content.value, run.directive, run.suffix);
      if requests.None? { return InvalidMetadata, []; }
      if run.dryRun {
        status := PrepareAll(run, |requests.value|);
        return;
      }
      var failed, prepared;
      results, failed, prepared := SendAll(run, requests.value);
      if !prepared { return RequestPreparationFailed, results; }
      if failed == [] {
        if !run.keepPayloads && run.deleteWorks { content := None; }
        return Succeeded, results;
      }
      if |failed| < |results| && !run.keepPayloads {
        if |failed| == 1 && run.persistWorks { content := Some(Put(failed[0], MARKER, Bool(true))); }
      }
      status := UploadFailed;
    }
  }

  /** The loop of a dry run. */
  method PrepareAll(run: Run, n: nat) returns (status: Status)
    ensures status == if AllPrepared(run, n) then DryRun else RequestPreparationFailed
  {
    for k := 0 to n
      invariant AllPrepared(run, k)
    {
      if !run.prepared(k) { return RequestPreparationFailed; }
    }
    status := DryRun;
  }

  /** The send loop: a failing request does not stop it, a local preparation error does. */
  method SendAll(run: Run, requests: seq<Dict>) returns (results: seq<HttpResult>, failed: seq<Dict>, prepared: bool)
    requires run.Valid()
    ensures |results| <= |requests| && failed == Failed(requests, results) && SentSoFar(run, results)
    ensures AllPrepared(run, |results|)
    ensures if prepared then |results| == |requests| else |results| < |requests| && !run.prepared(|results|)
  {
    results, failed, prepared := [], [], true;
    for k := 0 to |requests|
      invariant |results| == k && failed == Failed(requests, results)
      invariant SentSoFar(run, results) && AllPrepared(run, k)
    {
      if !run.prepared(k) { return results, failed, false; }
      var r := Post(run.maxAttempts, run.retryDelay, run.attempt(k));
      FailedStep(requests, results, r);
      results := results + [r];
      if !r.Succeeded() { failed := failed + [requests[k]]; }
    }
  }

  /** The requests made so far ended as their attempts dictate. */
  ghost predicate SentSoFar(run: Run, results: seq<HttpResult>)
    requires run.Valid()
  {
    forall k: nat :: k < |results| ==> RetryOutcome(run.maxAttempts, run.retryDelay, run.attempt(k), results[k])
  }

  predicate AllPrepared(run: Run, n: nat) { forall k: nat :: k < n ==> run.prepared(k) }

  /** The requests, among those made, that failed. */
  function Failed(requests: seq<Dict>, results: seq<HttpResult>): seq<Dict>
    requires |results| <= |requests|
  {
    if results == [] then []
    else
      var k := |results| - 1;
      Failed(requests, results[..k]) + if results[k].Succeeded() then [] else [requests[k]]
  }

  lemma FailedStep(requests: seq<Dict>, results: seq<HttpResult>, r: HttpResult)
    requires |results| < |requests|
    ensures Failed(requests, results + [r]) == Failed(requests, results) +
            if r.Succeeded() then [] else [requests[|results|]]
  {
    assert (results + [r])[..|results|] == results;
  }

  ghost predicate AfterRun(before: Dict, run: Run, status: Status, results: seq<HttpResult>, after: Option<Dict>)
    requires run.Valid() && Requests(before, run.directive, run.suffix).Some?
  {
    var requests := Requests(before, run.directive, run.suffix).value;
    && |results| <= |requests| && SentSoFar(run, results)
    && var failed := Failed(requests, results);
       match status
       case InvalidMetadata => false
       case DryRun => run.dryRun && AllPrepared(run, |requests|) && results == [] && after == Some(before)
       case RequestPreparationFailed =>
         && after == Some(before)
         && if run.dryRun then results == [] && !AllPrepared(run, |requests|)
            else |results| < |requests| && AllPrepared(run, |results|) && !run.prepared(|results|)
       case Succeeded =>
         !run.dryRun && AllPrepared(run, |requests|) && |results| == |requests| && failed == [] &&
           after == (if !run.keepPayloads && run.deleteWorks then None else Some(before))
       case UploadFailed =>
         && !run.dryRun && AllPrepared(run, |requests|) && |results| == |requests| && failed != []
         && after == if |failed| == 1 && |requests| > 1 && !run.keepPayloads && run.persistWorks
              then Some(Put(failed[0], MARKER, Bool(true))) else Some(before)
  }

  /** Where a run rewrites the source, the next run sends exactly the requests that failed, with any plan and any
      provider suffix, unless it is the first to have one. */
  lemma OnlyFailedAgain(
    before: Dict, run: Run, status: Status, results: seq<HttpResult>, after: Option<Dict>, next: Directive,
      later: string)
    requires run.Valid() && DistinctKeys(before) && Lasts(run.suffix, later)
    requires Requests(before, run.directive, run.suffix).Some?
    requires AfterRun(before, run, status, results, after) && after.Some? && after.value != before
    ensures Requests(after.value, next, later) ==
            Some(Failed(Requests(before, run.directive, run.suffix).value, results))
  {
    var requests := Requests(before, run.directive, run.suffix).value;
    var failed := Failed(requests, results);
    FailedAmong(requests, results);
    assert failed == [failed[0]];
    RetriedSame(before, run.directive, run.suffix, failed[0], next, later);
  }

  lemma {:induction false} FailedAmong(requests: seq<Dict>, results: seq<HttpResult>)
    requires |results| <= |requests|
    ensures forall b :: b in Failed(requests, results) ==> b in requests
  {
    if results != [] { FailedAmong(requests, results[..|results| - 1]); }
  }
}
