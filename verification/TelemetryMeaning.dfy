/** What the requests of a telemetry file hold: the source's own entries, the overridden environment, the planned
    messages, and provider tags that name the provider's repository. */
module TelemetryMeaning {
  import opened Json
  import opened Wrappers
  import opened TelemetryFile

  function FieldsAt(d: Dict, k: string): Dict {
    if Get(d, k).Some? && Get(d, k).value.Obj? then Get(d, k).value.fields else []
  }

  predicate HasObjectAt(d: Dict, k: string) { Get(d, k).Some? && Get(d, k).value.Obj? }

  predicate HasArrayAt(d: Dict, k: string) { Get(d, k).Some? && Get(d, k).value.Arr? }

  // ---------------------------------------------------------------- without provider tags to rewrite

  lemma PopGet(d: Dict, k: string, q: string)
    requires DistinctKeys(d)
    ensures Get(Pop(d, k), q) == if q == k then None else Get(d, q)
  {
    var e, i := Pop(d, k), Find(d, k);
    if q == k {
      PopAbsent(d, k);
    } else if i < |d| {
      forall j | 0 <= j < |e| ensures e[j] == d[if j < i then j else j + 1] {}
      var l := Find(d, q);
      if l < |d| {
        FindIs(e, q, if l < i then l else l - 1);
      }
    }
  }

  /** The directive that counts: none for a request that is being retried. */
  predicate Retried(content: Dict) {
    Get(content, "_dd_test_optimization_retry_without_augmentation") == Some(Bool(true))
  }

  predicate Overrides(content: Dict, directive: Directive) {
    !Retried(content) && directive.env != "" && HasObjectAt(content, "application")
  }

  predicate Appends(content: Dict, directive: Directive) {
    !Retried(content) && directive.append && directive.messages.Some? && HasArrayAt(content, "payload")
  }

  predicate Synthesizes(content: Dict, directive: Directive) {
    !Retried(content) && directive.synthetic && directive.messages.Some? && HasObjectAt(content, "application")
  }

  /** The source's own request before provider tags are rewritten. */
  function Body(content: Dict, directive: Directive): Dict {
    var used := if Marked(content) then NOTHING else directive;
    AppendMessages(OverrideEnv(Pop(content, MARKER), used.env), used)
  }

  /** It keeps every entry of the source except the retry marker; its application gets the directive's environment;
      its payload gets the planned messages behind its own. A retried request gets neither. */
  lemma BodyMeans(content: Dict, directive: Directive, k: string)
    requires DistinctKeys(content)
    ensures var body := Body(content, directive);
            && Get(body, MARKER) == None
            && (k != MARKER && k != "application" && k != "payload" ==> Get(body, k) == Get(content, k))
            && Get(body, "payload") ==
               (if Appends(content, directive)
                 then Some(Arr(Get(content, "payload").value.items + directive.messages.value))
                else Get(content, "payload"))
            && (!Overrides(content, directive) ==> Get(body, "application") == Get(content, "application"))
            && (Overrides(content, directive) ==>
                  HasObjectAt(body, "application") &&
                  Get(FieldsAt(body, "application"), k) ==
                  if k == "env" then Some(Str(directive.env)) else Get(FieldsAt(content, "application"), k))
  {
    var used := if Marked(content) then NOTHING else directive;
    var popped := Pop(content, MARKER);
    Popped(content);
    PopGet(content, MARKER, k);
    BodyKeeps(popped, used, k);
    BodyKeeps(popped, used, MARKER);
    BodyNames(popped, used, k);
  }

  lemma Popped(content: Dict)
    requires DistinctKeys(content)
    ensures Marked(content) <==> Retried(content)
    ensures var popped := Pop(content, MARKER);
            && Get(popped, MARKER) == None && Get(popped, "payload") == Get(content, "payload")
            && Get(popped, "application") == Get(content, "application")
  {
    assert |MARKER| == 48 && |"application"| == 11 && |"payload"| == 7;
    PopGet(content, MARKER, MARKER);
    PopGet(content, MARKER, "payload");
    PopGet(content, MARKER, "application");
  }

  lemma BodyKeeps(d: Dict, used: Directive, k: string)
    ensures var body := AppendMessages(OverrideEnv(d, used.env), used);
            && (k != "application" && k != "payload" ==> Get(body, k) == Get(d, k))
            && Get(body, "payload") ==
               if used.append && used.messages.Some? && HasArrayAt(d, "payload")
               then Some(Arr(Get(d, "payload").value.items + used.messages.value)) else Get(d, "payload")
  {
    assert |"application"| == 11 && |"payload"| == 7;
    OverrideMeans(d, used.env, k);
    OverrideMeans(d, used.env, "payload");
    AppendMeans(OverrideEnv(d, used.env), used, k);
  }

  lemma BodyNames(d: Dict, used: Directive, k: string)
    ensures var body := AppendMessages(OverrideEnv(d, used.env), used);
            && (used.env == "" || !HasObjectAt(d, "application") ==> Get(body, "application") == Get(d, "application"))
            && (used.env != "" && HasObjectAt(d, "application") ==>
                  HasObjectAt(body, "application") &&
                  Get(FieldsAt(body, "application"), k) ==
                  if k == "env" then Some(Str(used.env)) else Get(FieldsAt(d, "application"), k))
  {
    assert |"application"| == 11 && |"payload"| == 7;
    OverrideMeans(d, used.env, k);
    AppendMeans(OverrideEnv(d, used.env), used, "application");
  }

  lemma OverrideMeans(d: Dict, env: string, k: string)
    ensures var e := OverrideEnv(d, env);
            && (k != "application" ==> Get(e, k) == Get(d, k))
            && (env == "" || !HasObjectAt(d, "application") ==> e == d)
            && (env != "" && HasObjectAt(d, "application") ==>
                  HasObjectAt(e, "application") &&
                  Get(FieldsAt(e, "application"), k) ==
                  if k == "env" then Some(Str(env)) else Get(FieldsAt(d, "application"), k))
  {
    if env != "" && HasObjectAt(d, "application") {
      var application := FieldsAt(d, "application");
      PutRead(d, "application", Obj(Put(application, "env", Str(env))));
      PutRead(application, "env", Str(env));
      if k != "application" { PutOther(d, "application", Obj(Put(application, "env", Str(env))), k); }
      if k != "env" { PutOther(application, "env", Str(env), k); }
    }
  }

  lemma AppendMeans(d: Dict, directive: Directive, k: string)
    ensures var e := AppendMessages(d, directive);
            && (k != "payload" ==> Get(e, k) == Get(d, k))
            && Get(e, "payload") ==
               if directive.append && directive.messages.Some? && HasArrayAt(d, "payload")
               then Some(Arr(Get(d, "payload").value.items + directive.messages.value)) else Get(d, "payload")
  {
    if directive.append && directive.messages.Some? && HasArrayAt(d, "payload") {
      var all := Arr(Get(d, "payload").value.items + directive.messages.value);
      PutRead(d, "payload", all);
      if k != "payload" { PutOther(d, "payload", all, k); }
    }
  }

  // ---------------------------------------------------------------- the requests

  /** The bodies sent are the source's own request and, where the plan asks for one, the synthesized request beside
      it, with their provider tags rewritten; nothing is sent when the source's metadata is invalid. */
  lemma RequestsMean(content: Dict, directive: Directive, suffix: string)
    requires DistinctKeys(content)
    ensures var body, requests := Body(content, directive), Requests(content, directive, suffix);
            && (requests.Some? <==> Metadata(content))
            && (requests.Some? ==>
                  if Synthesizes(content, directive) then
                    Synthetic(body, directive).Some? &&
                    requests.value == [Rewritten(body, suffix), Rewritten(Synthetic(body, directive).value, suffix)]
                  else requests.value == [Rewritten(body, suffix)])
  {
    Popped(content);
    var used := if Marked(content) then NOTHING else directive;
    var body := Body(content, directive);
    assert Prepare(Pop(content, MARKER), used, suffix) == Rewritten(body, suffix);
    MetadataSame(content, directive, suffix);
    SyntheticAlike(body, suffix, used);
    SyntheticWhen(content, directive);
  }

  lemma MetadataSame(content: Dict, directive: Directive, suffix: string)
    requires DistinctKeys(content)
    ensures Metadata(Rewritten(Body(content, directive), suffix)) <==> Metadata(content)
  {
    assert |MARKER| == 48 && |"payload"| == 7 && |"request_type"| == 12 && |"api_version"| == 11;
    assert "api_version"[2] != "application"[2];
    BodyMeans(content, directive, "api_version");
    BodyMeans(content, directive, "request_type");
    RewrittenGet(Body(content, directive), suffix, "api_version");
    RewrittenGet(Body(content, directive), suffix, "request_type");
  }

  lemma SyntheticWhen(content: Dict, directive: Directive)
    requires DistinctKeys(content)
    ensures var used := if Marked(content) then NOTHING else directive;
            used.synthetic && Synthetic(Body(content, directive), used).Some? <==> Synthesizes(content, directive)
  {
    Popped(content);
    BodyMeans(content, directive, "env");
  }

  /** The synthesized request does not depend on the payload that is rewritten. */
  lemma SyntheticAlike(body: Dict, suffix: string, directive: Directive)
    ensures Synthetic(Rewritten(body, suffix), directive) == Synthetic(body, directive)
  {
    assert |"payload"| == 7 && |"api_version"| == 11 && |"application"| == 11 && |"runtime_id"| == 10;
    assert |"host"| == 4 && |"debug"| == 5;
    RewrittenGet(body, suffix, "api_version");
    RewrittenGet(body, suffix, "application");
    RewrittenGet(body, suffix, "runtime_id");
    RewrittenGet(body, suffix, "host");
    RewrittenGet(body, suffix, "debug");
    SyntheticReads(Rewritten(body, suffix), body, directive);
  }

  lemma SyntheticReads(a: Dict, b: Dict, directive: Directive)
    requires Get(a, "api_version") == Get(b, "api_version") && Get(a, "application") == Get(b, "application")
    requires Get(a, "runtime_id") == Get(b, "runtime_id") && Get(a, "host") == Get(b, "host")
    requires Get(a, "debug") == Get(b, "debug")
    ensures Synthetic(a, directive) == Synthetic(b, directive)
  {
  }

  /** It is a message batch of exactly the planned messages, with the planned sequence id and time, in the name of
      the source's application, runtime and host. */
  lemma SyntheticMeans(body: Dict, directive: Directive)
    requires Synthetic(body, directive).Some?
    ensures var x := Synthetic(body, directive).value;
            && Get(x, "request_type") == Some(Str("message-batch")) &&
                 Get(x, "payload") == Some(Arr(directive.messages.value))
            && Get(x, "seq_id") == Some(directive.seqId) && Get(x, "tracer_time") == Some(directive.timestamp)
            && Get(x, "application") == Get(body, "application") &&
                 Get(x, "api_version") == Some(OrNull(Get(body, "api_version")))
            && Get(x, "runtime_id") == Some(OrNull(Get(body, "runtime_id"))) &&
                 Get(x, "host") == Some(OrNull(Get(body, "host")))
            && Get(x, "debug") == Get(body, "debug")
  {
    var x := Synthetic(body, directive).value;
    NineKeys(x);
    forall i | 0 <= i < |x| ensures Get(x, x[i].key) == Some(x[i].value) { FindAt(x, i); }
    if |x| == 8 { NoKey(x, "debug"); }
  }

  lemma NoKey(x: Dict, k: string)
    requires forall i :: 0 <= i < |x| ==> x[i].key != k
    ensures Get(x, k) == None
  {
  }

  lemma NineKeys(x: Dict)
    requires 8 <= |x| <= 9
    requires x[0].key == "api_version" && x[1].key == "request_type" && x[2].key == "runtime_id" && x[3].key == "seq_id"
    requires x[4].key == "tracer_time" && x[5].key == "application" && x[6].key == "host" && x[7].key == "payload"
    requires |x| == 9 ==> x[8].key == "debug"
    ensures DistinctKeys(x) && (|x| == 8 ==> forall i :: 0 <= i < |x| ==> x[i].key != "debug")
  {
    assert x[0].key[0] == 'a' && x[1].key[0] == 'r' && x[2].key[0] == 'r' && x[3].key[0] == 's' && x[4].key[0] == 't';
    assert x[5].key[0] == 'a' && x[6].key[0] == 'h' && x[7].key[0] == 'p';
    assert x[0].key[2] == 'i' && x[5].key[2] == 'p' && x[1].key[1] == 'e' && x[2].key[1] == 'u';
    if |x| == 9 { assert x[8].key[0] == 'd'; }
    assert "debug"[0] == 'd';
  }

  // ---------------------------------------------------------------- provider tags

  const BARE: Json := Str("provider:bazel")

  /** Exactly the bare provider tags change, each to the tag with the suffix. */
  lemma TagsMean(tags: seq<Json>, suffix: string)
    ensures var r := RewriteTags(tags, suffix);
            |r| == |tags| &&
            forall i :: 0 <= i < |tags| ==> r[i] == if tags[i] == BARE then Str("provider:bazel/" + suffix) else tags[i]
  {
  }

  ghost predicate SeriesFree(series: Json) {
    series.Obj? && HasArrayAt(series.fields, "tags") ==> BARE !in Get(series.fields, "tags").value.items
  }

  ghost predicate BodyFree(body: Json) {
    body.Obj? && HasArrayAt(body.fields, "series") ==>
      forall x :: x in Get(body.fields, "series").value.items ==> SeriesFree(x)
  }

  predicate OfType(m: Json, name: string) { m.Obj? && Get(m.fields, "request_type") == Some(Str(name)) }

  predicate HoldsMetrics(m: Json) { OfType(m, "generate-metrics") || OfType(m, "distributions") }

  /** No metric series of the message, or of a message nested in its batches, has a bare provider tag. */
  ghost predicate Free(m: Json) {
    m.Obj? && Find(m.fields, "payload") < |m.fields| ==>
      var body := m.fields[Find(m.fields, "payload")].value;
      && (HoldsMetrics(m) ==> BodyFree(body))
      && (OfType(m, "message-batch") && body.Arr? ==> forall i :: 0 <= i < |body.items| ==> Free(body.items[i]))
  }

  lemma TagsFreed(tags: seq<Json>, suffix: string)
    requires suffix != ""
    ensures BARE !in RewriteTags(tags, suffix)
    ensures BARE !in tags ==> RewriteTags(tags, suffix) == tags
  {
    assert |"provider:bazel/" + suffix| > |"provider:bazel"|;
  }

  lemma SeriesFreed(series: Json, suffix: string)
    requires suffix != ""
    ensures SeriesFree(RewriteSeries(series, suffix))
    ensures SeriesFree(series) ==> RewriteSeries(series, suffix) == series
  {
    if series.Obj? && HasArrayAt(series.fields, "tags") {
      var tags := Get(series.fields, "tags").value.items;
      TagsFreed(tags, suffix);
      PutRead(series.fields, "tags", Arr(RewriteTags(tags, suffix)));
    }
  }

  lemma BodyFreed(body: Json, suffix: string)
    requires suffix != ""
    ensures BodyFree(RewriteBody(body, suffix))
    ensures BodyFree(body) ==> RewriteBody(body, suffix) == body
  {
    if body.Obj? && HasArrayAt(body.fields, "series") {
      var items := Get(body.fields, "series").value.items;
      var all := RewriteAllSeries(items, suffix);
      forall i | 0 <= i < |items|
        ensures SeriesFree(all[i]) && (SeriesFree(items[i]) ==> all[i] == items[i])
      {
        SeriesFreed(items[i], suffix);
      }
      PutRead(body.fields, "series", Arr(all));
      if BodyFree(body) { assert all == items; }
    }
  }

  lemma {:induction false} RewriteAllAt(items: seq<Json>, suffix: string, i: nat)
    requires i < |items|
    ensures RewriteAll(items, suffix)[i] == Rewrite(items[i], suffix)
  {
    if i > 0 { RewriteAllAt(items[1..], suffix, i - 1); }
  }

  lemma PutSame(d: Dict, k: string)
    requires Find(d, k) < |d|
    ensures Put(d, k, d[Find(d, k)].value) == d
  {
  }

  lemma TypesApart(m: Json)
    requires m.Obj?
    ensures Metrics(m.fields) <==> HoldsMetrics(m)
    ensures Batch(m.fields) <==> OfType(m, "message-batch")
    ensures HoldsMetrics(m) ==> !OfType(m, "message-batch")
  {
    assert |"generate-metrics"| == 16 && |"message-batch"| == 13 && |"distributions"| == 13;
    assert "message-batch"[0] != "distributions"[0];
  }

  lemma MetricsFreed(m: Json, body: Json, suffix: string)
    requires suffix != "" && m.Obj? && Find(m.fields, "payload") < |m.fields| && Metrics(m.fields)
    requires body == m.fields[Find(m.fields, "payload")].value
    ensures Free(Rewrite(m, suffix))
    ensures Free(m) ==> Rewrite(m, suffix) == m
  {
    PayloadOnly(m.fields, RewriteBody(body, suffix));
    BodyFreed(body, suffix);
    TypesApart(m);
    TypesApart(Rewrite(m, suffix));
    PutSame(m.fields, "payload");
  }

  lemma BatchFreed(m: Json, items: seq<Json>, suffix: string)
    requires m.Obj? && Find(m.fields, "payload") < |m.fields| && !Metrics(m.fields) && Batch(m.fields)
    requires m.fields[Find(m.fields, "payload")].value == Arr(items)
    requires forall i :: 0 <= i < |items| ==> Free(RewriteAll(items, suffix)[i])
    requires forall i :: 0 <= i < |items| && Free(items[i]) ==> RewriteAll(items, suffix)[i] == items[i]
    ensures Free(Rewrite(m, suffix))
    ensures Free(m) ==> Rewrite(m, suffix) == m
  {
    PayloadOnly(m.fields, Arr(RewriteAll(items, suffix)));
    TypesApart(m);
    TypesApart(Rewrite(m, suffix));
    PutSame(m.fields, "payload");
    if Free(m) { assert RewriteAll(items, suffix) == items; }
  }

  /** Rewriting leaves no bare provider tag, however deep the batches, and a message without one is not touched. */
  lemma {:induction false} RewriteFrees(m: Json, suffix: string)
    requires suffix != ""
    ensures Free(Rewrite(m, suffix))
    ensures Free(m) ==> Rewrite(m, suffix) == m
    decreases m
  {
    if m.Obj? && Find(m.fields, "payload") < |m.fields| {
      var body := m.fields[Find(m.fields, "payload")].value;
      TypesApart(m);
      if Metrics(m.fields) {
        MetricsFreed(m, body, suffix);
      } else if Batch(m.fields) && body.Arr? {
        forall i | 0 <= i < |body.items|
          ensures Free(RewriteAll(body.items, suffix)[i])
          ensures Free(body.items[i]) ==> RewriteAll(body.items, suffix)[i] == body.items[i]
        {
          RewriteAllAt(body.items, suffix, i);
          RewriteFrees(body.items[i], suffix);
        }
        BatchFreed(m, body.items, suffix);
      }
    }
  }
}
