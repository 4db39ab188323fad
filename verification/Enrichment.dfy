/** Context, Bazel metadata and CODEOWNERS applied to one test payload, and why a retry
    of an enriched payload enriches to the same bytes. */
module Enrichment {
  import opened Json
  import opened Wrappers

  /** `lookup` gives the JSON text of a source file's owners, or None when it has none. */
  datatype Matcher = Matcher(enabled: bool, lookup: string -> Option<string>)

  datatype Inputs = Inputs(
    context: Dict,
    bazel: Option<Dict>,
    runtimeId: string,
    rulesVersion: string,
    matcher: Matcher,
    dump: Json -> string)

  // ---------------------------------------------------------------- repeated dictionary writes

  function PutAll(d: Dict, ws: Dict): Dict {
    if ws == [] then d else Put(PutAll(d, ws[..|ws| - 1]), ws[|ws| - 1].key, ws[|ws| - 1].value)
  }

  /** The value last written to k. */
  function Last(ws: Dict, k: string): Option<Json> {
    if ws == [] then None
    else if ws[|ws| - 1].key == k then Some(ws[|ws| - 1].value)
    else Last(ws[..|ws| - 1], k)
  }

  lemma {:induction false} PutAllGet(d: Dict, ws: Dict, k: string)
    requires DistinctKeys(d)
    ensures DistinctKeys(PutAll(d, ws))
    ensures Get(PutAll(d, ws), k) == if Last(ws, k).Some? then Last(ws, k) else Get(d, k)
  {
    if ws != [] {
      var before := ws[..|ws| - 1];
      PutAllGet(d, before, k);
      PutDistinct(PutAll(d, before), ws[|ws| - 1].key, ws[|ws| - 1].value);
      PutGet(PutAll(d, before), ws[|ws| - 1].key, ws[|ws| - 1].value, k);
    }
  }

  /** d already holds the final value of every key that ws writes. */
  ghost predicate Settled(d: Dict, ws: Dict) {
    forall k :: Last(ws, k).Some? ==> Get(d, k) == Last(ws, k)
  }

  lemma PutAllSettles(d: Dict, ws: Dict)
    requires DistinctKeys(d)
    ensures DistinctKeys(PutAll(d, ws)) && Settled(PutAll(d, ws), ws)
  {
    forall k | Last(ws, k).Some? ensures Get(PutAll(d, ws), k) == Last(ws, k) {
      PutAllGet(d, ws, k);
    }
    PutAllGet(d, ws, "");
  }

  lemma {:induction false} PutAllKeys(d: Dict, ws: Dict)
    requires DistinctKeys(d) && forall i :: 0 <= i < |ws| ==> Has(d, ws[i].key)
    ensures Keys(PutAll(d, ws)) == Keys(d)
  {
    if ws != [] {
      var before := ws[..|ws| - 1];
      assert forall i :: 0 <= i < |before| ==> before[i] == ws[i];
      PutAllKeys(d, before);
      var k := ws[|ws| - 1].key;
      PutAllGet(d, before, k);
      var e := PutAll(d, before);
      var i := Find(d, k);
      assert Keys(e)[i] == Keys(d)[i] == k;
      assert Has(e, k);
      assert Keys(Put(e, k, ws[|ws| - 1].value)) == Keys(e);
    }
  }

  lemma {:induction false} LastIs(ws: Dict, i: nat)
    requires i < |ws|
    ensures Last(ws, ws[i].key).Some?
  {
    if i < |ws| - 1 {
      assert ws[..|ws| - 1][i] == ws[i];
      LastIs(ws[..|ws| - 1], i);
    }
  }

  /** Writing again what is already settled changes nothing, not even the key order. */
  lemma PutAllSettled(d: Dict, ws: Dict)
    requires DistinctKeys(d) && Settled(d, ws)
    ensures PutAll(d, ws) == d
  {
    forall i | 0 <= i < |ws| ensures Has(d, ws[i].key) {
      LastIs(ws, i);
    }
    PutAllKeys(d, ws);
    forall k ensures Get(PutAll(d, ws), k) == Get(d, k) {
      PutAllGet(d, ws, k);
    }
    PutAllGet(d, ws, "");
    SameDict(PutAll(d, ws), d);
  }

  lemma PutSame(d: Dict, k: string, v: Json)
    requires Get(d, k) == Some(v)
    ensures Put(d, k, v) == d
  {
  }

  // ---------------------------------------------------------------- flat metadata

  function MetaWrite(f: Field, dump: Json -> string): Dict {
    match f.value
    case Bool(b) => [Field(f.key, Str(if b then "true" else "false"))]
    case Number(_) => []
    case Str(_) => [f]
    case _ => [Field(f.key, Str(dump(f.value)))]
  }

  function MetricWrite(f: Field): Dict {
    if f.value.Number? then [f] else []
  }

  function MetaWrites(values: Dict, dump: Json -> string): Dict {
    if values == [] then [] else MetaWrites(values[..|values| - 1], dump) + MetaWrite(values[|values| - 1], dump)
  }

  function MetricWrites(values: Dict): Dict {
    if values == [] then [] else MetricWrites(values[..|values| - 1]) + MetricWrite(values[|values| - 1])
  }

  lemma {:induction false} PutAllAppend(d: Dict, a: Dict, b: Dict)
    ensures PutAll(d, a + b) == PutAll(PutAll(d, a), b)
  {
    if b == [] {
      assert a + b == a;
    } else {
      assert (a + b)[..|a + b| - 1] == a + b[..|b| - 1];
      PutAllAppend(d, a, b[..|b| - 1]);
    }
  }

  /** `_merge_flat_metadata`: booleans become text, numbers go to metrics, the rest is text. */
  method MergeFlatMetadata(meta: Dict, metrics: Dict, values: Dict, dump: Json -> string)
      returns (meta': Dict, metrics': Dict)
    ensures meta' == PutAll(meta, MetaWrites(values, dump))
    ensures metrics' == PutAll(metrics, MetricWrites(values))
  {
    meta', metrics' := meta, metrics;
    for i := 0 to |values|
      invariant meta' == PutAll(meta, MetaWrites(values[..i], dump))
      invariant metrics' == PutAll(metrics, MetricWrites(values[..i]))
    {
      var f := values[i];
      MergeStep(meta, metrics, values, i, dump);
      match f.value {
        case Bool(b) => meta' := Put(meta', f.key, Str(if b then "true" else "false"));
        case Number(_) => metrics' := Put(metrics', f.key, f.value);
        case Str(_) => meta' := Put(meta', f.key, f.value);
        case _ => meta' := Put(meta', f.key, Str(dump(f.value)));
      }
    }
    assert values[..|values|] == values;
  }

  lemma MergeStep(meta: Dict, metrics: Dict, values: Dict, i: nat, dump: Json -> string)
    requires i < |values|
    ensures PutAll(meta, MetaWrites(values[..i + 1], dump))
         == var f, d := values[i], PutAll(meta, MetaWrites(values[..i], dump));
            match f.value
            case Bool(b) => Put(d, f.key, Str(if b then "true" else "false"))
            case Number(_) => d
            case Str(_) => Put(d, f.key, f.value)
            case _ => Put(d, f.key, Str(dump(f.value)))
    ensures PutAll(metrics, MetricWrites(values[..i + 1]))
         == var f, d := values[i], PutAll(metrics, MetricWrites(values[..i]));
            if f.value.Number? then Put(d, f.key, f.value) else d
  {
    var f := values[i];
    assert values[..i + 1][..i] == values[..i];
    PutAllAppend(meta, MetaWrites(values[..i], dump), MetaWrite(f, dump));
    PutAllAppend(metrics, MetricWrites(values[..i]), MetricWrite(f));
    OneWrite(PutAll(meta, MetaWrites(values[..i], dump)), MetaWrite(f, dump));
    OneWrite(PutAll(metrics, MetricWrites(values[..i])), MetricWrite(f));
  }

  lemma OneWrite(d: Dict, ws: Dict)
    requires |ws| <= 1
    ensures PutAll(d, ws) == if ws == [] then d else Put(d, ws[0].key, ws[0].value)
  {
  }

  // ---------------------------------------------------------------- one event

  const CONTENT: string := "content"
  const META: string := "meta"
  const METRICS: string := "metrics"
  const CODEOWNERS: string := "test.codeowners"

  /** `x if isinstance(x, dict) else {}`. */
  function ObjectOr(v: Option<Json>): Dict {
    if v.Some? && v.value.Obj? then v.value.fields else []
  }

  function EventWrites(inputs: Inputs): Dict {
    MetaWrites(EventContext(inputs.context), inputs.dump) +
    (if inputs.bazel.Some? then MetaWrites(inputs.bazel.value, inputs.dump) else [])
  }

  function EventMetricWrites(inputs: Inputs): Dict {
    MetricWrites(EventContext(inputs.context)) + (if inputs.bazel.Some? then MetricWrites(inputs.bazel.value) else [])
  }

  /** The context without the keys that must not reach events. */
  function EventContext(context: Dict): Dict {
    if context == [] then []
    else
      (if context[0].key == "topt.api_key_fingerprint" then [] else [context[0]]) + EventContext(context[1..])
  }

  function MergeEvent(event: Json, inputs: Inputs): Json {
    if !event.Obj? then event
    else
      var content := ObjectOr(Get(event.fields, CONTENT));
      var meta := PutAll(ObjectOr(Get(content, META)), EventWrites(inputs));
      var metrics := PutAll(ObjectOr(Get(content, METRICS)), EventMetricWrites(inputs));
      Obj(Put(event.fields, CONTENT, Obj(Put(Put(content, META, Obj(meta)), METRICS, Obj(metrics)))))
  }

  function FirstText(vs: seq<Option<Json>>): string {
    if vs == [] then ""
    else if vs[0].Some? && vs[0].value.Str? && vs[0].value.text != "" then vs[0].value.text
    else FirstText(vs[1..])
  }

  /** `_event_source_path`: "" when there is none. */
  function SourcePath(event: Dict): string {
    var content := ObjectOr(Get(event, CONTENT));
    var meta := ObjectOr(Get(content, META));
    var source := ObjectOr(Get(content, "source"));
    FirstText([Get(meta, "test.source.file"), Get(meta, "test.source.path"), Get(meta, "source.file"),
      Get(meta, "source.path"), Get(source, "file"), Get(source, "path")])
  }

  predicate HasObject(d: Dict, k: string) { Get(d, k).Some? && Get(d, k).value.Obj? }

  datatype OwnerCase = NotScanned | Existing | MissingSource | Unmatched | Malformed | Owned(owners: string)

  /** What CODEOWNERS enrichment decides for one event. */
  function OwnerCaseOf(event: Json, lookup: string -> Option<string>): OwnerCase {
    if !event.Obj? || Get(event.fields, "type") == Some(Str("span")) then NotScanned
    else
      var content := ObjectOr(Get(event.fields, CONTENT));
      if Has(ObjectOr(Get(content, META)), CODEOWNERS) then Existing
      else if SourcePath(event.fields) == "" then MissingSource
      else
        var found := lookup(SourcePath(event.fields));
        if found.None? then Unmatched
        else if !HasObject(event.fields, CONTENT) then Malformed
        else Owned(found.value)
  }

  function OwnEvent(event: Json, lookup: string -> Option<string>): Json {
    var c := OwnerCaseOf(event, lookup);
    if !c.Owned? then event
    else
      var content := ObjectOr(Get(event.fields, CONTENT));
      var meta := Put(ObjectOr(Get(content, META)), CODEOWNERS, Str(c.owners));
      Obj(Put(event.fields, CONTENT, Obj(Put(content, META, Obj(meta)))))
  }

  function EnrichEvent(event: Json, inputs: Inputs): Json {
    var merged := MergeEvent(event, inputs);
    if inputs.matcher.enabled then OwnEvent(merged, inputs.matcher.lookup) else merged
  }

  // ---------------------------------------------------------------- CODEOWNERS pass with its cache

  datatype Stats = Stats(scanned: nat, enriched: nat, existing: nat, missingSource: nat, unmatched: nat, errors: nat)

  function Tally(s: Stats, c: OwnerCase): Stats {
    match c
    case NotScanned => s
    case Existing => s.(scanned := s.scanned + 1, existing := s.existing + 1)
    case MissingSource => s.(scanned := s.scanned + 1, missingSource := s.missingSource + 1)
    case Unmatched => s.(scanned := s.scanned + 1, unmatched := s.unmatched + 1)
    case Malformed => s.(scanned := s.scanned + 1, errors := s.errors + 1)
    case Owned(_) => s.(scanned := s.scanned + 1, enriched := s.enriched + 1)
  }

  function Map(events: seq<Json>, f: Json -> Json): (r: seq<Json>)
    ensures |r| == |events|
    ensures forall i :: 0 <= i < |events| ==> r[i] == f(events[i])
  {
    seq(|events|, i requires 0 <= i < |events| => f(events[i]))
  }

  function TallyAll(events: seq<Json>, lookup: string -> Option<string>): Stats {
    if events == [] then Stats(0, 0, 0, 0, 0, 0)
    else Tally(TallyAll(events[..|events| - 1], lookup), OwnerCaseOf(events[|events| - 1], lookup))
  }

  ghost predicate Faithful(cache: map<string, Option<string>>, lookup: string -> Option<string>) {
    forall path :: path in cache ==> cache[path] == lookup(path)
  }

  /** One event of the CODEOWNERS pass: the lookup goes through the cache. */
  method OwnOne(event: Json, lookup: string -> Option<string>, cache: map<string, Option<string>>)
    returns (event': Json, c: OwnerCase, cache': map<string, Option<string>>)
    requires Faithful(cache, lookup)
    ensures c == OwnerCaseOf(event, lookup) && event' == OwnEvent(event, lookup)
    ensures Faithful(cache', lookup) && cache.Keys <= cache'.Keys
  {
    event', cache' := event, cache;
    if !event.Obj? || Get(event.fields, "type") == Some(Str("span")) { return event, NotScanned, cache; }
    var content := ObjectOr(Get(event.fields, CONTENT));
    var meta := ObjectOr(Get(content, META));
    if Has(meta, CODEOWNERS) { return event, Existing, cache; }
    var path := SourcePath(event.fields);
    if path == "" { return event, MissingSource, cache; }
    if path !in cache' {
      cache' := cache'[path := lookup(path)];
    }
    var found := cache'[path];
    if found.None? {
      c := Unmatched;
    } else if !HasObject(event.fields, CONTENT) {
      c := Malformed;
    } else {
      c := Owned(found.value);
      event' := Obj(Put(event.fields, CONTENT, Obj(Put(content, META, Obj(Put(meta, CODEOWNERS, Str(found.value)))))));
    }
  }

  /** A shared cache changes neither the events nor the counters. */
  method EnrichCodeOwners(events: seq<Json>, matcher: Matcher, cache: map<string, Option<string>>)
    returns (events': seq<Json>, stats: Stats, cache': map<string, Option<string>>)
    requires matcher.enabled && Faithful(cache, matcher.lookup)
    ensures |events'| == |events| && forall j :: 0 <= j < |events| ==> events'[j] == OwnEvent(events[j], matcher.lookup)
    ensures stats == TallyAll(events, matcher.lookup)
    ensures Faithful(cache', matcher.lookup) && cache.Keys <= cache'.Keys
  {
    events', cache', stats := [], cache, Stats(0, 0, 0, 0, 0, 0);
    for i := 0 to |events|
      invariant |events'| == i && forall j :: 0 <= j < i ==> events'[j] == OwnEvent(events[j], matcher.lookup)
      invariant stats == TallyAll(events[..i], matcher.lookup)
      invariant Faithful(cache', matcher.lookup) && cache.Keys <= cache'.Keys
    {
      assert events[..i + 1][..i] == events[..i];
      var event', c;
      event', c, cache' := OwnOne(events[i], matcher.lookup, cache');
      stats := Tally(stats, c);
      events' := events' + [event'];
    }
    assert events[..|events|] == events;
  }

  // ---------------------------------------------------------------- payload metadata

  const TOP_LEVEL: seq<string> := ["test", "test_suite_end", "test_module_end", "test_session_end"]

  const RUNTIME_ID: string := "runtime-id"
  const LANGUAGE: string := "language"
  const VERSION: string := "library_version"
  const ENV: string := "env"

  function RuntimeIds(c: Dict): seq<Option<Json>> { [Get(c, "runtime-id"), Get(c, "runtime.id"), Get(c, "runtime_id")] }

  function Languages(c: Dict): seq<Option<Json>> {
    [Get(c, "language"), Get(c, "runtime.name"), Get(c, "runtime_name"), Some(Str("bazel"))]
  }

  /** The producer's own value when it is a non-empty string, else the first usable default. */
  function Choose(own: Option<Json>, defaults: seq<Option<Json>>): string {
    FirstText([own] + defaults)
  }

  function GlobalOf(id: string, language: string, version: string, env: string): Dict {
    [Field(RUNTIME_ID, Str(id)), Field(LANGUAGE, Str(language)), Field(VERSION, Str(version))]
    + if env != "" then [Field(ENV, Str(env))] else []
  }

  function GlobalMetadata(global: Dict, inputs: Inputs): Dict {
    GlobalOf(
      Choose(Get(global, RUNTIME_ID), RuntimeIds(inputs.context) + [Some(Str(inputs.runtimeId))]),
      Choose(Get(global, LANGUAGE), Languages(inputs.context)),
      Choose(Get(global, VERSION), [Some(Str(inputs.rulesVersion))]),
      Choose(Get(global, ENV), [Get(inputs.context, ENV)]))
  }

  /** The top-level entries that survive normalization, in their fixed order. */
  function Kept(metadata: Dict, keys: seq<string>): Dict {
    if keys == [] then []
    else
      var v := Get(metadata, keys[0]);
      (if v.Some? && !v.value.Null? then [Field(keys[0], v.value)] else []) + Kept(metadata, keys[1..])
  }

  function NormalMetadata(metadata: Option<Json>, inputs: Inputs): Dict {
    var m := ObjectOr(metadata);
    [Field("*", Obj(GlobalMetadata(ObjectOr(Get(m, "*")), inputs)))] + Kept(m, TOP_LEVEL)
  }

  /** The whole enrichment of one payload. */
  function Enrich(fields: Dict, inputs: Inputs): Dict {
    var d := Put(fields, "metadata", Obj(NormalMetadata(Get(fields, "metadata"), inputs)));
    var events := Get(d, "events");
    if events.Some? && events.value.Arr?
    then Put(d, "events", Arr(Map(events.value.items, e => EnrichEvent(e, inputs))))
    else d
  }

  /** The CODEOWNERS counters of the merged events. */
  function TallyEvents(events: seq<Json>, inputs: Inputs): Stats {
    if inputs.matcher.enabled then TallyAll(Map(events, e => MergeEvent(e, inputs)), inputs.matcher.lookup)
    else Stats(0, 0, 0, 0, 0, 0)
  }

  function StatsOf(fields: Dict, inputs: Inputs): Stats {
    var events := Get(fields, "events");
    if events.Some? && events.value.Arr? then TallyEvents(events.value.items, inputs) else Stats(0, 0, 0, 0, 0, 0)
  }

  predicate AddsUp(s: Stats) { s.scanned == s.enriched + s.existing + s.missingSource + s.unmatched + s.errors }

  lemma TallyAddsUp(s: Stats, c: OwnerCase)
    requires AddsUp(s)
    ensures AddsUp(Tally(s, c)) && (!c.Malformed? ==> Tally(s, c).errors == s.errors)
  {
  }

  function TallyCases(cases: seq<OwnerCase>): Stats {
    if cases == [] then Stats(0, 0, 0, 0, 0, 0) else Tally(TallyCases(cases[..|cases| - 1]), cases[|cases| - 1])
  }

  /** Every scanned event is counted once more, under what became of it. */
  lemma {:induction false} CasesAddUp(cases: seq<OwnerCase>)
    ensures AddsUp(TallyCases(cases)) && (Malformed !in cases ==> TallyCases(cases).errors == 0)
  {
    if cases != [] {
      var k := |cases| - 1;
      CasesAddUp(cases[..k]);
      TallyAddsUp(TallyCases(cases[..k]), cases[k]);
    }
  }

  lemma {:induction false} TallyIs(events: seq<Json>, lookup: string -> Option<string>, cases: seq<OwnerCase>)
    requires |cases| == |events| && forall i :: 0 <= i < |events| ==> cases[i] == OwnerCaseOf(events[i], lookup)
    ensures TallyAll(events, lookup) == TallyCases(cases)
  {
    if events != [] { TallyIs(events[..|events| - 1], lookup, cases[..|events| - 1]); }
  }

  /** The merge before CODEOWNERS gives every event its content, so the source's error branch stays unused. */
  lemma NotMalformed(event: Json, inputs: Inputs, lookup: string -> Option<string>)
    ensures !OwnerCaseOf(MergeEvent(event, inputs), lookup).Malformed?
  {
    if event.Obj? {
      MergedHasContent(event, inputs);
      ContentSuffices(MergeEvent(event, inputs), lookup);
    }
  }

  lemma ContentSuffices(event: Json, lookup: string -> Option<string>)
    requires event.Obj? && HasObject(event.fields, CONTENT)
    ensures !OwnerCaseOf(event, lookup).Malformed?
  {
  }

  lemma MergedHasContent(event: Json, inputs: Inputs)
    requires event.Obj?
    ensures HasObject(MergeEvent(event, inputs).fields, CONTENT)
  {
    var content := ObjectOr(Get(event.fields, CONTENT));
    var meta := PutAll(ObjectOr(Get(content, META)), EventWrites(inputs));
    var metrics := PutAll(ObjectOr(Get(content, METRICS)), EventMetricWrites(inputs));
    PutRead(event.fields, CONTENT, Obj(Put(Put(content, META, Obj(meta)), METRICS, Obj(metrics))));
  }

  lemma MergedAddUp(events: seq<Json>, inputs: Inputs, lookup: string -> Option<string>)
    ensures var s := TallyAll(Map(events, e => MergeEvent(e, inputs)), lookup);
            AddsUp(s) && s.errors == 0
  {
    var merged := Map(events, e => MergeEvent(e, inputs));
    var cases := seq(|merged|, i requires 0 <= i < |merged| => OwnerCaseOf(merged[i], lookup));
    forall i | 0 <= i < |merged| ensures !cases[i].Malformed? { NotMalformed(events[i], inputs, lookup); }
    TallyIs(merged, lookup, cases);
    CasesAddUp(cases);
  }

  /** The counters of one payload add up, whatever the payload. */
  lemma StatsAccount(fields: Dict, inputs: Inputs)
    ensures var s := StatsOf(fields, inputs);
            s.errors == 0 && s.scanned == s.enriched + s.existing + s.missingSource + s.unmatched
  {
    var events := Get(fields, "events");
    if events.Some? && events.value.Arr? && inputs.matcher.enabled {
      MergedAddUp(events.value.items, inputs, inputs.matcher.lookup);
    }
  }

  /** `enrich_test_payload`: metadata, then both merges event by event, then CODEOWNERS. */
  method EnrichTestPayload(fields: Dict, inputs: Inputs, cache: map<string, Option<string>>)
    returns (fields': Dict, stats: Stats)
    requires Faithful(cache, inputs.matcher.lookup)
    ensures fields' == Enrich(fields, inputs) && stats == StatsOf(fields, inputs)
  {
    PutOther(fields, "metadata", Obj(NormalMetadata(Get(fields, "metadata"), inputs)), "events");
    fields' := Put(fields, "metadata", Obj(NormalMetadata(Get(fields, "metadata"), inputs)));
    stats := Stats(0, 0, 0, 0, 0, 0);
    var events := Get(fields', "events");
    if events.Some? && events.value.Arr? {
      var enriched;
      enriched, stats := EnrichEvents(events.value.items, inputs, cache);
      assert enriched == Map(events.value.items, e => EnrichEvent(e, inputs));
      fields' := Put(fields', "events", Arr(enriched));
    }
  }

  method EnrichEvents(events: seq<Json>, inputs: Inputs, cache: map<string, Option<string>>)
    returns (enriched: seq<Json>, stats: Stats)
    requires Faithful(cache, inputs.matcher.lookup)
    ensures |enriched| == |events| && forall j :: 0 <= j < |events| ==> enriched[j] == EnrichEvent(events[j], inputs)
    ensures stats == TallyEvents(events, inputs)
  {
    var merged: seq<Json> := [];
    for i := 0 to |events|
      invariant |merged| == i && forall j :: 0 <= j < i ==> merged[j] == MergeEvent(events[j], inputs)
    {
      var event := MergeOne(events[i], inputs);
      merged := merged + [event];
    }
    assert merged == Map(events, e => MergeEvent(e, inputs));
    enriched, stats := merged, Stats(0, 0, 0, 0, 0, 0);
    if inputs.matcher.enabled {
      var cache';
      enriched, stats, cache' := EnrichCodeOwners(merged, inputs.matcher, cache);
    }
  }

  method MergeOne(event: Json, inputs: Inputs) returns (r: Json)
    ensures r == MergeEvent(event, inputs)
  {
    if !event.Obj? { return event; }
    var content := ObjectOr(Get(event.fields, CONTENT));
    var meta, metrics := MergeBoth(ObjectOr(Get(content, META)), ObjectOr(Get(content, METRICS)), inputs);
    r := Obj(Put(event.fields, CONTENT, Obj(Put(Put(content, META, Obj(meta)), METRICS, Obj(metrics)))));
  }

  /** The context first, then the Bazel metadata, so that Bazel overrides the context. */
  method MergeBoth(meta: Dict, metrics: Dict, inputs: Inputs) returns (meta': Dict, metrics': Dict)
    ensures meta' == PutAll(meta, EventWrites(inputs)) && metrics' == PutAll(metrics, EventMetricWrites(inputs))
  {
    var context := EventContext(inputs.context);
    meta', metrics' := MergeFlatMetadata(meta, metrics, context, inputs.dump);
    MergeOrder(meta, metrics, inputs);
    if inputs.bazel.Some? {
      meta', metrics' := MergeFlatMetadata(meta', metrics', inputs.bazel.value, inputs.dump);
    }
  }

  lemma MergeOrder(meta: Dict, metrics: Dict, inputs: Inputs)
    ensures PutAll(meta, EventWrites(inputs))
         == var m := PutAll(meta, MetaWrites(EventContext(inputs.context), inputs.dump));
            if inputs.bazel.Some? then PutAll(m, MetaWrites(inputs.bazel.value, inputs.dump)) else m
    ensures PutAll(metrics, EventMetricWrites(inputs))
         == var m := PutAll(metrics, MetricWrites(EventContext(inputs.context)));
            if inputs.bazel.Some? then PutAll(m, MetricWrites(inputs.bazel.value)) else m
  {
    var a, b := MetaWrites(EventContext(inputs.context), inputs.dump), MetricWrites(EventContext(inputs.context));
    if inputs.bazel.Some? {
      PutAllAppend(meta, a, MetaWrites(inputs.bazel.value, inputs.dump));
      PutAllAppend(metrics, b, MetricWrites(inputs.bazel.value));
    } else {
      assert a + [] == a && b + [] == b;
    }
  }

  // ---------------------------------------------------------------- idempotence

  /** Every dictionary inside a decoded JSON value has distinct keys. */
  ghost predicate Decoded(v: Json) {
    match v
    case Arr(items) => forall i :: 0 <= i < |items| ==> Decoded(items[i])
    case Obj(fields) => DistinctKeys(fields) && forall i :: 0 <= i < |fields| ==> Decoded(fields[i].value)
    case _ => true
  }

  lemma DecodedGet(d: Dict, k: string)
    requires Decoded(Obj(d))
    ensures Get(d, k).Some? ==> Decoded(Get(d, k).value)
    ensures Decoded(Obj(ObjectOr(Get(d, k))))
  {
  }

  /** Content, meta and metrics are dictionaries in which both merges are settled. */
  ghost predicate MergesSettled(content: Dict, inputs: Inputs) {
    && HasObject(content, META) && HasObject(content, METRICS)
    && DistinctKeys(ObjectOr(Get(content, META))) && Settled(ObjectOr(Get(content, META)), EventWrites(inputs))
    && DistinctKeys(ObjectOr(Get(content, METRICS))) &&
         Settled(ObjectOr(Get(content, METRICS)), EventMetricWrites(inputs))
  }

  ghost predicate EventMerged(event: Json, inputs: Inputs) {
    event.Obj? ==> HasObject(event.fields, CONTENT) && MergesSettled(ObjectOr(Get(event.fields, CONTENT)), inputs)
  }

  /** An enriched event: nothing left to merge, and CODEOWNERS has nothing to add. */
  ghost predicate EventSettled(event: Json, inputs: Inputs) {
    EventMerged(event, inputs) && (inputs.matcher.enabled ==> !OwnerCaseOf(event, inputs.matcher.lookup).Owned?)
  }

  lemma SettledFixed(event: Json, inputs: Inputs)
    requires EventSettled(event, inputs)
    ensures EnrichEvent(event, inputs) == event
  {
    if event.Obj? {
      var content := ObjectOr(Get(event.fields, CONTENT));
      PutAllSettled(ObjectOr(Get(content, META)), EventWrites(inputs));
      PutAllSettled(ObjectOr(Get(content, METRICS)), EventMetricWrites(inputs));
      PutSame(content, META, Get(content, META).value);
      PutSame(content, METRICS, Get(content, METRICS).value);
      PutSame(event.fields, CONTENT, Get(event.fields, CONTENT).value);
    }
  }

  lemma MergeSettles(event: Json, inputs: Inputs)
    requires Decoded(event)
    ensures EventMerged(MergeEvent(event, inputs), inputs)
    ensures event.Obj? ==> DistinctKeys(MergeEvent(event, inputs).fields)
    ensures event.Obj? ==> DistinctKeys(ObjectOr(Get(MergeEvent(event, inputs).fields, CONTENT)))
  {
    if event.Obj? {
      var d := event.fields;
      DecodedGet(d, CONTENT);
      var content := ObjectOr(Get(d, CONTENT));
      DecodedGet(content, META);
      DecodedGet(content, METRICS);
      var meta := PutAll(ObjectOr(Get(content, META)), EventWrites(inputs));
      var metrics := PutAll(ObjectOr(Get(content, METRICS)), EventMetricWrites(inputs));
      PutAllSettles(ObjectOr(Get(content, META)), EventWrites(inputs));
      PutAllSettles(ObjectOr(Get(content, METRICS)), EventMetricWrites(inputs));
      var c1 := Put(content, META, Obj(meta));
      PutDistinct(content, META, Obj(meta));
      PutGet(content, META, Obj(meta), META);
      var c2 := Put(c1, METRICS, Obj(metrics));
      PutDistinct(c1, METRICS, Obj(metrics));
      PutGet(c1, METRICS, Obj(metrics), META);
      PutGet(c1, METRICS, Obj(metrics), METRICS);
      PutDistinct(d, CONTENT, Obj(c2));
      PutGet(d, CONTENT, Obj(c2), CONTENT);
    }
  }

  /** A write to a key outside ws keeps ws settled. */
  lemma PutKeepsSettled(d: Dict, ws: Dict, k: string, v: Json)
    requires DistinctKeys(d) && Settled(d, ws) && !Has(d, k)
    ensures DistinctKeys(Put(d, k, v)) && Settled(Put(d, k, v), ws)
  {
    PutDistinct(d, k, v);
    forall q | Last(ws, q).Some? ensures Get(Put(d, k, v), q) == Last(ws, q) {
      PutGet(d, k, v, q);
    }
  }

  lemma PutMeta(event: Dict, content: Dict, meta: Dict)
    requires DistinctKeys(event) && DistinctKeys(content)
    ensures var event' := Put(event, CONTENT, Obj(Put(content, META, Obj(meta))));
            && Get(event', CONTENT) == Some(Obj(Put(content, META, Obj(meta))))
            && Get(Put(content, META, Obj(meta)), META) == Some(Obj(meta))
            && Get(Put(content, META, Obj(meta)), METRICS) == Get(content, METRICS)
  {
    PutGet(content, META, Obj(meta), META);
    PutGet(content, META, Obj(meta), METRICS);
    PutGet(event, CONTENT, Obj(Put(content, META, Obj(meta))), CONTENT);
  }

  lemma PutMetaSettled(content: Dict, inputs: Inputs, owners: string)
    requires DistinctKeys(content) && MergesSettled(content, inputs) && !Has(ObjectOr(Get(content, META)), CODEOWNERS)
    ensures var meta := Put(ObjectOr(Get(content, META)), CODEOWNERS, Str(owners));
            MergesSettled(Put(content, META, Obj(meta)), inputs) && Has(meta, CODEOWNERS)
  {
    var meta := ObjectOr(Get(content, META));
    var meta' := Put(meta, CODEOWNERS, Str(owners));
    PutKeepsSettled(meta, EventWrites(inputs), CODEOWNERS, Str(owners));
    PutGet(meta, CODEOWNERS, Str(owners), CODEOWNERS);
    PutMeta([], content, meta');
  }

  lemma OwnersStay(event: Json, lookup: string -> Option<string>)
    requires event.Obj? && Has(ObjectOr(Get(ObjectOr(Get(event.fields, CONTENT)), META)), CODEOWNERS)
    ensures !OwnerCaseOf(event, lookup).Owned?
  {
  }

  /** Adding the owners keeps the merges settled and leaves nothing to add. */
  lemma OwnSettles(event: Json, inputs: Inputs)
    requires EventMerged(event, inputs)
    requires event.Obj? ==> DistinctKeys(event.fields) && DistinctKeys(ObjectOr(Get(event.fields, CONTENT)))
    ensures EventSettled(OwnEvent(event, inputs.matcher.lookup), inputs)
  {
    var c := OwnerCaseOf(event, inputs.matcher.lookup);
    if c.Owned? {
      var content := ObjectOr(Get(event.fields, CONTENT));
      var meta' := Put(ObjectOr(Get(content, META)), CODEOWNERS, Str(c.owners));
      PutMetaSettled(content, inputs, c.owners);
      PutMeta(event.fields, content, meta');
      var event' := OwnEvent(event, inputs.matcher.lookup);
      OwnersStay(event', inputs.matcher.lookup);
    }
  }

  lemma EnrichedEventSettled(event: Json, inputs: Inputs)
    requires Decoded(event)
    ensures EventSettled(EnrichEvent(event, inputs), inputs)
  {
    MergeSettles(event, inputs);
    if inputs.matcher.enabled {
      OwnSettles(MergeEvent(event, inputs), inputs);
    }
  }

  /** Enriching an enriched event changes nothing. */
  lemma EnrichEventIdempotent(event: Json, inputs: Inputs)
    requires Decoded(event)
    ensures EnrichEvent(EnrichEvent(event, inputs), inputs) == EnrichEvent(event, inputs)
  {
    EnrichedEventSettled(event, inputs);
    SettledFixed(EnrichEvent(event, inputs), inputs);
  }

  // ---------------------------------------------------------------- a retained payload enriches to itself

  /** The same enrichment in a later invocation: only the generated runtime id may differ. */
  ghost predicate SameContext(inputs: Inputs, later: Inputs) {
    && later == inputs.(runtimeId := later.runtimeId)
    && (later.runtimeId == inputs.runtimeId || inputs.runtimeId != "")
  }

  lemma {:induction false} FirstTextAppend(a: seq<Option<Json>>, b: seq<Option<Json>>)
    ensures FirstText(a + b) == if FirstText(a) != "" then FirstText(a) else FirstText(b)
  {
    if a == [] {
      assert a + b == b;
    } else {
      assert (a + b)[1..] == a[1..] + b;
      FirstTextAppend(a[1..], b);
    }
  }

  lemma GlobalGet(id: string, language: string, version: string, env: string)
    ensures var d := GlobalOf(id, language, version, env);
            && Get(d, RUNTIME_ID) == Some(Str(id)) && Get(d, LANGUAGE) == Some(Str(language)) &&
                 Get(d, VERSION) == Some(Str(version))
            && Get(d, ENV) == if env != "" then Some(Str(env)) else None
  {
    var d := GlobalOf(id, language, version, env);
    assert |RUNTIME_ID| == 10 && |LANGUAGE| == 8 && |VERSION| == 15 && |ENV| == 3;
    forall i, j | 0 <= i < j < |d| ensures d[i].key != d[j].key {
      assert |d[i].key| != |d[j].key|;
    }
    FindAt(d, 0);
    FindAt(d, 1);
    FindAt(d, 2);
    if env != "" { FindAt(d, 3); }
  }

  /** Once a choice among defaults is recorded, it is chosen again. */
  lemma ChosenAgain(own: Option<Json>, defaults: seq<Option<Json>>, defaults': seq<Option<Json>>)
    requires FirstText(defaults) == "" ==> FirstText(defaults') == ""
    ensures Choose(Some(Str(Choose(own, defaults))), defaults') == Choose(own, defaults)
  {
    assert ([own] + defaults)[1..] == defaults;
    assert ([Some(Str(Choose(own, defaults)))] + defaults')[1..] == defaults';
  }

  lemma RuntimeIdChosenAgain(own: Option<Json>, inputs: Inputs, later: Inputs)
    requires SameContext(inputs, later)
    ensures Choose(Some(Str(Choose(own, RuntimeIds(inputs.context) + [Some(Str(inputs.runtimeId))]))),
            RuntimeIds(inputs.context) + [Some(Str(later.runtimeId))])
         == Choose(own, RuntimeIds(inputs.context) + [Some(Str(inputs.runtimeId))])
  {
    var ids := RuntimeIds(inputs.context);
    FirstTextAppend(ids, [Some(Str(inputs.runtimeId))]);
    FirstTextAppend(ids, [Some(Str(later.runtimeId))]);
    ChosenAgain(own, ids + [Some(Str(inputs.runtimeId))], ids + [Some(Str(later.runtimeId))]);
  }

  lemma EnvChosenAgain(own: Option<Json>, default: Option<Json>)
    ensures var env := Choose(own, [default]);
            Choose(if env != "" then Some(Str(env)) else None, [default]) == env
  {
    ChosenAgain(own, [default], [default]);
    assert ([own] + [default])[1..] == [default];
    assert ([None] + [default])[1..] == [default];
  }

  lemma GlobalFixed(global: Dict, inputs: Inputs, later: Inputs)
    requires SameContext(inputs, later)
    ensures GlobalMetadata(GlobalMetadata(global, inputs), later) == GlobalMetadata(global, inputs)
  {
    var c := inputs.context;
    var id := Choose(Get(global, RUNTIME_ID), RuntimeIds(c) + [Some(Str(inputs.runtimeId))]);
    var language := Choose(Get(global, LANGUAGE), Languages(c));
    var version := Choose(Get(global, VERSION), [Some(Str(inputs.rulesVersion))]);
    var env := Choose(Get(global, ENV), [Get(c, ENV)]);
    GlobalGet(id, language, version, env);
    RuntimeIdChosenAgain(Get(global, RUNTIME_ID), inputs, later);
    ChosenAgain(Get(global, LANGUAGE), Languages(c), Languages(c));
    ChosenAgain(Get(global, VERSION), [Some(Str(inputs.rulesVersion))], [Some(Str(inputs.rulesVersion))]);
    EnvChosenAgain(Get(global, ENV), Get(c, ENV));
  }

  lemma {:induction false} KeptKeys(m: Dict, keys: seq<string>)
    ensures forall i :: 0 <= i < |Kept(m, keys)| ==> Kept(m, keys)[i].key in keys && !Kept(m, keys)[i].value.Null?
  {
    if keys != [] {
      KeptKeys(m, keys[1..]);
    }
  }

  /** Keeping the kept entries, behind entries with other keys, keeps them all. */
  lemma {:induction false} KeptAgain(front: Dict, m: Dict, keys: seq<string>)
    requires forall i, j :: 0 <= i < j < |keys| ==> keys[i] != keys[j]
    requires forall i :: 0 <= i < |front| ==> front[i].key !in keys
    ensures Kept(front + Kept(m, keys), keys) == Kept(m, keys)
    decreases |keys|
  {
    if keys != [] {
      var k, rest := keys[0], Kept(m, keys[1..]);
      var v := Get(m, k);
      KeptKeys(m, keys[1..]);
      if v.Some? && !v.value.Null? {
        var head := [Field(k, v.value)];
        KeptAgain(front + head, m, keys[1..]);
        KeptPresent(front, head[0], rest, keys);
      } else {
        KeptAgain(front, m, keys[1..]);
        KeptMissing(front, rest, keys);
      }
    }
  }

  lemma KeptPresent(front: Dict, f: Field, rest: Dict, keys: seq<string>)
    requires keys != [] && f.key == keys[0] && !f.value.Null? &&
             forall i :: 0 <= i < |front| ==> front[i].key != keys[0]
    ensures Kept(front + ([f] + rest), keys) == [f] + Kept((front + [f]) + rest, keys[1..])
  {
    var d := front + ([f] + rest);
    assert d == (front + [f]) + rest;
    AbsentBefore(d, keys[0], |front|);
  }

  lemma KeptMissing(front: Dict, rest: Dict, keys: seq<string>)
    requires keys != [] && (forall i :: 0 <= i < |front| ==> front[i].key != keys[0]) &&
             forall i :: 0 <= i < |rest| ==> rest[i].key != keys[0]
    ensures Kept(front + rest, keys) == Kept(front + rest, keys[1..])
  {
    assert !Has(front + rest, keys[0]);
  }

  lemma AbsentBefore(d: Dict, k: string, i: nat)
    requires i < |d| && d[i].key == k && forall j :: 0 <= j < i ==> d[j].key != k
    ensures Get(d, k) == Some(d[i].value)
  {
  }

  lemma TopLevelDistinct()
    ensures forall i, j :: 0 <= i < j < |TOP_LEVEL| ==> TOP_LEVEL[i] != TOP_LEVEL[j]
    ensures "*" !in TOP_LEVEL
  {
    var t := TOP_LEVEL;
    assert |t| == 4 && |t[0]| == 4 && |t[1]| == 14 && |t[2]| == 15 && |t[3]| == 16;
    forall i, j | 0 <= i < j < |t| ensures t[i] != t[j] {
      assert |t[i]| != |t[j]|;
    }
    forall i | 0 <= i < |t| ensures t[i] != "*" {
      assert |t[i]| != |"*"|;
    }
  }

  lemma MetadataFixed(metadata: Option<Json>, inputs: Inputs, later: Inputs)
    requires SameContext(inputs, later)
    ensures NormalMetadata(Some(Obj(NormalMetadata(metadata, inputs))), later) == NormalMetadata(metadata, inputs)
  {
    var m := ObjectOr(metadata);
    var star := Field("*", Obj(GlobalMetadata(ObjectOr(Get(m, "*")), inputs)));
    AbsentBefore([star] + Kept(m, TOP_LEVEL), "*", 0);
    GlobalFixed(ObjectOr(Get(m, "*")), inputs, later);
    TopLevelDistinct();
    KeptAgain([star], m, TOP_LEVEL);
  }

  lemma RetainedGets(fields: Dict, inputs: Inputs, events: seq<Json>)
    requires DistinctKeys(fields) && Get(fields, "events").Some? && Get(fields, "events").value.Arr?
    ensures var retained := Put(Enrich(fields, inputs), "events", Arr(events));
            && Get(retained, "metadata") == Some(Obj(NormalMetadata(Get(fields, "metadata"), inputs)))
            && Get(retained, "events") == Some(Arr(events))
    ensures Get(Enrich(fields, inputs), "events") ==
            Some(Arr(Map(Get(fields, "events").value.items, e => EnrichEvent(e, inputs))))
    ensures DistinctKeys(Enrich(fields, inputs))
  {
    assert |"metadata"| != |"events"|;
    var metadata := Obj(NormalMetadata(Get(fields, "metadata"), inputs));
    var d := Put(fields, "metadata", metadata);
    PutDistinct(fields, "metadata", metadata);
    PutGet(fields, "metadata", metadata, "metadata");
    PutGet(fields, "metadata", metadata, "events");
    var all := Arr(Map(Get(fields, "events").value.items, e => EnrichEvent(e, inputs)));
    PutDistinct(d, "events", all);
    PutGet(d, "events", all, "metadata");
    PutGet(d, "events", all, "events");
    PutGet(Put(d, "events", all), "events", Arr(events), "metadata");
    PutGet(Put(d, "events", all), "events", Arr(events), "events");
  }

  /** A payload cut down to some of its enriched events enriches to itself: what a failed upload
      leaves in the source file is sent again byte for byte. */
  lemma RetainedIsFixed(fields: Dict, inputs: Inputs, later: Inputs, events: seq<Json>)
    requires Decoded(Obj(fields)) && SameContext(inputs, later)
    requires Get(fields, "events").Some? && Get(fields, "events").value.Arr?
    requires forall e | e in events :: exists i ::
             0 <= i < |Get(fields, "events").value.items| &&
             e == EnrichEvent(Get(fields, "events").value.items[i], inputs)
    ensures var retained := Put(Enrich(fields, inputs), "events", Arr(events));
            Enrich(retained, later) == retained
  {
    var retained := Put(Enrich(fields, inputs), "events", Arr(events));
    RetainedGets(fields, inputs, events);
    MetadataFixed(Get(fields, "metadata"), inputs, later);
    PutSame(retained, "metadata", Get(retained, "metadata").value);
    RetainedEventsFixed(fields, Get(fields, "events").value.items, inputs, later, events);
    PutSame(retained, "events", Arr(events));
  }

  lemma RetainedEventsFixed(fields: Dict, sent: seq<Json>, inputs: Inputs, later: Inputs, events: seq<Json>)
    requires Decoded(Obj(fields)) && SameContext(inputs, later) && Get(fields, "events") == Some(Arr(sent))
    requires forall e | e in events :: exists i :: 0 <= i < |sent| && e == EnrichEvent(sent[i], inputs)
    ensures Map(events, e => EnrichEvent(e, later)) == events
  {
    DecodedGet(fields, "events");
    forall k | 0 <= k < |events| ensures EnrichEvent(events[k], later) == events[k] {
      assert events[k] in events;
      var i :| 0 <= i < |sent| && events[k] == EnrichEvent(sent[i], inputs);
      EnrichedEventSettled(sent[i], inputs);
      SettledFixed(events[k], later);
    }
  }

  /** Enriching an enriched payload changes nothing, in the same or a later invocation with the same context. */
  lemma EnrichIdempotent(fields: Dict, inputs: Inputs, later: Inputs)
    requires Decoded(Obj(fields)) && SameContext(inputs, later)
    ensures Enrich(Enrich(fields, inputs), later) == Enrich(fields, inputs)
  {
    var events := Get(fields, "events");
    if events.Some? && events.value.Arr? {
      var all := Map(events.value.items, e => EnrichEvent(e, inputs));
      RetainedGets(fields, inputs, all);
      RetainedIsFixed(fields, inputs, later, all);
      PutSame(Enrich(fields, inputs), "events", Arr(all));
    } else {
      MetadataOnly(fields, inputs);
      MetadataFixed(Get(fields, "metadata"), inputs, later);
      PutSame(Enrich(fields, inputs), "metadata", Obj(NormalMetadata(Get(fields, "metadata"), inputs)));
    }
  }

  /** Without an event list only the metadata is normalized. */
  lemma MetadataOnly(fields: Dict, inputs: Inputs)
    requires DistinctKeys(fields) && !(Get(fields, "events").Some? && Get(fields, "events").value.Arr?)
    ensures Enrich(fields, inputs) == Put(fields, "metadata", Obj(NormalMetadata(Get(fields, "metadata"), inputs)))
    ensures Get(Enrich(fields, inputs), "metadata") == Some(Obj(NormalMetadata(Get(fields, "metadata"), inputs)))
    ensures Get(Enrich(fields, inputs), "events") == Get(fields, "events")
  {
    assert |"metadata"| != |"events"|;
    var metadata := Obj(NormalMetadata(Get(fields, "metadata"), inputs));
    PutGet(fields, "metadata", metadata, "metadata");
    PutGet(fields, "metadata", metadata, "events");
  }
}
