/** What enrichment writes, key by key: which value wins in an event's metadata, which source path counts, what
    CODEOWNERS adds, and the payload's metadata defaults. */
module EnrichmentMeaning {
  import opened Json
  import opened Wrappers
  import opened Enrichment

  // ---------------------------------------------------------------- one key of an event

  /** The text that a flat value becomes; numbers are metrics and leave no text. */
  function TextOf(v: Option<Json>, dump: Json -> string): Option<Json> {
    match v
    case None => None
    case Some(Number(_)) => None
    case Some(Bool(b)) => Some(Str(if b then "true" else "false"))
    case Some(Str(t)) => Some(Str(t))
    case Some(other) => Some(Str(dump(other)))
  }

  function MetricOf(v: Option<Json>): Option<Json> {
    if v.Some? && v.value.Number? then v else None
  }

  function OrElse(a: Option<Json>, b: Option<Json>): Option<Json> { if a.Some? then a else b }

  lemma {:induction false} PutAllReads(d: Dict, ws: Dict, k: string)
    ensures Get(PutAll(d, ws), k) == OrElse(Last(ws, k), Get(d, k))
  {
    if ws != [] {
      var before, f := ws[..|ws| - 1], ws[|ws| - 1];
      PutAllReads(d, before, k);
      PutRead(PutAll(d, before), f.key, f.value);
      if f.key != k { PutOther(PutAll(d, before), f.key, f.value, k); }
    }
  }

  lemma {:induction false} LastAppend(a: Dict, b: Dict, k: string)
    ensures Last(a + b, k) == OrElse(Last(b, k), Last(a, k))
  {
    if b == [] {
      assert a + b == a;
    } else {
      assert (a + b)[..|a + b| - 1] == a + b[..|b| - 1];
      LastAppend(a, b[..|b| - 1], k);
    }
  }

  lemma LastField(d: Dict, k: string)
    requires DistinctKeys(d) && d != []
    ensures DistinctKeys(d[..|d| - 1])
    ensures Get(d, k) == if d[|d| - 1].key == k then Some(d[|d| - 1].value) else Get(d[..|d| - 1], k)
    ensures d[|d| - 1].key == k ==> Get(d[..|d| - 1], k) == None
  {
    var e := d[..|d| - 1];
    if d[|d| - 1].key == k {
      FindIs(d, k, |d| - 1);
    } else if Has(d, k) {
      var i := Find(d, k);
      FindIs(e, k, i);
    }
  }

  lemma WriteIs(f: Field, dump: Json -> string, k: string)
    ensures Last(MetaWrite(f, dump), k) == if f.key == k then TextOf(Some(f.value), dump) else None
    ensures Last(MetricWrite(f), k) == if f.key == k then MetricOf(Some(f.value)) else None
  {
    OneLast(MetaWrite(f, dump), k);
    OneLast(MetricWrite(f), k);
  }

  lemma OneLast(ws: Dict, k: string)
    requires |ws| <= 1
    ensures Last(ws, k) == if ws != [] && ws[0].key == k then Some(ws[0].value) else None
  {
  }

  lemma {:induction false} TextWrites(values: Dict, dump: Json -> string, k: string)
    requires DistinctKeys(values)
    ensures Last(MetaWrites(values, dump), k) == TextOf(Get(values, k), dump)
  {
    if values != [] {
      var before, f := values[..|values| - 1], values[|values| - 1];
      LastField(values, k);
      TextWrites(before, dump, k);
      LastAppend(MetaWrites(before, dump), MetaWrite(f, dump), k);
      WriteIs(f, dump, k);
    }
  }

  lemma {:induction false} NumberWrites(values: Dict, dump: Json -> string, k: string)
    requires DistinctKeys(values)
    ensures Last(MetricWrites(values), k) == MetricOf(Get(values, k))
  {
    if values != [] {
      var before, f := values[..|values| - 1], values[|values| - 1];
      LastField(values, k);
      NumberWrites(before, dump, k);
      LastAppend(MetricWrites(before), MetricWrite(f), k);
      WriteIs(f, dump, k);
    }
  }

  lemma DistinctTail(d: Dict)
    requires DistinctKeys(d) && d != []
    ensures DistinctKeys(d[1..]) && Get(d[1..], d[0].key) == None
    ensures d == [d[0]] + d[1..]
  {
    var rest := d[1..];
    assert forall i :: 0 <= i < |rest| ==> rest[i] == d[i + 1];
  }

  /** The context that reaches events: everything but the API key fingerprint. */
  lemma {:induction false} FingerprintWithheld(context: Dict, k: string)
    requires DistinctKeys(context)
    ensures Get(EventContext(context), k) == if k == "topt.api_key_fingerprint" then None else Get(context, k)
  {
    if context != [] {
      var rest := context[1..];
      DistinctTail(context);
      FingerprintWithheld(rest, k);
      ConsGet(context[0], rest, k);
      if context[0].key == "topt.api_key_fingerprint" {
        assert EventContext(context) == EventContext(rest);
      } else {
        ConsGet(context[0], EventContext(rest), k);
      }
    }
  }

  lemma {:induction false} ContextDistinct(context: Dict)
    requires DistinctKeys(context)
    ensures DistinctKeys(EventContext(context))
  {
    if context != [] {
      var rest := context[1..];
      DistinctTail(context);
      ContextDistinct(rest);
      FingerprintWithheld(rest, context[0].key);
      if context[0].key != "topt.api_key_fingerprint" {
        ConsDistinct(context[0], EventContext(rest));
      } else {
        assert EventContext(context) == EventContext(rest);
      }
    }
  }

  lemma ConsDistinct(f: Field, d: Dict)
    requires DistinctKeys(d) && Get(d, f.key) == None
    ensures DistinctKeys([f] + d)
  {
  }

  lemma ConsGet(f: Field, d: Dict, k: string)
    ensures Get([f] + d, k) == if f.key == k then Some(f.value) else Get(d, k)
  {
    assert ([f] + d)[1..] == d;
  }

  function ContentOf(event: Json): Dict { if event.Obj? then ObjectOr(Get(event.fields, CONTENT)) else [] }

  function MetaOf(event: Json): Dict { ObjectOr(Get(ContentOf(event), META)) }

  function MetricsOf(event: Json): Dict { ObjectOr(Get(ContentOf(event), METRICS)) }

  function BazelValue(inputs: Inputs, k: string): Option<Json> {
    if inputs.bazel.Some? then Get(inputs.bazel.value, k) else None
  }

  /** The context's value of k, unless it is the fingerprint. */
  function ContextValue(inputs: Inputs, k: string): Option<Json> {
    if k == "topt.api_key_fingerprint" then None else Get(inputs.context, k)
  }

  ghost predicate DistinctInputs(inputs: Inputs) {
    DistinctKeys(inputs.context) && (inputs.bazel.Some? ==> DistinctKeys(inputs.bazel.value))
  }

  /** In a merged event Bazel's text wins over the context's, and that over the event's own; numbers do the same
      among the metrics; the API key fingerprint never comes from the context. Nothing else changes. */
  lemma MergedValues(event: Json, inputs: Inputs, k: string)
    requires event.Obj? && DistinctInputs(inputs)
    ensures var merged := MergeEvent(event, inputs);
            && merged.Obj?
            && Get(MetaOf(merged), k) ==
               OrElse(TextOf(BazelValue(inputs, k), inputs.dump),
                 OrElse(TextOf(ContextValue(inputs, k), inputs.dump), Get(MetaOf(event), k)))
            && Get(MetricsOf(merged), k) ==
               OrElse(MetricOf(BazelValue(inputs, k)),
                 OrElse(MetricOf(ContextValue(inputs, k)), Get(MetricsOf(event), k)))
            && (k != META && k != METRICS ==> Get(ContentOf(merged), k) == Get(ContentOf(event), k))
            && (k != CONTENT ==> Get(merged.fields, k) == Get(event.fields, k))
  {
    var content := ContentOf(event);
    var meta, metrics := PutAll(MetaOf(event), EventWrites(inputs)),
      PutAll(MetricsOf(event), EventMetricWrites(inputs));
    var c1 := Put(content, META, Obj(meta));
    var c2 := Put(c1, METRICS, Obj(metrics));
    MergedParts(event, inputs, meta, metrics, c1, c2);
    WrittenValues(inputs, k);
    PutAllReads(MetaOf(event), EventWrites(inputs), k);
    PutAllReads(MetricsOf(event), EventMetricWrites(inputs), k);
    if k != META && k != METRICS {
      PutOther(content, META, Obj(meta), k);
      PutOther(c1, METRICS, Obj(metrics), k);
    }
    if k != CONTENT { PutOther(event.fields, CONTENT, Obj(c2), k); }
  }

  lemma MergedParts(event: Json, inputs: Inputs, meta: Dict, metrics: Dict, c1: Dict, c2: Dict)
    requires event.Obj? && meta == PutAll(MetaOf(event), EventWrites(inputs))
    requires metrics == PutAll(MetricsOf(event), EventMetricWrites(inputs))
    requires c1 == Put(ContentOf(event), META, Obj(meta)) && c2 == Put(c1, METRICS, Obj(metrics))
    ensures var merged := MergeEvent(event, inputs);
            merged.Obj? && ContentOf(merged) == c2 && MetaOf(merged) == meta && MetricsOf(merged) == metrics
  {
    assert |META| != |METRICS|;
    PutRead(ContentOf(event), META, Obj(meta));
    PutRead(c1, METRICS, Obj(metrics));
    PutOther(c1, METRICS, Obj(metrics), META);
    PutRead(event.fields, CONTENT, Obj(c2));
  }

  /** The value last written to k by the context, then Bazel. */
  lemma WrittenValues(inputs: Inputs, k: string)
    requires DistinctInputs(inputs)
    ensures Last(EventWrites(inputs), k) ==
            OrElse(TextOf(BazelValue(inputs, k), inputs.dump), TextOf(ContextValue(inputs, k), inputs.dump))
    ensures Last(EventMetricWrites(inputs), k) ==
            OrElse(MetricOf(BazelValue(inputs, k)), MetricOf(ContextValue(inputs, k)))
  {
    var context := EventContext(inputs.context);
    FingerprintWithheld(inputs.context, k);
    ContextDistinct(inputs.context);
    TextWrites(context, inputs.dump, k);
    NumberWrites(context, inputs.dump, k);
    if inputs.bazel.Some? {
      TextWrites(inputs.bazel.value, inputs.dump, k);
      NumberWrites(inputs.bazel.value, inputs.dump, k);
      LastAppend(MetaWrites(context, inputs.dump), MetaWrites(inputs.bazel.value, inputs.dump), k);
      LastAppend(MetricWrites(context), MetricWrites(inputs.bazel.value), k);
    } else {
      assert MetaWrites(context, inputs.dump) + [] == MetaWrites(context, inputs.dump);
      assert MetricWrites(context) + [] == MetricWrites(context);
    }
  }

  // ---------------------------------------------------------------- the source path and the owners

  predicate Usable(v: Option<Json>) { v.Some? && v.value.Str? && v.value.text != "" }

  /** The text of v, or else a default. */
  function TextOr(v: Option<Json>, default: string): string {
    if Usable(v) then v.value.text else default
  }

  lemma FirstTextStep(v: Option<Json>, vs: seq<Option<Json>>)
    ensures FirstText([v] + vs) == TextOr(v, FirstText(vs))
  {
    assert ([v] + vs)[1..] == vs;
  }

  /** The source path of an event: its metadata's test source before its source, a file before a path, and the
      content's own source last. */
  lemma SourcePathIs(event: Json)
    requires event.Obj?
    ensures var meta, source := MetaOf(event), ObjectOr(Get(ContentOf(event), "source"));
            SourcePath(event.fields) ==
            TextOr(Get(meta, "test.source.file"), TextOr(Get(meta, "test.source.path"), TextOr(Get(meta, "source.file"),
              TextOr(Get(meta, "source.path"), TextOr(Get(source, "file"), TextOr(Get(source, "path"), ""))))))
  {
    var meta, source := MetaOf(event), ObjectOr(Get(ContentOf(event), "source"));
    SixTexts(Get(meta, "test.source.file"), Get(meta, "test.source.path"), Get(meta, "source.file"),
      Get(meta, "source.path"), Get(source, "file"), Get(source, "path"));
  }

  lemma SixTexts(a: Option<Json>, b: Option<Json>, c: Option<Json>, d: Option<Json>, e: Option<Json>, f: Option<Json>)
    ensures FirstText([a, b, c, d, e, f]) == TextOr(a, TextOr(b, TextOr(c, TextOr(d, TextOr(e, TextOr(f, ""))))))
  {
    FirstTextStep(f, []);
    FirstTextStep(e, [f]);
    FirstTextStep(d, [e, f]);
    FirstTextStep(c, [d, e, f]);
    FirstTextStep(b, [c, d, e, f]);
    FirstTextStep(a, [b, c, d, e, f]);
  }

  /** Whom CODEOWNERS gives owners: events other than spans, without owners of their own, whose source path has
      some. */
  ghost predicate GetsOwners(event: Json, lookup: string -> Option<string>) {
    && event.Obj? && Get(event.fields, "type") != Some(Str("span")) && HasObject(event.fields, CONTENT)
    && Get(MetaOf(event), "test.codeowners") == None
    && SourcePath(event.fields) != "" && lookup(SourcePath(event.fields)).Some?
  }

  /** Such an event gets exactly the owners of its path, in its metadata; nothing else changes, and no other event
      changes at all. */
  lemma OwnersPlaced(event: Json, lookup: string -> Option<string>, k: string)
    ensures var owned := OwnEvent(event, lookup);
            if GetsOwners(event, lookup) then
              && owned.Obj?
              && Get(MetaOf(owned), k) ==
                 (if k == "test.codeowners" then Some(Str(lookup(SourcePath(event.fields)).value))
                   else Get(MetaOf(event), k))
              && (k != META ==> Get(ContentOf(owned), k) == Get(ContentOf(event), k))
              && (k != CONTENT ==> Get(owned.fields, k) == Get(event.fields, k))
            else owned == event
  {
    OwnersDecided(event, lookup);
    if GetsOwners(event, lookup) {
      OwnersPut(event, lookup(SourcePath(event.fields)).value, OwnEvent(event, lookup), k);
    }
  }

  lemma OwnersDecided(event: Json, lookup: string -> Option<string>)
    ensures GetsOwners(event, lookup) ==> OwnerCaseOf(event, lookup) == Owned(lookup(SourcePath(event.fields)).value)
    ensures !GetsOwners(event, lookup) ==> !OwnerCaseOf(event, lookup).Owned?
  {
  }

  lemma OwnersPut(event: Json, owners: string, owned: Json, k: string)
    requires event.Obj?
    requires owned ==
             Obj(Put(event.fields, CONTENT,
             Obj(Put(ContentOf(event), META, Obj(Put(MetaOf(event), CODEOWNERS, Str(owners)))))))
    ensures Get(MetaOf(owned), k) == if k == "test.codeowners" then Some(Str(owners)) else Get(MetaOf(event), k)
    ensures k != META ==> Get(ContentOf(owned), k) == Get(ContentOf(event), k)
    ensures k != CONTENT ==> Get(owned.fields, k) == Get(event.fields, k)
  {
    var meta := Put(MetaOf(event), CODEOWNERS, Str(owners));
    var content := Put(ContentOf(event), META, Obj(meta));
    PutReads(event.fields, CONTENT, Obj(content), CONTENT);
    PutReads(ContentOf(event), META, Obj(meta), META);
    assert ContentOf(owned) == content && MetaOf(owned) == meta;
    PutReads(MetaOf(event), CODEOWNERS, Str(owners), k);
    PutReads(ContentOf(event), META, Obj(meta), k);
    PutReads(event.fields, CONTENT, Obj(content), k);
  }

  lemma PutReads(d: Dict, k: string, v: Json, q: string)
    ensures Get(Put(d, k, v), q) == if q == k then Some(v) else Get(d, q)
  {
    if q == k { PutRead(d, k, v); } else { PutOther(d, k, v, q); }
  }

  // ---------------------------------------------------------------- the payload's metadata

  /** The producer's own non-empty text stands; else the context's, by its names in order; else the default. An
      environment is written only when there is one. */
  lemma GlobalMeans(global: Dict, inputs: Inputs)
    ensures var g, c := GlobalMetadata(global, inputs), inputs.context;
            && Get(g, "runtime-id") == Some(Str(TextOr(Get(global, "runtime-id"), TextOr(Get(c, "runtime-id"),
                 TextOr(Get(c, "runtime.id"), TextOr(Get(c, "runtime_id"), inputs.runtimeId))))))
            && Get(g, "language") == Some(Str(TextOr(Get(global, "language"), TextOr(Get(c, "language"),
                 TextOr(Get(c, "runtime.name"), TextOr(Get(c, "runtime_name"), "bazel"))))))
            && Get(g, "library_version") == Some(Str(TextOr(Get(global, "library_version"), inputs.rulesVersion)))
            && (var env := TextOr(Get(global, "env"), TextOr(Get(c, "env"), ""));
                Get(g, "env") == if env == "" then None else Some(Str(env)))
  {
    var c := inputs.context;
    GlobalGet(
      Choose(Get(global, RUNTIME_ID), RuntimeIds(c) + [Some(Str(inputs.runtimeId))]),
      Choose(Get(global, LANGUAGE), Languages(c)),
      Choose(Get(global, VERSION), [Some(Str(inputs.rulesVersion))]),
      Choose(Get(global, ENV), [Get(c, ENV)]));
    FourDefaults(Get(global, RUNTIME_ID), Get(c, "runtime-id"), Get(c, "runtime.id"), Get(c, "runtime_id"),
      inputs.runtimeId);
    FourDefaults(Get(global, LANGUAGE), Get(c, "language"), Get(c, "runtime.name"), Get(c, "runtime_name"), "bazel");
    OneDefault(Get(global, VERSION), Some(Str(inputs.rulesVersion)));
    OneDefault(Get(global, ENV), Get(c, ENV));
  }

  lemma FourDefaults(own: Option<Json>, a: Option<Json>, b: Option<Json>, c: Option<Json>, d: string)
    ensures FirstText([own] + ([a, b, c] + [Some(Str(d))])) == TextOr(own, TextOr(a, TextOr(b, TextOr(c, d))))
    ensures FirstText([own] + [a, b, c, Some(Str(d))]) == TextOr(own, TextOr(a, TextOr(b, TextOr(c, d))))
  {
    var last := Some(Str(d));
    assert [a, b, c] + [last] == [a, b, c, last];
    FirstTextStep(last, []);
    FirstTextStep(c, [last]);
    FirstTextStep(b, [c, last]);
    FirstTextStep(a, [b, c, last]);
    FirstTextStep(own, [a, b, c, last]);
  }

  lemma OneDefault(own: Option<Json>, a: Option<Json>)
    ensures FirstText([own] + [a]) == TextOr(own, TextOr(a, ""))
  {
    FirstTextStep(a, []);
    FirstTextStep(own, [a]);
  }

  lemma {:induction false} KeptGet(m: Dict, keys: seq<string>, k: string)
    requires forall i, j :: 0 <= i < j < |keys| ==> keys[i] != keys[j]
    ensures Get(Kept(m, keys), k) == if k in keys && Get(m, k) != Some(Null) then Get(m, k) else None
  {
    if keys != [] {
      KeptGet(m, keys[1..], k);
      var v := Get(m, keys[0]);
      if v.Some? && !v.value.Null? {
        ConsGet(Field(keys[0], v.value), Kept(m, keys[1..]), k);
      } else {
        assert [] + Kept(m, keys[1..]) == Kept(m, keys[1..]);
      }
    }
  }

  /** Of the producer's metadata only the entries of the four event kinds survive, when they are not null. */
  lemma MetadataMeans(metadata: Option<Json>, inputs: Inputs, k: string)
    ensures var m := ObjectOr(metadata);
            Get(NormalMetadata(metadata, inputs), k) ==
            if k == "*" then Some(Obj(GlobalMetadata(ObjectOr(Get(m, "*")), inputs)))
            else if k in ["test", "test_suite_end", "test_module_end", "test_session_end"] && Get(m, k) != Some(Null)
            then Get(m, k) else None
  {
    var m := ObjectOr(metadata);
    TopLevelDistinct();
    KeptGet(m, TOP_LEVEL, k);
    ConsGet(Field("*", Obj(GlobalMetadata(ObjectOr(Get(m, "*")), inputs))), Kept(m, TOP_LEVEL), k);
  }
}
