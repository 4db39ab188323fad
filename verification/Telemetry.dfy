/** The telemetry plan: which telemetry source carries the metrics that rules recorded for its service. */
module Telemetry {
  import opened Paths
  import opened Wrappers

  /** A tracer request file; `batch` tells a message-batch request. */
  datatype Source = Source(path: string, service: string, language: string, runtime: string, seqId: Option<int>,
      batch: bool)

  /** One recorded metric; an unusable record has no name. */
  datatype Fact = Fact(name: string, detail: string)

  datatype Facts = Facts(path: string, service: string, runtime: string, env: string, counts: seq<Fact>,
      distributions: seq<Fact>)

  datatype Key = Key(service: string, language: string)

  datatype Mode = Untouched | Append | Synthesize(seqId: int, timestamp: int)

  /** What a source's worker does: override the environment, and carry messages. */
  datatype Directive = Directive(env: string, counts: seq<Fact>, distributions: seq<Fact>, mode: Mode)

  const NONE: Directive := Directive("", [], [], Untouched)

  type Plan = map<string, Directive>

  // ---------------------------------------------------------------- groups

  function KeyOf(s: Source): Key { Key(s.service, s.language) }

  /** Some source of this service and language exists. */
  predicate Speaks(sources: seq<Source>, key: Key) {
    exists i :: 0 <= i < |sources| && KeyOf(sources[i]) == key
  }

  function FirstLanguage(sources: seq<Source>, service: string): Option<string> {
    if sources == [] then None
    else if sources[0].service == service then Some(sources[0].language)
    else FirstLanguage(sources[1..], service)
  }

  predicate OnlyLanguage(sources: seq<Source>, service: string, language: string) {
    forall i :: 0 <= i < |sources| && sources[i].service == service ==> sources[i].language == language
  }

  /** The stream language of a facts file: the service's only language, else the one named by its runtime. */
  function LanguageOf(f: Facts, sources: seq<Source>): Option<string> {
    var first := FirstLanguage(sources, f.service);
    if first.None? then None
    else if OnlyLanguage(sources, f.service, first.value) then first
    else if Speaks(sources, Key(f.service, f.runtime)) then Some(f.runtime)
    else None
  }

  function Group(sources: seq<Source>, key: Key): seq<Source> {
    if sources == [] then []
    else
      Group(sources[..|sources| - 1], key) +
        if KeyOf(sources[|sources| - 1]) == key then [sources[|sources| - 1]] else []
  }

  predicate GoesTo(f: Facts, sources: seq<Source>, key: Key) {
    f.service == key.service && LanguageOf(f, sources) == Some(key.language)
  }

  function FactsFor(facts: seq<Facts>, sources: seq<Source>, key: Key): seq<Facts> {
    if facts == [] then []
    else
      FactsFor(facts[..|facts| - 1], sources, key) +
        if GoesTo(facts[|facts| - 1], sources, key) then [facts[|facts| - 1]] else []
  }

  /** The environment the group agrees on, or "". */
  function EnvOf(fs: seq<Facts>): string {
    if fs == [] then "" else if fs[0].env != "" then fs[0].env else EnvOf(fs[1..])
  }

  /** Two facts files name different environments. */
  predicate Conflict(fs: seq<Facts>) {
    exists i, j :: 0 <= i < |fs| && 0 <= j < |fs| && fs[i].env != "" && fs[j].env != "" && fs[i].env != fs[j].env
  }

  function Usable(xs: seq<Fact>): seq<Fact> {
    if xs == [] then [] else Usable(xs[..|xs| - 1]) + if xs[|xs| - 1].name != "" then [xs[|xs| - 1]] else []
  }

  function Counts(fs: seq<Facts>): seq<Fact> {
    if fs == [] then [] else Counts(fs[..|fs| - 1]) + Usable(fs[|fs| - 1].counts)
  }

  function Distributions(fs: seq<Facts>): seq<Fact> {
    if fs == [] then [] else Distributions(fs[..|fs| - 1]) + Usable(fs[|fs| - 1].distributions)
  }

  predicate HasMessages(fs: seq<Facts>) { Counts(fs) != [] || Distributions(fs) != [] }

  // ---------------------------------------------------------------- the anchor

  predicate AtMost(a: string, b: string) { a == b || Less(a, b) }

  predicate AnyBatch(g: seq<Source>) { exists i :: 0 <= i < |g| && g[i].batch }

  /** The latest path among the batch requests of the group, or among all its requests when there is none. */
  ghost predicate IsAnchor(g: seq<Source>, a: Source) {
    && a in g && (AnyBatch(g) ==> a.batch)
    && forall s :: s in g && (AnyBatch(g) ==> s.batch) ==> AtMost(s.path, a.path)
  }

  ghost predicate DistinctPaths(sources: seq<Source>) {
    forall s, t :: s in sources && t in sources && s.path == t.path ==> s == t
  }

  lemma AnchorUnique(g: seq<Source>, a: Source, b: Source)
    requires IsAnchor(g, a) && IsAnchor(g, b) && DistinctPaths(g)
    ensures a == b
  {
    if a.path != b.path { LessAsymmetric(a.path, b.path); }
  }

  function Stream(g: seq<Source>, runtime: string): seq<Source> {
    if g == [] then []
    else Stream(g[..|g| - 1], runtime) + if g[|g| - 1].runtime == runtime then [g[|g| - 1]] else []
  }

  /** The largest sequence id of a stream, or 0 when none is set. */
  function MaxSeq(stream: seq<Source>): Option<int> {
    if stream == [] then None
    else
      var m, s := MaxSeq(stream[..|stream| - 1]), stream[|stream| - 1];
      if s.seqId.None? || (m.Some? && m.value >= s.seqId.value) then m else s.seqId
  }

  function NextSeq(stream: seq<Source>): int {
    1 + if MaxSeq(stream).Some? then MaxSeq(stream).value else 0
  }

  lemma {:induction false} StreamIs(g: seq<Source>, runtime: string)
    ensures forall s :: s in Stream(g, runtime) <==> s in g && s.runtime == runtime
  {
    if g != [] {
      var k := |g| - 1;
      StreamIs(g[..k], runtime);
      assert g == g[..k] + [g[k]];
    }
  }

  lemma {:induction false} GroupIs(sources: seq<Source>, key: Key)
    ensures forall s :: s in Group(sources, key) <==> s in sources && KeyOf(s) == key
  {
    if sources != [] {
      var k := |sources| - 1;
      GroupIs(sources[..k], key);
      assert sources == sources[..k] + [sources[k]];
    }
  }

  /** A synthesized request comes after every request of its stream. */
  lemma {:induction false} NextSeqIsAbove(stream: seq<Source>)
    ensures forall s :: s in stream && s.seqId.Some? ==>
            MaxSeq(stream).Some? && s.seqId.value <= MaxSeq(stream).value < NextSeq(stream)
    ensures MaxSeq(stream).Some? ==> exists s :: s in stream && s.seqId == MaxSeq(stream)
  {
    if stream != [] {
      var k := |stream| - 1;
      NextSeqIsAbove(stream[..k]);
      assert stream == stream[..k] + [stream[k]];
      assert stream[k] in stream;
    }
  }

  // ---------------------------------------------------------------- choosing a stream first

  /** a ranks no lower than s: batch requests first, then by path. */
  predicate Beats(a: Source, s: Source) {
    (a.batch && !s.batch) || (a.batch == s.batch && AtMost(s.path, a.path))
  }

  lemma AnchorBeats(g: seq<Source>, a: Source)
    ensures IsAnchor(g, a) <==> a in g && forall s :: s in g ==> Beats(a, s)
  {
    if a in g && !a.batch && AnyBatch(g) {
      var i :| 0 <= i < |g| && g[i].batch;
      assert g[i] in g && !Beats(a, g[i]);
    }
    if IsAnchor(g, a) && a.batch {
      var i :| 0 <= i < |g| && g[i] == a;
      assert g[i].batch;
    }
    forall s | s in g && s.batch ensures AnyBatch(g) {
      var i :| 0 <= i < |g| && g[i] == s;
      assert g[i].batch;
    }
  }

  lemma BeatsTotal(a: Source, s: Source)
    ensures Beats(a, s) || Beats(s, a)
  {
    if a.path != s.path { LessTotal(a.path, s.path); }
  }

  lemma BeatsTransitive(a: Source, b: Source, c: Source)
    requires Beats(a, b) && Beats(b, c)
    ensures Beats(a, c)
  {
    if c.path != b.path && b.path != a.path && Less(c.path, b.path) &&
      Less(b.path, a.path) { LessTransitive(c.path, b.path, a.path); }
  }

  /** `_stream_best_path`, and the source that has it. */
  method BestOf(stream: seq<Source>) returns (best: Source)
    requires stream != []
    ensures IsAnchor(stream, best)
  {
    best := stream[0];
    for i := 1 to |stream|
      invariant IsAnchor(stream[..i], best)
    {
      assert stream[..i + 1] == stream[..i] + [stream[i]];
      BestStep(stream, i, best);
      if (stream[i].batch && !best.batch) || (stream[i].batch == best.batch && Less(best.path, stream[i].path)) {
        best := stream[i];
      }
    }
    assert stream[..|stream|] == stream;
  }

  lemma BestStep(stream: seq<Source>, i: nat, best: Source)
    requires 0 < i < |stream| && IsAnchor(stream[..i], best)
    ensures var s := stream[i];
            IsAnchor(stream[..i + 1],
              if (s.batch && !best.batch) || (s.batch == best.batch && Less(best.path, s.path)) then s else best)
  {
    var s, some, more := stream[i], stream[..i], stream[..i + 1];
    assert more == some + [s];
    assert forall t :: t in more <==> t in some || t == s;
    AnyBatchAppend(some, s);
    if s.path != best.path { LessTotal(s.path, best.path); }
    forall t | t in some && Less(best.path, s.path) && AtMost(t.path, best.path) ensures AtMost(t.path, s.path) {
      if t.path != best.path { LessTransitive(t.path, best.path, s.path); }
    }
  }

  lemma AnyBatchAppend(some: seq<Source>, s: Source)
    ensures AnyBatch(some + [s]) <==> AnyBatch(some) || s.batch
  {
    var more := some + [s];
    if AnyBatch(some) {
      var i :| 0 <= i < |some| && some[i].batch;
      assert more[i].batch;
    }
    assert more[|some|] == s;
  }

  /** The best source of the best stream: choosing a runtime's stream first finds the latest path of the whole group. */
  method ChooseAnchor(g: seq<Source>) returns (best: Source)
    requires g != []
    ensures IsAnchor(g, best)
  {
    var seen: set<string> := {};
    best := g[0];
    for i := 0 to |g|
      invariant best in g && (i > 0 ==> seen != {})
      invariant forall j :: 0 <= j < i ==> g[j].runtime in seen
      invariant seen != {} ==> forall s :: s in g && s.runtime in seen ==> Beats(best, s)
    {
      if g[i].runtime !in seen {
        var stream := Stream(g, g[i].runtime);
        StreamIs(g, g[i].runtime);
        assert g[i] in stream;
        var b := BestOf(stream);
        AnchorBeats(stream, b);
        BeatsTotal(best, b);
        forall s | s in g && s.runtime in seen && Beats(b, best) && seen != {}
          ensures Beats(b, s) { BeatsTransitive(b, best, s); }
        forall s | s in stream && Beats(best, b) ensures Beats(best, s) { BeatsTransitive(best, b, s); }
        if seen == {} || !Beats(best, b) {
          best := b;
        }
        seen := seen + {g[i].runtime};
      }
    }
    AnchorBeats(g, best);
  }

  // ---------------------------------------------------------------- the plan

  /** What the plan must say for one source. */
  ghost predicate DirectiveFor(sources: seq<Source>, facts: seq<Facts>, clock: Key -> int, s: Source, d: Directive) {
    Directed(Group(sources, KeyOf(s)), FactsFor(facts, sources, KeyOf(s)), clock(KeyOf(s)), s, d)
  }

  function DirectiveAt(plan: Plan, path: string): Directive {
    if path in plan then plan[path] else NONE
  }

  /** The plan for the sources whose group key is among `keys`; nothing for the others. */
  ghost predicate PlannedFor(sources: seq<Source>, facts: seq<Facts>, clock: Key -> int, keys: set<Key>, plan: Plan) {
    && (forall s :: s in sources ==>
          if KeyOf(s) in keys then DirectiveFor(sources, facts, clock, s, DirectiveAt(plan, s.path))
          else DirectiveAt(plan, s.path) == NONE)
    && (forall p :: p in plan ==> exists s :: s in sources && s.path == p)
  }

  method SortedFacts(facts: seq<Facts>) returns (r: seq<Facts>)
    ensures r == Sort(facts)
  {
    r := [];
    for i := 0 to |facts|
      invariant r == Sort(facts[..i])
    {
      assert facts[..i + 1][..i] == facts[..i];
      r := Insert(r, facts[i]);
    }
    assert facts[..|facts|] == facts;
  }

  function Insert(xs: seq<Facts>, f: Facts): seq<Facts> {
    if xs == [] then [f] else if Less(f.path, xs[0].path) then [f] + xs else [xs[0]] + Insert(xs[1..], f)
  }

  function Sort(facts: seq<Facts>): seq<Facts> {
    if facts == [] then [] else Insert(Sort(facts[..|facts| - 1]), facts[|facts| - 1])
  }

  function Keys(sources: seq<Source>): set<Key> {
    set i | 0 <= i < |sources| :: KeyOf(sources[i])
  }

  /** `build_telemetry_plan`. */
  method BuildTelemetryPlan(sources: seq<Source>, facts: seq<Facts>, clock: Key -> int) returns (plan: Plan)
    requires DistinctPaths(sources)
    ensures PlannedFor(sources, Sort(facts), clock, Keys(sources), plan)
  {
    var sorted := SortedFacts(facts);
    plan := map[];
    var rest := Keys(sources);
    while rest != {}
      invariant rest <= Keys(sources)
      invariant PlannedFor(sources, sorted, clock, Keys(sources) - rest, plan)
    {
      var key :| key in rest;
      ghost var done := Keys(sources) - rest;
      plan := PlanGroup(sources, sorted, clock, key, done, plan);
      rest := rest - {key};
      assert Keys(sources) - rest == done + {key};
    }
    assert Keys(sources) - {} == Keys(sources);
  }

  /** Only the directives of the group differ. */
  ghost predicate ChangesOnly(g: seq<Source>, before: Plan, plan: Plan) {
    && (forall p: string :: PathOf(g, p) || DirectiveAt(plan, p) == DirectiveAt(before, p))
    && (forall p :: p in plan ==> p in before || PathOf(g, p))
  }

  ghost predicate PathOf(g: seq<Source>, p: string) {
    exists s :: s in g && s.path == p
  }

  lemma GroupPlanned(sources: seq<Source>, facts: seq<Facts>, clock: Key -> int, key: Key, done: set<Key>,
      before: Plan, plan: Plan)
    requires DistinctPaths(sources) && key !in done && PlannedFor(sources, facts, clock, done, before)
    requires ChangesOnly(Group(sources, key), before, plan)
    requires forall s :: s in Group(sources, key) ==> DirectiveFor(sources, facts, clock, s, DirectiveAt(plan, s.path))
    ensures PlannedFor(sources, facts, clock, done + {key}, plan)
  {
    var g := Group(sources, key);
    GroupIs(sources, key);
    forall s | s in sources && KeyOf(s) != key ensures DirectiveAt(plan, s.path) == DirectiveAt(before, s.path) {
      assert !PathOf(g, s.path);
    }
    forall p | p in plan ensures exists s :: s in sources && s.path == p {
      if p !in before {
        var s :| s in g && s.path == p;
        assert s in sources;
      }
    }
  }

  /** The directives of one stream key. */
  method PlanGroup(sources: seq<Source>, facts: seq<Facts>, clock: Key -> int, key: Key, ghost done: set<Key>,
      before: Plan) returns (plan: Plan)
    requires DistinctPaths(sources) && key in Keys(sources) && key !in done
    requires PlannedFor(sources, facts, clock, done, before)
    ensures PlannedFor(sources, facts, clock, done + {key}, plan)
  {
    var g, fs := Group(sources, key), FactsFor(facts, sources, key);
    GroupIs(sources, key);
    GroupNonEmpty(sources, key);
    plan := DirectGroup(g, fs, clock(key), before);
    forall s | s in g ensures DirectiveFor(sources, facts, clock, s, DirectiveAt(plan, s.path)) {
      assert KeyOf(s) == key;
      assert Directed(g, fs, clock(key), s, DirectiveAt(plan, s.path));
    }
    GroupPlanned(sources, facts, clock, key, done, before, plan);
  }

  lemma GroupNonEmpty(sources: seq<Source>, key: Key)
    requires key in Keys(sources)
    ensures Group(sources, key) != []
  {
    var i :| 0 <= i < |sources| && KeyOf(sources[i]) == key;
    GroupIs(sources, key);
    assert sources[i] in sources;
  }

  /** What the plan says for one source of a group. */
  ghost predicate Directed(g: seq<Source>, fs: seq<Facts>, timestamp: int, s: Source, d: Directive) {
    if Conflict(fs) then d == NONE
    else if HasMessages(fs) && IsAnchor(g, s) then
      d == Directive(EnvOf(fs), Counts(fs), Distributions(fs),
        if s.batch then Append else Synthesize(NextSeq(Stream(g, s.runtime)), timestamp))
    else d == NONE.(env := EnvOf(fs))
  }

  method DirectGroup(g: seq<Source>, fs: seq<Facts>, timestamp: int, before: Plan) returns (plan: Plan)
    requires g != [] && DistinctPaths(g) && forall s :: s in g ==> DirectiveAt(before, s.path) == NONE
    ensures ChangesOnly(g, before, plan)
    ensures forall s :: s in g ==> Directed(g, fs, timestamp, s, DirectiveAt(plan, s.path))
  {
    if Conflict(fs) { return before; }
    plan := Override(g, EnvOf(fs), before);
    if !HasMessages(fs) { return; }
    var anchor := ChooseAnchor(g);
    var mode := if anchor.batch then Append else Synthesize(NextSeq(Stream(g, anchor.runtime)), timestamp);
    var current := DirectiveAt(plan, anchor.path);
    plan := plan[anchor.path := current.(counts := Counts(fs), distributions := Distributions(fs), mode := mode)];
    assert PathOf(g, anchor.path);
    forall s | s in g && s != anchor ensures !IsAnchor(g, s) {
      if IsAnchor(g, s) { AnchorUnique(g, s, anchor); }
    }
  }

  /** The environment override of every source of the group. */
  method Override(g: seq<Source>, env: string, before: Plan) returns (plan: Plan)
    requires DistinctPaths(g) && forall s :: s in g ==> DirectiveAt(before, s.path) == NONE
    ensures ChangesOnly(g, before, plan)
    ensures forall s :: s in g ==> DirectiveAt(plan, s.path) == NONE.(env := env)
  {
    plan := before;
    if env == "" { return; }
    for i := 0 to |g|
      invariant ChangesOnly(g, before, plan)
      invariant forall j :: 0 <= j < i ==> DirectiveAt(plan, g[j].path) == NONE.(env := env)
    {
      assert g[i] in g;
      assert PathOf(g, g[i].path);
      plan := plan[g[i].path := NONE.(env := env)];
    }
  }

  // ---------------------------------------------------------------- what the plan achieves

  lemma {:induction false} FactsForAre(facts: seq<Facts>, sources: seq<Source>, key: Key)
    ensures forall f :: f in FactsFor(facts, sources, key) <==> f in facts && GoesTo(f, sources, key)
  {
    if facts != [] {
      var k := |facts| - 1;
      FactsForAre(facts[..k], sources, key);
      assert facts == facts[..k] + [facts[k]];
    }
  }

  /** Facts belong to one group only. */
  lemma OneGroup(f: Facts, sources: seq<Source>, a: Key, b: Key)
    requires GoesTo(f, sources, a) && GoesTo(f, sources, b)
    ensures a == b
  {
  }

  ghost predicate Carries(plan: Plan, s: Source) {
    var d := DirectiveAt(plan, s.path);
    !d.mode.Untouched?
  }

  /** A group with messages and without conflict has exactly one source that carries them, all of them.
      `sorted` holds the facts in the order of the plan. */
  lemma OneCarrier(sources: seq<Source>, sorted: seq<Facts>, clock: Key -> int, plan: Plan, key: Key)
      returns (a: Source)
    requires DistinctPaths(sources) && key in Keys(sources) && PlannedFor(sources, sorted, clock, Keys(sources), plan)
    requires !Conflict(FactsFor(sorted, sources, key)) && HasMessages(FactsFor(sorted, sources, key))
    ensures a in sources && KeyOf(a) == key && Carries(plan, a)
    ensures forall s :: s in sources && KeyOf(s) == key && Carries(plan, s) ==> s == a
    ensures DirectiveAt(plan, a.path).counts == Counts(FactsFor(sorted, sources, key))
    ensures DirectiveAt(plan, a.path).distributions == Distributions(FactsFor(sorted, sources, key))
    ensures DirectiveAt(plan, a.path).mode.Append? <==> exists s :: s in sources && KeyOf(s) == key && s.batch
    ensures DirectiveAt(plan, a.path).mode.Synthesize? ==>
              forall s :: s in sources && KeyOf(s) == key && s.runtime == a.runtime && s.seqId.Some? ==>
                s.seqId.value < DirectiveAt(plan, a.path).mode.seqId
  {
    var g, fs := Group(sources, key), FactsFor(sorted, sources, key);
    GroupIs(sources, key);
    GroupNonEmpty(sources, key);
    forall s | s in g ensures Directed(g, fs, clock(key), s, DirectiveAt(plan, s.path)) {
      assert DirectiveFor(sources, sorted, clock, s, DirectiveAt(plan, s.path));
    }
    a := GroupCarrier(g, fs, clock(key), plan);
  }

  lemma GroupCarrier(g: seq<Source>, fs: seq<Facts>, timestamp: int, plan: Plan) returns (a: Source)
    requires g != [] && DistinctPaths(g) && !Conflict(fs) && HasMessages(fs)
    requires forall s :: s in g ==> Directed(g, fs, timestamp, s, DirectiveAt(plan, s.path))
    ensures a in g && Carries(plan, a) && forall s :: s in g && Carries(plan, s) ==> s == a
    ensures DirectiveAt(plan, a.path).counts == Counts(fs)
    ensures DirectiveAt(plan, a.path).distributions == Distributions(fs)
    ensures DirectiveAt(plan, a.path).mode.Append? <==> exists s :: s in g && s.batch
    ensures DirectiveAt(plan, a.path).mode.Synthesize? ==>
              forall s :: s in g && s.runtime == a.runtime && s.seqId.Some? ==>
                s.seqId.value < DirectiveAt(plan, a.path).mode.seqId
  {
    a := AnchorExists(g);
    forall s | s in g && Carries(plan, s) ensures s == a {
      AnchorUnique(g, s, a);
    }
    AnchorBatch(g, a);
    StreamIs(g, a.runtime);
    NextSeqIsAbove(Stream(g, a.runtime));
  }

  lemma AnchorBatch(g: seq<Source>, a: Source)
    requires IsAnchor(g, a)
    ensures a.batch <==> exists s :: s in g && s.batch
  {
    if s :| s in g && s.batch {
      var i :| 0 <= i < |g| && g[i] == s;
      assert AnyBatch(g);
    }
  }

  lemma {:induction false} AnchorExists(g: seq<Source>) returns (a: Source)
    requires g != []
    ensures IsAnchor(g, a)
  {
    if |g| == 1 {
      a := g[0];
      assert g[0] in g;
    } else {
      var k := |g| - 1;
      var b := AnchorExists(g[..k]);
      BestStep(g, k, b);
      a := if (g[k].batch && !b.batch) || (g[k].batch == b.batch && Less(b.path, g[k].path)) then g[k] else b;
      assert g[..k + 1] == g;
    }
  }

  lemma {:induction false} UsableAre(xs: seq<Fact>)
    ensures forall x :: x in Usable(xs) <==> x in xs && x.name != ""
  {
    if xs != [] {
      var k := |xs| - 1;
      UsableAre(xs[..k]);
      assert xs == xs[..k] + [xs[k]];
    }
  }

  lemma CollectedAppend(fs: seq<Facts>, kind: Kind)
    requires fs != []
    ensures Collected(fs, kind) == Collected(fs[..|fs| - 1], kind) + Usable(Records(fs[|fs| - 1], kind))
  {
  }

  lemma {:induction false} CollectedAre(fs: seq<Facts>, kind: Kind)
    ensures forall x :: x in Collected(fs, kind) <==> exists f :: f in fs && x in Usable(Records(f, kind))
  {
    if fs != [] {
      var k := |fs| - 1;
      CollectedAre(fs[..k], kind);
      CollectedAppend(fs, kind);
      assert fs == fs[..k] + [fs[k]];
      assert fs[k] in fs;
    }
  }

  datatype Kind = Count | Distribution

  function Carried(d: Directive, kind: Kind): seq<Fact> { if kind.Count? then d.counts else d.distributions }

  function Records(f: Facts, kind: Kind): seq<Fact> { if kind.Count? then f.counts else f.distributions }

  function Collected(fs: seq<Facts>, kind: Kind): seq<Fact> { if kind.Count? then Counts(fs) else Distributions(fs) }

  /** Every usable record of a facts file whose group has no conflict is carried by one source of that group. */
  lemma FactCarried(
    sources: seq<Source>, facts: seq<Facts>, clock: Key -> int, plan: Plan, key: Key, f: Facts, x: Fact, kind: Kind)
    returns (a: Source)
    requires DistinctPaths(sources) && key in Keys(sources)
    requires PlannedFor(sources, Sort(facts), clock, Keys(sources), plan)
    requires DistinctFacts(facts) && f in facts && GoesTo(f, sources, key) && x in Records(f, kind) && x.name != ""
    requires !Conflict(FactsFor(Sort(facts), sources, key))
    ensures a in sources && KeyOf(a) == key && x in Carried(DirectiveAt(plan, a.path), kind)
    ensures forall s :: s in sources && KeyOf(s) == key && s != a ==> Carried(DirectiveAt(plan, s.path), kind) == []
  {
    FactGrouped(sources, facts, key, f);
    FactCollected(FactsFor(Sort(facts), sources, key), f, x, kind);
    a := OneCarrier(sources, Sort(facts), clock, plan, key);
    forall s | s in sources && KeyOf(s) == key && s != a ensures Carried(DirectiveAt(plan, s.path), kind) == [] {
      NoCarrier(sources, Sort(facts), clock, plan, s, kind);
    }
  }

  /** Sorting and grouping keep every facts file. */
  lemma FactGrouped(sources: seq<Source>, facts: seq<Facts>, key: Key, f: Facts)
    requires DistinctFacts(facts) && f in facts && GoesTo(f, sources, key)
    ensures f in FactsFor(Sort(facts), sources, key)
  {
    SortKeeps(facts);
    assert f in multiset(Sort(facts));
    FactsForAre(Sort(facts), sources, key);
  }

  lemma FactCollected(fs: seq<Facts>, f: Facts, x: Fact, kind: Kind)
    requires f in fs && x in Records(f, kind) && x.name != ""
    ensures x in Collected(fs, kind) && HasMessages(fs)
  {
    UsableAre(Records(f, kind));
    CollectedAre(fs, kind);
  }

  lemma NoCarrier(sources: seq<Source>, sorted: seq<Facts>, clock: Key -> int, plan: Plan, s: Source, kind: Kind)
    requires PlannedFor(sources, sorted, clock, Keys(sources), plan) && s in sources && !Carries(plan, s)
    ensures Carried(DirectiveAt(plan, s.path), kind) == []
  {
    MemberKey(sources, s);
    assert DirectiveFor(sources, sorted, clock, s, DirectiveAt(plan, s.path));
  }

  // ---------------------------------------------------------------- the environment override

  /** Two facts files of the group name different environments. */
  ghost predicate Disagree(facts: seq<Facts>, sources: seq<Source>, key: Key) {
    exists f, h :: Names(facts, sources, key, f) && Names(facts, sources, key, h) && f.env != h.env
  }

  /** The facts file belongs to the group and names an environment. */
  ghost predicate Names(facts: seq<Facts>, sources: seq<Source>, key: Key, f: Facts) {
    f in facts && GoesTo(f, sources, key) && f.env != ""
  }

  lemma ConflictIs(facts: seq<Facts>, sources: seq<Source>, key: Key)
    requires DistinctFacts(facts)
    ensures Conflict(FactsFor(Sort(facts), sources, key)) <==> Disagree(facts, sources, key)
  {
    var fs := FactsFor(Sort(facts), sources, key);
    SortedGroup(facts, sources, key);
    forall f ensures Names(facts, sources, key, f) <==> f in fs && f.env != "" {}
    ConflictAmong(fs);
    if f, h :| f in fs && h in fs && f.env != "" && h.env != "" && f.env != h.env {
      assert Names(facts, sources, key, f) && Names(facts, sources, key, h);
    }
  }

  lemma ConflictAmong(fs: seq<Facts>)
    ensures Conflict(fs) <==> exists f, h :: f in fs && h in fs && f.env != "" && h.env != "" && f.env != h.env
  {
    if f, h :| f in fs && h in fs && f.env != "" && h.env != "" && f.env != h.env {
      var i :| 0 <= i < |fs| && fs[i] == f;
      var j :| 0 <= j < |fs| && fs[j] == h;
    }
  }

  lemma SortedGroup(facts: seq<Facts>, sources: seq<Source>, key: Key)
    requires DistinctFacts(facts)
    ensures forall f :: f in FactsFor(Sort(facts), sources, key) <==> f in facts && GoesTo(f, sources, key)
  {
    SortKeeps(facts);
    FactsForAre(Sort(facts), sources, key);
    forall f ensures f in Sort(facts) <==> f in facts {
      assert f in multiset(Sort(facts)) <==> f in multiset(facts);
    }
  }

  lemma {:induction false} EnvOfNamed(fs: seq<Facts>)
    ensures EnvOf(fs) == "" ==> forall f :: f in fs ==> f.env == ""
    ensures EnvOf(fs) != "" ==> exists f :: f in fs && f.env == EnvOf(fs)
  {
    if fs != [] {
      EnvOfNamed(fs[1..]);
      assert fs == [fs[0]] + fs[1..];
      assert fs[0] in fs;
    }
  }

  /** Without a conflict, the environment of a group is the one that all its facts files name, if any. */
  lemma EnvOfIs(fs: seq<Facts>, f: Facts)
    requires !Conflict(fs) && f in fs && f.env != ""
    ensures EnvOf(fs) == f.env
  {
    EnvOfNamed(fs);
    var i :| 0 <= i < |fs| && fs[i] == f;
    if EnvOf(fs) != "" {
      var g :| g in fs && g.env == EnvOf(fs);
      var j :| 0 <= j < |fs| && fs[j] == g;
    }
  }

  /** A source's environment is overridden exactly when its group's facts files name one and agree on it, and
      with that one. */
  lemma OverrideIs(sources: seq<Source>, facts: seq<Facts>, clock: Key -> int, plan: Plan, s: Source, env: string)
    requires DistinctFacts(facts) && PlannedFor(sources, Sort(facts), clock, Keys(sources), plan) && s in sources
    requires env != ""
    ensures DirectiveAt(plan, s.path).env == env <==>
            !Disagree(facts, sources, KeyOf(s)) && exists f :: Names(facts, sources, KeyOf(s), f) && f.env == env
  {
    var key := KeyOf(s);
    var fs := FactsFor(Sort(facts), sources, key);
    MemberKey(sources, s);
    assert DirectiveFor(sources, Sort(facts), clock, s, DirectiveAt(plan, s.path));
    ConflictIs(facts, sources, key);
    SortedGroup(facts, sources, key);
    EnvOfNamed(fs);
    if !Conflict(fs) {
      forall f | Names(facts, sources, key, f) ensures EnvOf(fs) == f.env { EnvOfIs(fs, f); }
      if EnvOf(fs) == env {
        var f :| f in fs && f.env == env;
        assert Names(facts, sources, key, f);
      }
    }
  }

  // ---------------------------------------------------------------- nothing lost, nothing doubled

  /** The records that the plan attaches to the sources with keys in `keys`, with multiplicity. */
  ghost function Attached(plan: Plan, sources: seq<Source>, keys: set<Key>, kind: Kind): multiset<Fact> {
    if sources == [] then multiset{}
    else
      var k := |sources| - 1;
      Attached(plan, sources[..k], keys, kind) +
      if KeyOf(sources[k]) in keys then multiset(Carried(DirectiveAt(plan, sources[k].path), kind)) else multiset{}
  }

  /** A facts file's usable records, when its group is in `keys` and agrees on the environment. */
  ghost function Share(f: Facts, facts: seq<Facts>, sources: seq<Source>, keys: set<Key>, kind: Kind): multiset<Fact> {
    if exists key :: key in keys && GoesTo(f, sources, key) && !Disagree(facts, sources, key)
    then multiset(Usable(Records(f, kind))) else multiset{}
  }

  ghost function Shares(facts: seq<Facts>, sources: seq<Source>, keys: set<Key>, kind: Kind): Facts -> multiset<Fact> {
    f => Share(f, facts, sources, keys, kind)
  }

  /** The shares of some facts files together, with multiplicity. */
  ghost function Sum(part: seq<Facts>, share: Facts -> multiset<Fact>): multiset<Fact> {
    if part == [] then multiset{} else Sum(part[..|part| - 1], share) + share(part[|part| - 1])
  }

  lemma {:induction false} SumAdd(part: seq<Facts>, a: Facts -> multiset<Fact>, b: Facts -> multiset<Fact>,
      c: Facts -> multiset<Fact>)
    requires forall f :: c(f) == a(f) + b(f)
    ensures Sum(part, c) == Sum(part, a) + Sum(part, b)
  {
    if part != [] { SumAdd(part[..|part| - 1], a, b, c); }
  }

  lemma {:induction false} SumNone(part: seq<Facts>, share: Facts -> multiset<Fact>)
    requires forall f :: share(f) == multiset{}
    ensures Sum(part, share) == multiset{}
  {
    if part != [] { SumNone(part[..|part| - 1], share); }
  }

  lemma {:induction false} SumCons(f: Facts, xs: seq<Facts>, share: Facts -> multiset<Fact>)
    ensures Sum([f] + xs, share) == share(f) + Sum(xs, share)
  {
    if xs != [] {
      var k := |xs| - 1;
      SumCons(f, xs[..k], share);
      assert ([f] + xs)[..k + 1] == [f] + xs[..k];
    } else {
      assert [f] + xs == [f] && [f][..0] == [];
    }
  }

  lemma {:induction false} SumInsert(xs: seq<Facts>, f: Facts, share: Facts -> multiset<Fact>)
    ensures Sum(Insert(xs, f), share) == Sum(xs, share) + share(f)
  {
    if xs == [] || Less(f.path, xs[0].path) {
      assert Insert(xs, f) == [f] + xs;
      SumCons(f, xs, share);
    } else {
      SumInsert(xs[1..], f, share);
      SumCons(xs[0], Insert(xs[1..], f), share);
      SumCons(xs[0], xs[1..], share);
      assert xs == [xs[0]] + xs[1..];
    }
  }

  lemma {:induction false} SumSort(part: seq<Facts>, share: Facts -> multiset<Fact>)
    ensures Sum(Sort(part), share) == Sum(part, share)
  {
    if part != [] {
      var k := |part| - 1;
      SumSort(part[..k], share);
      SumInsert(Sort(part[..k]), part[k], share);
    }
  }

  ghost predicate OncePerPath(sources: seq<Source>) {
    forall i, j :: 0 <= i < j < |sources| ==> sources[i].path != sources[j].path
  }

  lemma {:induction false} AttachedSplit(plan: Plan, sources: seq<Source>, keys: set<Key>, key: Key, kind: Kind)
    requires key !in keys
    ensures Attached(plan, sources, keys + {key}, kind) ==
            Attached(plan, sources, keys, kind) + Attached(plan, sources, {key}, kind)
  {
    if sources != [] { AttachedSplit(plan, sources[..|sources| - 1], keys, key, kind); }
  }

  lemma ShareSplit(f: Facts, facts: seq<Facts>, sources: seq<Source>, keys: set<Key>, key: Key, kind: Kind)
    requires key !in keys
    ensures Share(f, facts, sources, keys + {key}, kind) ==
            Share(f, facts, sources, keys, kind) + Share(f, facts, sources, {key}, kind)
  {
    if GoesTo(f, sources, key) {
      forall k | k in keys && GoesTo(f, sources, k) ensures false { OneGroup(f, sources, k, key); }
    }
  }

  lemma OnceLast(sources: seq<Source>)
    requires OncePerPath(sources) && sources != []
    ensures OncePerPath(sources[..|sources| - 1]) && sources[|sources| - 1] !in sources[..|sources| - 1]
    ensures forall s :: s in sources <==> s in sources[..|sources| - 1] || s == sources[|sources| - 1]
  {
    var k := |sources| - 1;
    assert sources == sources[..k] + [sources[k]];
  }

  /** A group whose only carrier is `a` has exactly a's records attached. */
  lemma {:induction false} AttachedOne(plan: Plan, sources: seq<Source>, key: Key, kind: Kind, a: Source)
    requires OncePerPath(sources)
    requires forall s :: s in sources && KeyOf(s) == key && s != a ==> Carried(DirectiveAt(plan, s.path), kind) == []
    ensures Attached(plan, sources, {key}, kind) ==
            if a in sources && KeyOf(a) == key then multiset(Carried(DirectiveAt(plan, a.path), kind)) else multiset{}
  {
    if sources != [] {
      OnceLast(sources);
      AttachedOne(plan, sources[..|sources| - 1], key, kind, a);
      AttachedStep(plan, sources, key, kind);
    }
  }

  lemma AttachedStep(plan: Plan, sources: seq<Source>, key: Key, kind: Kind)
    requires sources != []
    ensures var last := sources[|sources| - 1];
            Attached(plan, sources, {key}, kind) ==
            Attached(plan, sources[..|sources| - 1], {key}, kind) +
              if KeyOf(last) == key then multiset(Carried(DirectiveAt(plan, last.path), kind)) else multiset{}
  {
  }

  lemma {:induction false} SumOne(
    part: seq<Facts>, share: Facts -> multiset<Fact>, sources: seq<Source>, key: Key, kind: Kind)
    requires forall f :: share(f) == if GoesTo(f, sources, key) then multiset(Usable(Records(f, kind))) else multiset{}
    ensures Sum(part, share) == multiset(Collected(FactsFor(part, sources, key), kind))
  {
    if part != [] {
      var k := |part| - 1;
      SumOne(part[..k], share, sources, key, kind);
      var fs := FactsFor(part[..k], sources, key);
      if GoesTo(part[k], sources, key) {
        CollectedSnoc(fs, part[k], kind);
      } else {
        assert fs + [] == fs;
      }
    }
  }

  lemma CollectedSnoc(fs: seq<Facts>, f: Facts, kind: Kind)
    ensures multiset(Collected(fs + [f], kind)) == multiset(Collected(fs, kind)) + multiset(Usable(Records(f, kind)))
  {
    assert (fs + [f])[..|fs|] == fs;
    CollectedAppend(fs + [f], kind);
  }

  lemma {:induction false} AttachedNone(plan: Plan, sources: seq<Source>, kind: Kind)
    ensures Attached(plan, sources, {}, kind) == multiset{}
  {
    if sources != [] { AttachedNone(plan, sources[..|sources| - 1], kind); }
  }

  lemma GroupConserved(sources: seq<Source>, facts: seq<Facts>, clock: Key -> int, plan: Plan, key: Key, kind: Kind)
    requires OncePerPath(sources) && DistinctPaths(sources) && DistinctFacts(facts) && key in Keys(sources)
    requires PlannedFor(sources, Sort(facts), clock, Keys(sources), plan)
    ensures Attached(plan, sources, {key}, kind) == Sum(Sort(facts), Shares(facts, sources, {key}, kind))
  {
    var fs := FactsFor(Sort(facts), sources, key);
    ConflictIs(facts, sources, key);
    var share := Shares(facts, sources, {key}, kind);
    if Conflict(fs) {
      SumNone(Sort(facts), share);
    } else {
      SumOne(Sort(facts), share, sources, key, kind);
    }
    if !Conflict(fs) && HasMessages(fs) {
      var a := OneCarrier(sources, Sort(facts), clock, plan, key);
      forall s | s in sources && KeyOf(s) == key && s != a ensures Carried(DirectiveAt(plan, s.path), kind) == [] {
        NoCarrier(sources, Sort(facts), clock, plan, s, kind);
      }
      AttachedOne(plan, sources, key, kind, a);
    } else {
      SilentGroup(sources, facts, clock, plan, key, kind);
    }
  }

  lemma SilentGroup(sources: seq<Source>, facts: seq<Facts>, clock: Key -> int, plan: Plan, key: Key, kind: Kind)
    requires OncePerPath(sources) && key in Keys(sources)
    requires PlannedFor(sources, Sort(facts), clock, Keys(sources), plan)
    requires Conflict(FactsFor(Sort(facts), sources, key)) || !HasMessages(FactsFor(Sort(facts), sources, key))
    ensures Attached(plan, sources, {key}, kind) == multiset{}
  {
    forall s | s in sources && KeyOf(s) == key ensures Carried(DirectiveAt(plan, s.path), kind) == [] {
      assert DirectiveFor(sources, Sort(facts), clock, s, DirectiveAt(plan, s.path));
    }
    var a := sources[0];
    AttachedOne(plan, sources, key, kind, a);
  }

  lemma {:induction false} GroupsConserved(
    sources: seq<Source>, facts: seq<Facts>, clock: Key -> int, plan: Plan, keys: set<Key>, kind: Kind)
    requires OncePerPath(sources) && DistinctPaths(sources) && DistinctFacts(facts) && keys <= Keys(sources)
    requires PlannedFor(sources, Sort(facts), clock, Keys(sources), plan)
    ensures Attached(plan, sources, keys, kind) == Sum(Sort(facts), Shares(facts, sources, keys, kind))
    decreases keys
  {
    if keys == {} {
      AttachedNone(plan, sources, kind);
      SumNone(Sort(facts), Shares(facts, sources, keys, kind));
    } else {
      var key :| key in keys;
      var rest := keys - {key};
      assert keys == rest + {key};
      GroupsConserved(sources, facts, clock, plan, rest, kind);
      GroupConserved(sources, facts, clock, plan, key, kind);
      AttachedSplit(plan, sources, rest, key, kind);
      var one, others, all := Shares(facts, sources, {key}, kind), Shares(facts, sources, rest, kind),
        Shares(facts, sources, keys, kind);
      forall f ensures all(f) == others(f) + one(f) { ShareSplit(f, facts, sources, rest, key, kind); }
      SumAdd(Sort(facts), others, one, all);
    }
  }

  /** Over all sources the plan attaches, with multiplicity, exactly the usable records of the facts files whose
      group exists and agrees on the environment: none is lost, none is attached twice, none is made up. */
  lemma RecordsConserved(sources: seq<Source>, facts: seq<Facts>, clock: Key -> int, plan: Plan, kind: Kind)
    requires OncePerPath(sources) && DistinctFacts(facts)
    requires PlannedFor(sources, Sort(facts), clock, Keys(sources), plan)
    ensures Attached(plan, sources, Keys(sources), kind) == Sum(facts, Shares(facts, sources, Keys(sources), kind))
  {
    forall s, t | s in sources && t in sources && s.path == t.path ensures s == t {
      var i, j :| 0 <= i < |sources| && 0 <= j < |sources| && sources[i] == s && sources[j] == t;
    }
    GroupsConserved(sources, facts, clock, plan, Keys(sources), kind);
    SumSort(facts, Shares(facts, sources, Keys(sources), kind));
  }

  // ---------------------------------------------------------------- the plan does not depend on input order

  ghost predicate Sorted(xs: seq<Facts>) {
    forall i, j :: 0 <= i < j < |xs| ==> Less(xs[i].path, xs[j].path)
  }

  ghost predicate DistinctFacts(facts: seq<Facts>) {
    forall i, j :: 0 <= i < j < |facts| ==> facts[i].path != facts[j].path
  }

  lemma {:induction false} InsertKeeps(xs: seq<Facts>, f: Facts)
    requires Sorted(xs) && forall x :: x in xs ==> x.path != f.path
    ensures Sorted(Insert(xs, f)) && multiset(Insert(xs, f)) == multiset(xs) + multiset{f}
  {
    if xs == [] {
    } else if Less(f.path, xs[0].path) {
      forall j | 0 < j < |xs| ensures Less(f.path, xs[j].path) { LessTransitive(f.path, xs[0].path, xs[j].path); }
    } else {
      assert xs[0] in xs;
      LessTotal(f.path, xs[0].path);
      assert xs == [xs[0]] + xs[1..];
      InsertKeeps(xs[1..], f);
      var rest := Insert(xs[1..], f);
      forall j | 0 <= j < |rest| ensures Less(xs[0].path, rest[j].path) {
        assert rest[j] in multiset(rest);
        assert rest[j] == f || rest[j] in xs[1..];
      }
    }
  }

  lemma {:induction false} SortKeeps(facts: seq<Facts>)
    requires DistinctFacts(facts)
    ensures Sorted(Sort(facts)) && multiset(Sort(facts)) == multiset(facts)
  {
    if facts != [] {
      var k := |facts| - 1;
      SortKeeps(facts[..k]);
      assert facts == facts[..k] + [facts[k]];
      forall x | x in Sort(facts[..k]) ensures x.path != facts[k].path {
        assert x in multiset(facts[..k]);
        assert x in facts[..k];
        var i :| 0 <= i < k && facts[..k][i] == x;
      }
      InsertKeeps(Sort(facts[..k]), facts[k]);
    }
  }

  /** Sorting forgets the order of the input. */
  lemma {:induction false} SortedUnique(xs: seq<Facts>, ys: seq<Facts>)
    requires Sorted(xs) && Sorted(ys) && multiset(xs) == multiset(ys)
    ensures xs == ys
  {
    assert |xs| == |multiset(xs)| == |multiset(ys)| == |ys|;
    if xs != [] {
      FirstIsLeast(xs, ys);
      assert xs == [xs[0]] + xs[1..] && ys == [ys[0]] + ys[1..];
      assert multiset(xs[1..]) == multiset(xs) - multiset{xs[0]};
      assert multiset(ys[1..]) == multiset(ys) - multiset{ys[0]};
      SortedUnique(xs[1..], ys[1..]);
    }
  }

  lemma FirstIsLeast(xs: seq<Facts>, ys: seq<Facts>)
    requires Sorted(xs) && Sorted(ys) && multiset(xs) == multiset(ys) && xs != [] && ys != []
    ensures xs[0] == ys[0]
  {
    assert xs[0] in multiset(ys) && ys[0] in multiset(xs);
    var i :| 0 <= i < |ys| && ys[i] == xs[0];
    var j :| 0 <= j < |xs| && xs[j] == ys[0];
    if i > 0 && j > 0 { LessAsymmetric(ys[0].path, ys[i].path); }
  }

  ghost predicate SameMembers(a: seq<Source>, b: seq<Source>) {
    forall s :: s in a <==> s in b
  }

  lemma {:induction false} FirstLanguageIs(sources: seq<Source>, service: string)
    ensures FirstLanguage(sources, service).None? <==> forall s :: s in sources ==> s.service != service
    ensures FirstLanguage(sources, service).Some? ==>
            exists s :: s in sources && s.service == service && s.language == FirstLanguage(sources, service).value
  {
    if sources != [] {
      FirstLanguageIs(sources[1..], service);
      assert sources == [sources[0]] + sources[1..];
      assert sources[0] in sources;
    }
  }

  /** Facts go to the only language of their service, else to the one that their runtime names, if the service
      has it; without either, or without any source, they are left out. */
  lemma LanguageIs(f: Facts, sources: seq<Source>, language: string)
    ensures LanguageOf(f, sources) == Some(language) <==>
            && (exists s :: s in sources && s.service == f.service && s.language == language)
            && ((forall s :: s in sources && s.service == f.service ==> s.language == language) ||
                 language == f.runtime)
  {
    FirstLanguageIs(sources, f.service);
    var first := FirstLanguage(sources, f.service);
    if first.Some? { OnlyIs(sources, f.service, first.value); }
    SpeaksIs(sources, Key(f.service, f.runtime));
  }

  lemma SpeaksIs(sources: seq<Source>, key: Key)
    ensures Speaks(sources, key) <==> exists s :: s in sources && KeyOf(s) == key
  {
    if s :| s in sources && KeyOf(s) == key {
      var i :| 0 <= i < |sources| && sources[i] == s;
    }
  }

  lemma OnlyIs(sources: seq<Source>, service: string, language: string)
    ensures OnlyLanguage(sources, service, language) <==>
            forall s :: s in sources && s.service == service ==> s.language == language
  {
  }

  lemma SameLanguage(a: seq<Source>, b: seq<Source>, f: Facts)
    requires SameMembers(a, b)
    ensures LanguageOf(f, a) == LanguageOf(f, b)
  {
    FirstLanguageIs(a, f.service);
    FirstLanguageIs(b, f.service);
    var x, y := FirstLanguage(a, f.service), FirstLanguage(b, f.service);
    if x.Some? && y.Some? {
      OnlyIs(a, f.service, x.value);
      OnlyIs(b, f.service, x.value);
      OnlyIs(a, f.service, y.value);
      OnlyIs(b, f.service, y.value);
      SpeaksIs(a, Key(f.service, f.runtime));
      SpeaksIs(b, Key(f.service, f.runtime));
    }
  }

  lemma {:induction false} SameFactsFor(facts: seq<Facts>, a: seq<Source>, b: seq<Source>, key: Key)
    requires SameMembers(a, b)
    ensures FactsFor(facts, a, key) == FactsFor(facts, b, key)
  {
    if facts != [] {
      SameFactsFor(facts[..|facts| - 1], a, b, key);
      SameLanguage(a, b, facts[|facts| - 1]);
    }
  }

  lemma SameAnchor(g: seq<Source>, h: seq<Source>, a: Source)
    requires SameMembers(g, h)
    ensures IsAnchor(g, a) <==> IsAnchor(h, a)
  {
    AnchorBeats(g, a);
    AnchorBeats(h, a);
  }

  lemma SameNextSeq(g: seq<Source>, h: seq<Source>, runtime: string)
    requires SameMembers(g, h)
    ensures NextSeq(Stream(g, runtime)) == NextSeq(Stream(h, runtime))
  {
    StreamIs(g, runtime);
    StreamIs(h, runtime);
    NextSeqIsAbove(Stream(g, runtime));
    NextSeqIsAbove(Stream(h, runtime));
  }

  /** The same files in another order lead to the same plan. */
  lemma PlanOrderIndependent(a: seq<Source>, b: seq<Source>, f: seq<Facts>, h: seq<Facts>, clock: Key -> int,
      p: Plan, q: Plan, s: Source)
    requires multiset(a) == multiset(b) && multiset(f) == multiset(h) && DistinctPaths(a) && DistinctFacts(f)
    requires DistinctFacts(h)
    requires PlannedFor(a, Sort(f), clock, Keys(a), p) && PlannedFor(b, Sort(h), clock, Keys(b), q) && s in a
    ensures DirectiveAt(p, s.path) == DirectiveAt(q, s.path)
  {
    SameSort(f, h);
    forall x ensures x in a <==> x in b { assert x in multiset(a) <==> x in multiset(b); }
    var key := KeyOf(s);
    SameFactsFor(Sort(f), a, b, key);
    SameGroup(a, b, key);
    MemberKey(a, s);
    MemberKey(b, s);
    SameDirective(Group(a, key), Group(b, key), FactsFor(Sort(f), a, key), clock(key), s, DirectiveAt(p, s.path),
      DirectiveAt(q, s.path));
  }

  lemma SameSort(f: seq<Facts>, h: seq<Facts>)
    requires multiset(f) == multiset(h) && DistinctFacts(f) && DistinctFacts(h)
    ensures Sort(f) == Sort(h)
  {
    SortKeeps(f);
    SortKeeps(h);
    SortedUnique(Sort(f), Sort(h));
  }

  lemma SameGroup(a: seq<Source>, b: seq<Source>, key: Key)
    requires SameMembers(a, b)
    ensures SameMembers(Group(a, key), Group(b, key))
  {
    GroupIs(a, key);
    GroupIs(b, key);
  }

  lemma SameDirective(g: seq<Source>, h: seq<Source>, fs: seq<Facts>, timestamp: int, s: Source, d: Directive,
      e: Directive)
    requires SameMembers(g, h) && Directed(g, fs, timestamp, s, d) && Directed(h, fs, timestamp, s, e)
    ensures d == e
  {
    SameAnchor(g, h, s);
    SameNextSeq(g, h, s.runtime);
  }

  lemma MemberKey(sources: seq<Source>, s: Source)
    requires s in sources
    ensures KeyOf(s) in Keys(sources)
  {
    var i :| 0 <= i < |sources| && sources[i] == s;
  }
}
