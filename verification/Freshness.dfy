/** From build events to worker tasks: the freshness plan, the freshness filter, and the end-to-end
    guarantee that a cached output never reaches a worker. */
module Freshness {
  import B = BepFreshness
  import opened Counting
  import opened Discovery
  import opened Paths
  import opened ExpectedTargets
  import opened Wrappers

  type Pair = B.Pair

  /** `enabled` is true when BEP was selected as the freshness source. */
  datatype Plan = Plan(enabled: bool, eligible: set<Pair>, cached: set<Pair>, missing: set<string>,
      skipped: set<string>, blocked: set<string>, selectedKeys: set<string>)

  function Restrict(pairs: set<Pair>, expected: set<string>): set<Pair> {
    if expected == {} then pairs else set p | p in pairs && p.target in expected
  }

  function RestrictTargets(targets: set<string>, expected: set<string>): set<string> {
    if expected == {} then targets else targets * expected
  }

  /** Remote-only outputs of expected targets remain. */
  predicate RemoteLeft(remoteOnly: seq<B.RemoteOnly>, expected: set<string>) {
    exists i :: 0 <= i < |remoteOnly| && (expected == {} || remoteOnly[i].target in expected)
  }

  /** Without expected targets everything is in scope. */
  predicate InScope(target: string, expected: set<string>) { expected == {} || target in expected }

  /** `_build_plan`, when BEP was parsed; None is its refusal of remote-only outputs in a required mode. */
  method BuildPlan(
    bep: B.Freshness, enabled: bool, expected: set<string>, blocked: set<string>, selectedKeys: set<string>,
      refuseRemote: bool)
    returns (plan: Option<Plan>)
    ensures plan.None? <==> refuseRemote && RemoteLeft(bep.remoteOnly, expected)
    ensures plan.Some? ==> plan.value.enabled == enabled && plan.value.blocked == blocked
    ensures plan.Some? ==> plan.value.selectedKeys == selectedKeys
    ensures plan.Some? ==> forall p :: p in plan.value.eligible <==> p in bep.eligible && InScope(p.target, expected)
    ensures plan.Some? ==> forall p :: p in plan.value.cached <==> p in bep.totals.cached && InScope(p.target, expected)
    ensures plan.Some? ==> forall t :: t in plan.value.missing <==> t in bep.totals.missing && InScope(t, expected)
    ensures plan.Some? ==> forall t :: t in plan.value.skipped <==> t in bep.totals.skipped && InScope(t, expected)
  {
    if refuseRemote && RemoteLeft(bep.remoteOnly, expected) {
      return None;
    }
    var eligible, cached := Restrict(bep.eligible, expected), Restrict(bep.totals.cached, expected);
    plan := Some(Plan(enabled, eligible, cached, RestrictTargets(bep.totals.missing, expected),
      RestrictTargets(bep.totals.skipped, expected),
      blocked, selectedKeys));
  }

  // ---------------------------------------------------------------- the filter

  datatype Decision = NoTasks | Keep | Skip | Fail

  function FirstTarget(tasks: seq<Task>, key: string): Option<string> {
    if tasks == [] then None
    else if tasks[0].key == key && tasks[0].target.Some? then tasks[0].target
    else FirstTarget(tasks[1..], key)
  }

  predicate HasKey(tasks: seq<Task>, key: string) {
    exists i :: 0 <= i < |tasks| && tasks[i].key == key
  }

  predicate SameTargets(tasks: seq<Task>, key: string, target: Option<string>) {
    forall i :: 0 <= i < |tasks| && tasks[i].key == key && tasks[i].target.Some? ==> tasks[i].target == target
  }

  /** The label that speaks for an output: the only one its tasks carry, else the one in its metadata. */
  function LabelOf(tasks: seq<Task>, metadata: string -> Option<string>, key: string): Option<string> {
    var first := FirstTarget(tasks, key);
    if first.Some? && SameTargets(tasks, key, first) then first else metadata(key)
  }

  function Decide(plan: Plan, required: bool, tasks: seq<Task>, metadata: string -> Option<string>,
      key: string): Decision {
    if !HasKey(tasks, key) then NoTasks
    else
      var l := LabelOf(tasks, metadata, key);
      if l.Some? && l.value in plan.blocked then Skip
      else if !plan.enabled then Keep
      else if l.None? then if required then Fail else Skip
      else if B.Pair(l.value, key) in plan.eligible then Keep
      else Skip
  }

  datatype Outcome = Filtered(discovery: DiscoveryResult, skipped: set<string>) | MissingMetadata(key: string)

  function Stamp(t: Task, l: Option<string>): Task {
    t.(target := if t.target.Some? then t.target else l)
  }

  function KeptTasks(tasks: seq<Task>, keys: set<string>, labels: map<string, string>): seq<Task> {
    if tasks == [] then []
    else
      var t := tasks[|tasks| - 1];
      KeptTasks(tasks[..|tasks| - 1], keys, labels) + if t.key in keys then [Stamp(t, Lookup(labels, t.key))] else []
  }

  lemma {:induction false} KeptTasksAre(tasks: seq<Task>, keys: set<string>, labels: map<string, string>)
    ensures forall t :: t in KeptTasks(tasks, keys, labels) <==>
            exists u :: u in tasks && u.key in keys && t == Stamp(u, Lookup(labels, u.key))
  {
    if tasks != [] {
      var k := |tasks| - 1;
      KeptTasksAre(tasks[..k], keys, labels);
      assert tasks == tasks[..k] + [tasks[k]];
    }
  }

  ghost predicate FilterState(plan: Plan, required: bool, tasks: seq<Task>, metadata: string -> Option<string>,
      seen: seq<Output>,
      kept: seq<Output>, labels: map<string, string>, skipped: set<string>) {
    && (forall o :: o in kept <==> o in seen && Decide(plan, required, tasks, metadata, o.key) == Keep)
    && (forall k :: k in skipped <==>
         Decide(plan, required, tasks, metadata, k) == Skip && exists o :: o in seen && o.key == k)
    && (forall o :: o in seen ==> Decide(plan, required, tasks, metadata, o.key) != Fail)
    && (forall o :: o in seen && HasKey(tasks, o.key) ==> Lookup(labels, o.key) == LabelOf(tasks, metadata, o.key))
    && (forall k :: k in labels ==> LabelOf(tasks, metadata, k) == Some(labels[k]))
  }

  /** `filter_discovery_for_freshness`. */
  method FilterDiscovery(d: DiscoveryResult, plan: Plan, required: bool, metadata: string -> Option<string>)
      returns (r: Outcome)
    ensures r.MissingMetadata? <==>
            exists o :: o in d.outputs && Decide(plan, required, d.tasks, metadata, o.key) == Fail
    ensures r.Filtered? ==> FilteredFrom(d, plan, required, metadata, r.discovery, r.skipped)
  {
    var kept: seq<Output> := [];
    var labels: map<string, string> := map[];
    var skipped: set<string> := {};
    for i := 0 to |d.outputs|
      invariant FilterState(plan, required, d.tasks, metadata, d.outputs[..i], kept, labels, skipped)
    {
      var o := d.outputs[i];
      FilterStep(plan, required, d.tasks, metadata, d.outputs, i, kept, labels, skipped);
      if !HasKey(d.tasks, o.key) { continue; }
      var l := LabelOf(d.tasks, metadata, o.key);
      if l.Some? { labels := labels[o.key := l.value]; }
      if l.Some? && l.value in plan.blocked {
        skipped := skipped + {o.key};
      } else if !plan.enabled {
        kept := kept + [o];
      } else if l.None? {
        if required {
          assert o in d.outputs;
          return MissingMetadata(o.key);
        }
        skipped := skipped + {o.key};
      } else if B.Pair(l.value, o.key) in plan.eligible {
        kept := kept + [o];
      } else {
        skipped := skipped + {o.key};
      }
    }
    assert d.outputs[..|d.outputs|] == d.outputs;
    var keys := set o | o in kept :: o.key;
    var tasks := KeptTasks(d.tasks, keys, labels);
    FilterResult(d, plan, required, metadata, kept, labels, skipped, keys);
    r := Filtered(DiscoveryResult(kept, tasks), skipped);
  }

  lemma FilterStep(plan: Plan, required: bool, tasks: seq<Task>, metadata: string -> Option<string>,
      outputs: seq<Output>, i: nat,
      kept: seq<Output>, labels: map<string, string>, skipped: set<string>)
    requires i < |outputs| && FilterState(plan, required, tasks, metadata, outputs[..i], kept, labels, skipped)
    ensures var o, c := outputs[i], Decide(plan, required, tasks, metadata, outputs[i].key);
            var l := LabelOf(tasks, metadata, o.key);
            c != Fail ==>
              FilterState(plan, required, tasks, metadata, outputs[..i + 1], if c == Keep then kept + [o] else kept,
                          if c != NoTasks && l.Some? then labels[o.key := l.value] else labels,
                          if c == Skip then skipped + {o.key} else skipped)
  {
    assert outputs[..i + 1] == outputs[..i] + [outputs[i]];
  }

  /** The kept outputs are those decided so, and a task survives exactly when its output does, under the output's
      label. */
  ghost predicate FilteredFrom(d: DiscoveryResult, plan: Plan, required: bool, metadata: string -> Option<string>,
      d': DiscoveryResult, skipped: set<string>) {
    && (forall o :: o in d'.outputs <==> o in d.outputs && Decide(plan, required, d.tasks, metadata, o.key) == Keep)
    && (forall t :: t in d'.tasks <==>
         exists u :: u in d.tasks && OutputKept(d', u.key) && t == Stamp(u, LabelOf(d.tasks, metadata, u.key)))
    && (forall k :: k in skipped <==>
         Decide(plan, required, d.tasks, metadata, k) == Skip && exists o :: o in d.outputs && o.key == k)
  }

  ghost predicate OutputKept(d: DiscoveryResult, key: string) {
    exists o :: o in d.outputs && o.key == key
  }

  lemma FilterResult(d: DiscoveryResult, plan: Plan, required: bool, metadata: string -> Option<string>,
      kept: seq<Output>, labels: map<string, string>,
      skipped: set<string>, keys: set<string>)
    requires FilterState(plan, required, d.tasks, metadata, d.outputs, kept, labels, skipped)
    requires keys == set o | o in kept :: o.key
    ensures FilteredFrom(d, plan, required, metadata, DiscoveryResult(kept, KeptTasks(d.tasks, keys, labels)), skipped)
  {
    KeptTasksAre(d.tasks, keys, labels);
    var d' := DiscoveryResult(kept, KeptTasks(d.tasks, keys, labels));
    forall k ensures k in keys <==> OutputKept(d', k) {}
    forall k | k in keys ensures Lookup(labels, k) == LabelOf(d.tasks, metadata, k) {
      var o :| o in kept && o.key == k;
      assert HasKey(d.tasks, k);
    }
  }

  // ---------------------------------------------------------------- end to end

  /** Tasks of the same directory carry the same target. */
  ghost predicate Uniform(tasks: seq<Task>) {
    forall t, u :: t in tasks && u in tasks && t.key == u.key ==> t.target == u.target
  }

  lemma {:induction false} FirstTargetIs(tasks: seq<Task>, key: string)
    ensures FirstTarget(tasks, key).Some? ==>
            exists t :: t in tasks && t.key == key && t.target == FirstTarget(tasks, key)
    ensures FirstTarget(tasks, key).None? ==> forall t :: t in tasks && t.key == key ==> t.target.None?
  {
    if tasks != [] {
      FirstTargetIs(tasks[1..], key);
      assert tasks[0] in tasks;
    }
  }

  /** Where the tasks of a directory agree, the label that authorizes it is the one they end up with. */
  lemma StampIsLabel(tasks: seq<Task>, metadata: string -> Option<string>, u: Task)
    requires Uniform(tasks) && u in tasks
    ensures Stamp(u, LabelOf(tasks, metadata, u.key)).target == LabelOf(tasks, metadata, u.key)
  {
    FirstTargetIs(tasks, u.key);
    forall i | 0 <= i < |tasks| && tasks[i].key == u.key ensures tasks[i].target == u.target {
      assert tasks[i] in tasks;
    }
  }

  lemma DiscoveredUniform(roots: seq<Root>, selected: set<string>, d: DiscoveryResult)
    requires Discovered(roots, selected, d)
    ensures Uniform(d.tasks)
  {
    forall t | t in d.tasks ensures t.target.None? {
      var i :| 0 <= i < |d.tasks| && d.tasks[i] == t;
    }
  }

  lemma SelectedUniform(attempt: string -> bool, targets: seq<string>, d: DiscoveryResult, d': DiscoveryResult)
    requires SelectedFor(attempt, targets, d, d')
    ensures Uniform(d'.tasks)
  {
    forall t, u | t in d'.tasks && u in d'.tasks && t.key == u.key ensures t.target == u.target {
      assert GoesTo(attempt, targets, t.key, t.target.value) && GoesTo(attempt, targets, u.key, u.target.value);
    }
  }

  /** The task's output is authorized by its own label. */
  predicate Authorized(t: Task, eligible: set<Pair>, cached: set<Pair>, blocked: set<string>) {
    && t.target.Some? && B.Pair(t.target.value, t.key) in eligible && B.Pair(t.target.value, t.key) !in cached
    && t.target.value !in blocked
  }

  lemma FilteredAuthorized(d: DiscoveryResult, plan: Plan, required: bool, metadata: string -> Option<string>,
      d': DiscoveryResult, skipped: set<string>,
      cached: set<Pair>, t: Task)
    requires FilteredFrom(d, plan, required, metadata, d', skipped) && Uniform(d.tasks) && plan.enabled
    requires plan.eligible !! cached && t in d'.tasks
    ensures Authorized(t, plan.eligible, cached, plan.blocked)
  {
    var u :| u in d.tasks && OutputKept(d', u.key) && t == Stamp(u, LabelOf(d.tasks, metadata, u.key));
    StampIsLabel(d.tasks, metadata, u);
    var o :| o in d'.outputs && o.key == u.key;
    assert Decide(plan, required, d.tasks, metadata, o.key) == Keep;
  }

  /** The task's file lies in a staged directory. */
  ghost predicate FromStaging(roots: seq<Root>, t: Task) {
    exists o :: o in AllOutputs(roots) && o.staged && o.key == t.key && t.source in o.files
  }

  /** d' descends from d: its tasks are tasks of d, apart from their targets. */
  ghost predicate Descends(d: DiscoveryResult, d': DiscoveryResult) {
    forall t :: t in d'.tasks ==> exists u :: u in d.tasks && t.key == u.key && t.source == u.source
  }

  lemma FilteredDescends(d: DiscoveryResult, plan: Plan, required: bool, metadata: string -> Option<string>,
      d': DiscoveryResult, skipped: set<string>)
    requires FilteredFrom(d, plan, required, metadata, d', skipped)
    ensures Descends(d, d')
  {
  }

  datatype Invocation = Invocation(
    files: seq<B.File>,
    unavailableIsError: bool,
    staging: bool,
    mode: B.Mode,
    staged: set<Pair>,
    expected: seq<string>,
    required: bool,
    refuseRemote: bool,
    roots: seq<Root>,
    attempt: string -> bool,
    metadata: string -> Option<string>)

  datatype Prepared = Stopped | Ready(discovery: DiscoveryResult)

  function Blocked(inv: Invocation, totals: B.Totals): set<string> {
    if inv.staging then B.BlockedTargets(totals.references, inv.mode) else {}
  }

  function SelectedKeys(inv: Invocation, totals: B.Totals): set<string> {
    if inv.staging then set p | p in B.SelectedOutputs(totals.references, inv.mode) :: p.key else {}
  }

  function Eligible(inv: Invocation, totals: B.Totals): set<Pair> {
    totals.eligible + if inv.staging then inv.staged else {}
  }

  function Remaining(inv: Invocation, totals: B.Totals): seq<B.RemoteOnly> {
    if inv.staging then B.Unstaged(totals.remoteOnly, inv.staged) else totals.remoteOnly
  }

  // ---------------------------------------------------------------- what an invocation passes on

  /** The directory stands for its key. */
  predicate Chosen(inv: Invocation, selected: set<string>, o: Output) {
    Choice(AllOutputs(inv.roots), selected, o.key) == Some(o)
  }

  /** The file belongs to o: no chosen directory with a smaller key shows it. */
  ghost predicate Owns(inv: Invocation, selected: set<string>, o: Output, source: string) {
    source in o.files && forall p :: Chosen(inv, selected, p) && Less(p.key, o.key) ==> source !in p.files
  }

  ghost predicate OwnsSome(inv: Invocation, selected: set<string>, o: Output) {
    exists x :: Owns(inv, selected, o, x)
  }

  /** The label that speaks for a directory: its expected target, or the one in its metadata where none is expected. */
  ghost predicate Speaks(inv: Invocation, key: string, name: string) {
    if inv.expected == [] then inv.metadata(key) == Some(name) else GoesTo(inv.attempt, inv.expected, key, name)
  }

  ghost predicate Passes(inv: Invocation, totals: B.Totals, o: Output, name: string) {
    && Chosen(inv, SelectedKeys(inv, totals), o) && OwnsSome(inv, SelectedKeys(inv, totals), o)
    && Speaks(inv, o.key, name) && name !in Blocked(inv, totals) && B.Pair(name, o.key) in Eligible(inv, totals)
  }

  /** Exactly the chosen directories with an authorizing label are passed on, each with exactly its own files. */
  ghost predicate PassedOn(inv: Invocation, totals: B.Totals, d: DiscoveryResult) {
    && (forall o :: o in d.outputs <==> exists l :: Passes(inv, totals, o, l))
    && (forall key, x :: HasSource(d.tasks, key, x) <==>
          exists o :: o in d.outputs && o.key == key && Owns(inv, SelectedKeys(inv, totals), o, x))
  }

  ghost predicate HasSource(tasks: seq<Task>, key: string, source: string) {
    exists t :: t in tasks && t.key == key && t.source == source
  }

  /** Staged pairs contradict cached ones, refused remote-only outputs remain, a directory has two most specific
      targets, or required metadata is missing. */
  ghost predicate Stops(inv: Invocation, totals: B.Totals) {
    || (inv.staging && !(inv.staged !! totals.cached))
    || (inv.refuseRemote && RemoteLeft(Remaining(inv, totals), set t | t in inv.expected))
    || Fails(inv, SelectedKeys(inv, totals))
  }

  ghost predicate Fails(inv: Invocation, selected: set<string>) {
    || (exists o :: Chosen(inv, selected, o) && Tied(inv.attempt, inv.expected, o.key))
    || (inv.required && inv.expected == [] &&
        exists o :: Chosen(inv, selected, o) && OwnsSome(inv, selected, o) && inv.metadata(o.key).None?)
  }

  // ---------------------------------------------------------------- relating the three stages to it

  lemma OwnsIs(inv: Invocation, selected: set<string>, d: DiscoveryResult, o: Output, x: string)
    requires Discovered(inv.roots, selected, d) && o in d.outputs
    ensures Owns(inv, selected, o, x) <==> ShownUnder(d.outputs, o.key, x)
  {
    var i :| 0 <= i < |d.outputs| && d.outputs[i] == o;
    forall j | 0 <= j < |d.outputs| && d.outputs[j].key == o.key ensures j == i {
      LessIrreflexive(o.key);
    }
    forall j | 0 <= j < |d.outputs| ensures Less(d.outputs[j].key, o.key) <==> j < i {
      LessIrreflexive(o.key);
      if i < j { LessAsymmetric(o.key, d.outputs[j].key); }
    }
    if x in o.files && !ShownBefore(d.outputs, i, x) {
      forall p | Chosen(inv, selected, p) && Less(p.key, o.key) ensures x !in p.files {
        assert p in d.outputs;
        var j :| 0 <= j < |d.outputs| && d.outputs[j] == p;
      }
    }
    if Owns(inv, selected, o, x) {
      forall j | 0 <= j < i ensures x !in d.outputs[j].files { assert d.outputs[j] in d.outputs; }
    }
  }

  lemma OwnsTask(inv: Invocation, selected: set<string>, d: DiscoveryResult, o: Output, x: string)
    requires Discovered(inv.roots, selected, d) && o in d.outputs
    ensures Owns(inv, selected, o, x) <==> HasSource(d.tasks, o.key, x)
  {
    OwnsIs(inv, selected, d, o, x);
    TaskUnderFirst(d.outputs, d.tasks, o.key, x);
  }

  /** What the restriction to expected targets leaves of the discovery. */
  ghost predicate Narrowed(inv: Invocation, d: DiscoveryResult, d': DiscoveryResult) {
    if inv.expected == [] then d' == d else SelectedFor(inv.attempt, inv.expected, d, d')
  }

  lemma NarrowedSources(inv: Invocation, selected: set<string>, d: DiscoveryResult, d': DiscoveryResult, o: Output,
      x: string)
    requires Discovered(inv.roots, selected, d) && Narrowed(inv, d, d') && o in d'.outputs
    ensures o in d.outputs && (Owns(inv, selected, o, x) <==> HasSource(d'.tasks, o.key, x))
  {
    OwnsTask(inv, selected, d, o, x);
    if inv.expected != [] && HasSource(d.tasks, o.key, x) {
      var u :| u in d.tasks && u.key == o.key && u.source == x;
      var t :| GoesTo(inv.attempt, inv.expected, o.key, t);
      assert HasOutput(d, u.key) && u.(target := Some(t)) in d'.tasks;
    }
  }

  lemma HasKeyIs(tasks: seq<Task>, key: string)
    ensures HasKey(tasks, key) <==> exists x :: HasSource(tasks, key, x)
  {
    if HasKey(tasks, key) {
      var i :| 0 <= i < |tasks| && tasks[i].key == key;
      assert tasks[i] in tasks && HasSource(tasks, key, tasks[i].source);
    }
  }

  lemma NarrowedKey(inv: Invocation, selected: set<string>, d: DiscoveryResult, d': DiscoveryResult, o: Output)
    requires Discovered(inv.roots, selected, d) && Narrowed(inv, d, d') && o in d'.outputs
    ensures HasKey(d'.tasks, o.key) <==> OwnsSome(inv, selected, o)
  {
    HasKeyIs(d'.tasks, o.key);
    forall x ensures Owns(inv, selected, o, x) <==> HasSource(d'.tasks, o.key, x) {
      NarrowedSources(inv, selected, d, d', o, x);
    }
  }

  /** The filter looks up exactly the label that speaks for the directory. */
  lemma NarrowedLabel(inv: Invocation, selected: set<string>, d: DiscoveryResult, d': DiscoveryResult, key: string)
    requires Discovered(inv.roots, selected, d) && Narrowed(inv, d, d') && HasKey(d'.tasks, key)
    ensures var l := LabelOf(d'.tasks, inv.metadata, key);
            && (forall name :: Speaks(inv, key, name) <==> l == Some(name))
            && (inv.expected != [] ==> l.Some?)
  {
    FirstTargetIs(d'.tasks, key);
    var i :| 0 <= i < |d'.tasks| && d'.tasks[i].key == key;
    assert d'.tasks[i] in d'.tasks;
    if inv.expected == [] {
      DiscoveredUniform(inv.roots, selected, d);
    } else {
      var first := FirstTarget(d'.tasks, key);
      forall j | 0 <= j < |d'.tasks| && d'.tasks[j].key == key ensures d'.tasks[j].target == first {
        assert d'.tasks[j] in d'.tasks;
      }
    }
  }

  ghost predicate PlanFor(inv: Invocation, totals: B.Totals, plan: Plan) {
    && plan.enabled && plan.blocked == Blocked(inv, totals) && plan.selectedKeys == SelectedKeys(inv, totals)
    && forall p :: p in plan.eligible <==> p in Eligible(inv, totals) && InScope(p.target, set t | t in inv.expected)
  }

  lemma DecidedKeep(inv: Invocation, totals: B.Totals, plan: Plan, d: DiscoveryResult, d': DiscoveryResult, o: Output)
    requires Discovered(inv.roots, plan.selectedKeys, d) && Narrowed(inv, d, d') && PlanFor(inv, totals, plan)
    requires o in d'.outputs
    ensures Decide(plan, inv.required, d'.tasks, inv.metadata, o.key) == Keep <==> exists l :: Passes(inv, totals, o, l)
  {
    NarrowedKey(inv, plan.selectedKeys, d, d', o);
    assert o in d.outputs && Chosen(inv, plan.selectedKeys, o);
    if HasKey(d'.tasks, o.key) {
      NarrowedLabel(inv, plan.selectedKeys, d, d', o.key);
      var l := LabelOf(d'.tasks, inv.metadata, o.key);
      if l.Some? {
        assert inv.expected == [] ==> (set t | t in inv.expected) == {};
        assert Passes(inv, totals, o, l.value) <==> Decide(plan, inv.required, d'.tasks, inv.metadata, o.key) == Keep;
      }
    }
  }

  lemma DecidedFail(inv: Invocation, totals: B.Totals, plan: Plan, d: DiscoveryResult, d': DiscoveryResult, o: Output)
    requires Discovered(inv.roots, plan.selectedKeys, d) && Narrowed(inv, d, d') && plan.enabled && o in d'.outputs
    ensures Decide(plan, inv.required, d'.tasks, inv.metadata, o.key) == Fail <==>
            inv.required && inv.expected == [] && OwnsSome(inv, plan.selectedKeys, o) && inv.metadata(o.key).None?
  {
    NarrowedKey(inv, plan.selectedKeys, d, d', o);
    if HasKey(d'.tasks, o.key) {
      NarrowedLabel(inv, plan.selectedKeys, d, d', o.key);
      var l := LabelOf(d'.tasks, inv.metadata, o.key);
      if l.Some? { assert Speaks(inv, o.key, l.value); }
    }
  }

  lemma PassesStays(inv: Invocation, totals: B.Totals, d: DiscoveryResult, d': DiscoveryResult, o: Output, l: string)
    requires Discovered(inv.roots, SelectedKeys(inv, totals), d) && Narrowed(inv, d, d') && Passes(inv, totals, o, l)
    ensures o in d'.outputs
  {
  }

  lemma FilteredIs(inv: Invocation, totals: B.Totals, plan: Plan, d: DiscoveryResult, d': DiscoveryResult,
                   filtered: DiscoveryResult, skipped: set<string>)
    requires Discovered(inv.roots, plan.selectedKeys, d) && Narrowed(inv, d, d') && PlanFor(inv, totals, plan)
    requires FilteredFrom(d', plan, inv.required, inv.metadata, filtered, skipped)
    ensures PassedOn(inv, totals, filtered)
  {
    forall o ensures o in filtered.outputs <==> exists l :: Passes(inv, totals, o, l) {
      if o in d'.outputs { DecidedKeep(inv, totals, plan, d, d', o); }
      if l :| Passes(inv, totals, o, l) { PassesStays(inv, totals, d, d', o, l); }
    }
    forall key, x
      ensures HasSource(filtered.tasks, key, x) <==>
              exists o :: o in filtered.outputs && o.key == key && Owns(inv, plan.selectedKeys, o, x)
    {
      FilteredSource(inv, plan, d, d', filtered, skipped, key, x);
    }
  }

  lemma FilteredSource(inv: Invocation, plan: Plan, d: DiscoveryResult, d': DiscoveryResult, filtered: DiscoveryResult,
                       skipped: set<string>, key: string, x: string)
    requires Discovered(inv.roots, plan.selectedKeys, d) && Narrowed(inv, d, d')
    requires FilteredFrom(d', plan, inv.required, inv.metadata, filtered, skipped)
    ensures HasSource(filtered.tasks, key, x) <==>
            exists o :: o in filtered.outputs && o.key == key && Owns(inv, plan.selectedKeys, o, x)
  {
    if t :| t in filtered.tasks && t.key == key && t.source == x {
      var u :| u in d'.tasks && OutputKept(filtered, u.key) && t == Stamp(u, LabelOf(d'.tasks, inv.metadata, u.key));
      var o :| o in filtered.outputs && o.key == key;
      NarrowedSources(inv, plan.selectedKeys, d, d', o, x);
    }
    if o :| o in filtered.outputs && o.key == key && Owns(inv, plan.selectedKeys, o, x) {
      NarrowedSources(inv, plan.selectedKeys, d, d', o, x);
      var u :| u in d'.tasks && u.key == key && u.source == x;
      assert OutputKept(filtered, key) && Stamp(u, LabelOf(d'.tasks, inv.metadata, u.key)) in filtered.tasks;
    }
  }

  // ---------------------------------------------------------------- said of the build events

  function EventsOf(inv: Invocation): seq<B.Event> { B.FileEvents(inv.files) }

  /** In download mode, an event shows an uncached output of the target that looks like test outputs but maps to no
      directory: its local files may be stale. */
  ghost predicate Withheld(inv: Invocation, name: string) {
    inv.staging && inv.mode.Download? && exists r, o :: B.Unplaced(EventsOf(inv), name, r, o)
  }

  /** An event shows the output fresh, with nothing remote that counts, or it was staged. */
  ghost predicate Vouched(inv: Invocation, x: Pair) {
    || (exists r, o ::
         B.Shows(EventsOf(inv), x.target, r, o) && o.key == x.key != "" && B.Uncached(r) && B.NothingRemote(r))
    || (inv.staging && x in inv.staged)
  }

  ghost predicate SeenCached(inv: Invocation, x: Pair) {
    exists r, o :: B.Shows(EventsOf(inv), x.target, r, o) && o.key == x.key != "" && !B.Uncached(r)
  }

  /** Some event shows an output of that key that can be staged: its local directory must not stand in. */
  ghost predicate MustBeStaged(inv: Invocation, key: string) {
    inv.staging && exists x: Pair :: x.key == key && CarriedBy(inv, x)
  }

  ghost predicate CarriedBy(inv: Invocation, x: Pair) { exists r, o :: B.Carrier(EventsOf(inv), inv.mode, x, r, o) }

  /** A remote-only output of an expected target was not staged. */
  ghost predicate StaysRemote(inv: Invocation, x: B.RemoteOnly) {
    && (exists r, o, c :: B.RemoteFrom(EventsOf(inv), x, r, o, c))
    && (inv.staging ==> B.Pair(x.target, x.key) !in inv.staged) && (inv.expected == [] || x.target in inv.expected)
  }

  /** The sets that the invocation computes, said of the events. */
  lemma ContextMeans(inv: Invocation, totals: B.Totals, x: Pair)
    requires B.Parse(inv.files, inv.unavailableIsError) == B.Fresh(totals)
    ensures x.target in Blocked(inv, totals) <==> Withheld(inv, x.target)
    ensures x in Eligible(inv, totals) <==> Vouched(inv, x)
    ensures x in totals.cached <==> SeenCached(inv, x)
    ensures x.key in SelectedKeys(inv, totals) <==> MustBeStaged(inv, x.key)
    ensures RemoteLeft(Remaining(inv, totals), set t | t in inv.expected) <==> exists y :: StaysRemote(inv, y)
  {
    B.BlockedMeans(EventsOf(inv), inv.mode, x.target);
    B.EligibleMeans(EventsOf(inv), x);
    B.CachedMeans(EventsOf(inv), x);
    SelectedMeans(inv, totals, x.key);
    RemainingMeans(inv, totals);
  }

  lemma SelectedMeans(inv: Invocation, totals: B.Totals, key: string)
    requires totals == B.Total(EventsOf(inv))
    ensures key in SelectedKeys(inv, totals) <==> MustBeStaged(inv, key)
  {
    var pairs := B.SelectedOutputs(totals.references, inv.mode);
    forall y ensures y in pairs <==> CarriedBy(inv, y) { B.SelectedMeans(EventsOf(inv), inv.mode, y); }
  }

  lemma RemainingMeans(inv: Invocation, totals: B.Totals)
    requires totals == B.Total(EventsOf(inv))
    ensures RemoteLeft(Remaining(inv, totals), set t | t in inv.expected) <==> exists y :: StaysRemote(inv, y)
  {
    var rest, expected := Remaining(inv, totals), set t | t in inv.expected;
    assert expected == {} <==> inv.expected == [] by {
      if inv.expected != [] { assert inv.expected[0] in expected; }
    }
    if inv.staging { B.UnstagedAre(totals.remoteOnly, inv.staged); }
    forall y ensures y in rest && (expected == {} || y.target in expected) <==> StaysRemote(inv, y) {
      B.RemoteMeans(EventsOf(inv), y);
    }
    if RemoteLeft(rest, expected) {
      var i :| 0 <= i < |rest| && (expected == {} || rest[i].target in expected);
      assert StaysRemote(inv, rest[i]);
    }
    if y :| StaysRemote(inv, y) {
      var i :| 0 <= i < |rest| && rest[i] == y;
    }
  }

  /** What every task that is passed on may rely on: its label was not withheld, some event or staging vouches for
      its output, none reports it cached, and it reads staged files where it must. */
  ghost predicate Sound(inv: Invocation, t: Task) {
    && t.target.Some? && !Withheld(inv, t.target.value)
    && Vouched(inv, B.Pair(t.target.value, t.key)) && !SeenCached(inv, B.Pair(t.target.value, t.key))
    && (MustBeStaged(inv, t.key) ==> FromStaging(inv.roots, t))
  }

  lemma AuthorizedSound(inv: Invocation, totals: B.Totals, t: Task)
    requires B.Parse(inv.files, inv.unavailableIsError) == B.Fresh(totals)
    requires Authorized(t, Eligible(inv, totals), totals.cached, Blocked(inv, totals))
    requires t.key in SelectedKeys(inv, totals) ==> FromStaging(inv.roots, t)
    ensures Sound(inv, t)
  {
    ContextMeans(inv, totals, B.Pair(t.target.value, t.key));
  }

  // ---------------------------------------------------------------- the whole way

  /** One invocation with BEP as its freshness source: parse, stage, plan, discover, restrict to the expected
      targets, filter. It passes on exactly the authorized directories with their own files: no task reads a
      cached output or one of a blocked target, and none falls back from a selected staged artifact to a local
      file. */
  method PrepareTasks(inv: Invocation) returns (r: Prepared)
    requires Distinct(inv.expected)
    ensures var parsed := B.Parse(inv.files, inv.unavailableIsError);
            r.Ready? <==> parsed.Fresh? && !Stops(inv, parsed.totals)
    ensures r.Ready? ==>
              var totals := B.Parse(inv.files, inv.unavailableIsError).totals;
              && PassedOn(inv, totals, r.discovery)
              && (forall t :: t in r.discovery.tasks ==>
                    && Authorized(t, Eligible(inv, totals), totals.cached, Blocked(inv, totals))
                    && (t.key in SelectedKeys(inv, totals) ==> FromStaging(inv.roots, t)))
    ensures r.Ready? ==> forall t :: t in r.discovery.tasks ==> Sound(inv, t)
  {
    var parsed := B.ParseBepFreshness(inv.files, inv.unavailableIsError);
    if !parsed.Fresh? { return Stopped; }
    var totals := parsed.totals;
    var bep := new B.Freshness(totals);
    if inv.staging {
      var ok := bep.ApplyStaged(inv.staged);
      if !ok { return Stopped; }
    }
    assert bep.eligible == Eligible(inv, totals) && bep.eligible !! totals.cached;
    var plan := BuildPlan(bep, true, (set t | t in inv.expected), Blocked(inv, totals), SelectedKeys(inv, totals),
      inv.refuseRemote);
    if plan.None? { return Stopped; }
    r := SelectTasks(inv, totals, plan.value);
    if r.Ready? {
      forall t | t in r.discovery.tasks ensures Sound(inv, t) { AuthorizedSound(inv, totals, t); }
    }
  }

  /** Tasks of selected keys read staged files only. */
  ghost predicate StagedWhereSelected(roots: seq<Root>, selected: set<string>, d: DiscoveryResult) {
    forall t :: t in d.tasks && t.key in selected ==> FromStaging(roots, t)
  }

  method SelectTasks(inv: Invocation, ghost totals: B.Totals, plan: Plan) returns (r: Prepared)
    requires Distinct(inv.expected) && PlanFor(inv, totals, plan) && Eligible(inv, totals) !! totals.cached
    ensures r.Ready? <==> !Fails(inv, plan.selectedKeys)
    ensures r.Ready? ==>
            PassedOn(inv, totals, r.discovery) && StagedWhereSelected(inv.roots, plan.selectedKeys, r.discovery)
    ensures r.Ready? ==>
              forall t :: t in r.discovery.tasks ==> Authorized(t, Eligible(inv, totals), totals.cached, plan.blocked)
  {
    var selection, d := DiscoverExpected(inv, plan.selectedKeys);
    if selection.Refused? { return Stopped; }
    var d' := selection.discovery;
    var outcome := FilterDiscovery(d', plan, inv.required, inv.metadata);
    FailsIs(inv, totals, plan, d, d');
    if outcome.MissingMetadata? { return Stopped; }
    FilteredIs(inv, totals, plan, d, d', outcome.discovery, outcome.skipped);
    FilteredDescends(d', plan, inv.required, inv.metadata, outcome.discovery, outcome.skipped);
    StagedDescends(inv.roots, plan.selectedKeys, d', outcome.discovery);
    forall t | t in outcome.discovery.tasks ensures Authorized(t, plan.eligible, totals.cached, plan.blocked) {
      FilteredAuthorized(d', plan, inv.required, inv.metadata, outcome.discovery, outcome.skipped, totals.cached, t);
    }
    r := Ready(outcome.discovery);
  }

  lemma FailsIs(inv: Invocation, totals: B.Totals, plan: Plan, d: DiscoveryResult, d': DiscoveryResult)
    requires Discovered(inv.roots, plan.selectedKeys, d) && Narrowed(inv, d, d') && PlanFor(inv, totals, plan)
    requires !HasTie(inv.attempt, inv.expected, d.outputs)
    ensures Fails(inv, plan.selectedKeys) <==>
            exists o :: o in d'.outputs && Decide(plan, inv.required, d'.tasks, inv.metadata, o.key) == Fail
  {
    forall o | o in d'.outputs { DecidedFail(inv, totals, plan, d, d', o); }
    forall o ensures Chosen(inv, plan.selectedKeys, o) <==> o in d.outputs {}
  }

  method DiscoverExpected(inv: Invocation, selected: set<string>) returns (r: Selection, ghost d: DiscoveryResult)
    requires Distinct(inv.expected)
    ensures Discovered(inv.roots, selected, d) && (r.Refused? <==> HasTie(inv.attempt, inv.expected, d.outputs))
    ensures r.Refused? ==> Fails(inv, selected)
    ensures r.Selected? ==> Narrowed(inv, d, r.discovery) && Uniform(r.discovery.tasks)
    ensures r.Selected? ==> StagedWhereSelected(inv.roots, selected, r.discovery)
  {
    var found := DiscoverFileTasks(inv.roots, selected);
    d := found;
    DiscoveredUniform(inv.roots, selected, d);
    forall t | t in d.tasks && t.key in selected ensures FromStaging(inv.roots, t) {
      SelectedKeysAreStaged(inv.roots, selected, d, t);
    }
    r := SelectExpectedOutputs(found, inv.attempt, inv.expected, true);
    if r.Selected? && inv.expected != [] {
      SelectedUniform(inv.attempt, inv.expected, d, r.discovery);
      StagedDescends(inv.roots, selected, d, r.discovery);
    }
  }

  lemma StagedDescends(roots: seq<Root>, selected: set<string>, d: DiscoveryResult, d': DiscoveryResult)
    requires StagedWhereSelected(roots, selected, d) && Descends(d, d')
    ensures StagedWhereSelected(roots, selected, d')
  {
    forall t | t in d'.tasks && t.key in selected ensures FromStaging(roots, t) {
      var u :| u in d.tasks && t.key == u.key && t.source == u.source;
      assert FromStaging(roots, u);
    }
  }
}
