/** Which expected Bazel target each discovered test.outputs directory belongs to. */
module ExpectedTargets {
  import opened Counting
  import opened Paths
  import opened Discovery
  import opened Wrappers

  datatype Error = AmbiguousOutput(key: string) | MissingTargets

  datatype Selection = Selected(discovery: DiscoveryResult) | Refused(error: Error)

  // ---------------------------------------------------------------- paths of targets and outputs

  /** The position of the first colon, or |s|. */
  function Colon(s: string): (i: nat)
    ensures i <= |s|
  {
    if s == "" then 0 else if s[0] == ':' then 0 else 1 + Colon(s[1..])
  }

  /** `//package:name` as path components. */
  function TargetParts(target: string): seq<string> {
    var body := if |target| >= 2 then target[2..] else "";
    var i := Colon(body);
    Components(Split(body[..i])) + Split(if i < |body| then body[i + 1..] else "")
  }

  function Slashes(s: string): string {
    seq(|s|, i requires 0 <= i < |s| => if s[i] == '\\' then '/' else s[i])
  }

  function WithoutDots(parts: seq<string>): seq<string> {
    if parts == [] then []
    else WithoutDots(parts[..|parts| - 1]) + if parts[|parts| - 1] == "." then [] else [parts[|parts| - 1]]
  }

  /** `PurePosixPath(key).parts`. */
  function OutputParts(key: string): seq<string> {
    var s := Slashes(key);
    (if s != "" && s[0] == '/' then ["/"] else []) + WithoutDots(Components(Split(s)))
  }

  /** `attempt` recognizes the directories of shards, runs and attempts. */
  predicate Belongs(attempt: string -> bool, key: string, target: string) {
    var expected, parts := TargetParts(target), OutputParts(key);
    && parts != [] && parts[|parts| - 1] == "test.outputs"
    && expected <= parts
    && forall i :: |expected| <= i < |parts| - 1 ==> attempt(parts[i])
  }

  /** Path segments, joined by slashes. */
  function Joined(parts: seq<string>): string {
    if parts == [] then "" else if |parts| == 1 then parts[0] else parts[0] + ("/" + Joined(parts[1..]))
  }

  /** A plain directory or file name. */
  predicate Segment(s: string) {
    s != "" && s != "." && forall i :: 0 <= i < |s| ==> s[i] != '/' && s[i] != '\\' && s[i] != ':'
  }

  ghost predicate Segments(parts: seq<string>) { forall i :: 0 <= i < |parts| ==> Segment(parts[i]) }

  lemma {:induction false} SplitJoined(parts: seq<string>)
    requires Segments(parts) && parts != []
    ensures Split(Joined(parts)) == parts
  {
    if |parts| == 1 {
      SplitToken(parts[0], "");
    } else {
      SplitJoined(parts[1..]);
      SplitToken(parts[0], Joined(parts[1..]));
      assert parts == [parts[0]] + parts[1..];
    }
  }

  lemma {:induction false} AllComponents(parts: seq<string>)
    requires Segments(parts)
    ensures Components(parts) == parts && WithoutDots(parts) == parts
  {
    if parts != [] {
      AllComponents(parts[..|parts| - 1]);
      assert parts == parts[..|parts| - 1] + [parts[|parts| - 1]];
    }
  }

  lemma {:induction false} JoinedPlain(parts: seq<string>)
    requires Segments(parts)
    ensures forall i :: 0 <= i < |Joined(parts)| ==> Joined(parts)[i] != '\\' && Joined(parts)[i] != ':'
    ensures parts != [] ==> Joined(parts) != "" && Joined(parts)[0] != '/'
  {
    if |parts| > 1 { JoinedPlain(parts[1..]); }
  }

  lemma {:induction false} ColonAfter(a: string, b: string)
    requires forall i :: 0 <= i < |a| ==> a[i] != ':'
    ensures Colon(a + (":" + b)) == |a|
  {
    if a == "" {
      assert a + (":" + b) == ":" + b;
    } else {
      assert (a + (":" + b))[1..] == a[1..] + (":" + b);
      ColonAfter(a[1..], b);
    }
  }

  /** The path of a label is its package and its name. */
  lemma LabelParts(pkg: seq<string>, name: seq<string>)
    requires Segments(pkg) && Segments(name) && name != []
    ensures TargetParts("//" + (Joined(pkg) + (":" + Joined(name)))) == pkg + name
  {
    var a, b := Joined(pkg), Joined(name);
    var body := a + (":" + b);
    assert ("//" + body)[2..] == body;
    JoinedPlain(pkg);
    ColonAfter(a, b);
    assert body[..|a|] == a && body[|a| + 1..] == b;
    SplitJoined(name);
    AllComponents(pkg);
    if pkg == [] { assert Components([""]) == []; } else { SplitJoined(pkg); }
  }

  lemma KeyParts(parts: seq<string>)
    requires Segments(parts) && parts != []
    ensures OutputParts(Joined(parts)) == parts
  {
    var s := Joined(parts);
    JoinedPlain(parts);
    assert Slashes(s) == s;
    SplitJoined(parts);
    AllComponents(parts);
  }

  /** A test.outputs directory below the path of a label belongs to it exactly when every directory in between is
      one of a shard, run or attempt. */
  lemma OutputBelongs(attempt: string -> bool, pkg: seq<string>, name: seq<string>, between: seq<string>)
    requires Segments(pkg) && Segments(name) && name != [] && Segments(between)
    ensures Belongs(attempt, Joined(pkg + name + between + ["test.outputs"]),
            "//" + (Joined(pkg) + (":" + Joined(name)))) <==>
            forall i :: 0 <= i < |between| ==> attempt(between[i])
  {
    var parts := pkg + name + between + ["test.outputs"];
    assert Segments(parts);
    LabelParts(pkg, name);
    KeyParts(parts);
    BelongsParts(attempt, Joined(parts), "//" + (Joined(pkg) + (":" + Joined(name))), pkg + name, between);
  }

  lemma BelongsParts(attempt: string -> bool, key: string, target: string, expected: seq<string>, between: seq<string>)
    requires TargetParts(target) == expected && OutputParts(key) == expected + between + ["test.outputs"]
    ensures Belongs(attempt, key, target) <==> forall i :: 0 <= i < |between| ==> attempt(between[i])
  {
    var parts, n := OutputParts(key), |expected|;
    assert expected <= parts && parts[|parts| - 1] == "test.outputs";
    forall i | 0 <= i < |between| ensures parts[n + i] == between[i] {}
    if forall i :: 0 <= i < |between| ==> attempt(between[i]) {
      forall i | n <= i < |parts| - 1 ensures attempt(parts[i]) { assert parts[i] == between[i - n]; }
    }
  }

  // ---------------------------------------------------------------- the most specific target

  function Matching(attempt: string -> bool, key: string, targets: seq<string>): seq<string> {
    if targets == [] then []
    else
      Matching(attempt, key, targets[..|targets| - 1]) +
        if Belongs(attempt, key, targets[|targets| - 1]) then [targets[|targets| - 1]] else []
  }

  function Longest(targets: seq<string>): nat {
    if targets == [] then 0
    else
      var n := Longest(targets[..|targets| - 1]);
      if |TargetParts(targets[|targets| - 1])| > n then |TargetParts(targets[|targets| - 1])| else n
  }

  function OfLength(targets: seq<string>, n: nat): seq<string> {
    if targets == [] then []
    else
      OfLength(targets[..|targets| - 1], n) +
        if |TargetParts(targets[|targets| - 1])| == n then [targets[|targets| - 1]] else []
  }

  function Finalists(attempt: string -> bool, key: string, targets: seq<string>): seq<string> {
    var matches := Matching(attempt, key, targets);
    if |matches| > 1 then OfLength(matches, Longest(matches)) else matches
  }

  /** No other expected target that the output belongs to has a longer path. */
  ghost predicate MostSpecific(attempt: string -> bool, key: string, targets: seq<string>, target: string) {
    && target in targets && Belongs(attempt, key, target)
    && forall u :: u in targets && Belongs(attempt, key, u) ==> |TargetParts(u)| <= |TargetParts(target)|
  }

  lemma {:induction false} MatchingIs(attempt: string -> bool, key: string, targets: seq<string>)
    ensures forall t :: t in Matching(attempt, key, targets) <==> t in targets && Belongs(attempt, key, t)
  {
    if targets != [] {
      var k := |targets| - 1;
      MatchingIs(attempt, key, targets[..k]);
      assert targets == targets[..k] + [targets[k]];
    }
  }

  lemma {:induction false} LongestIs(targets: seq<string>)
    ensures forall t :: t in targets ==> |TargetParts(t)| <= Longest(targets)
    ensures targets != [] ==> exists t :: t in targets && |TargetParts(t)| == Longest(targets)
  {
    if targets != [] {
      var k := |targets| - 1;
      LongestIs(targets[..k]);
      assert targets == targets[..k] + [targets[k]];
      assert targets[k] in targets;
    }
  }

  lemma {:induction false} OfLengthIs(targets: seq<string>, n: nat)
    ensures forall t :: t in OfLength(targets, n) <==> t in targets && |TargetParts(t)| == n
  {
    if targets != [] {
      var k := |targets| - 1;
      OfLengthIs(targets[..k], n);
      assert targets == targets[..k] + [targets[k]];
    }
  }

  lemma FinalistsAre(attempt: string -> bool, key: string, targets: seq<string>)
    ensures forall t :: t in Finalists(attempt, key, targets) <==> MostSpecific(attempt, key, targets, t)
  {
    var matches := Matching(attempt, key, targets);
    MatchingIs(attempt, key, targets);
    LongestIs(matches);
    OfLengthIs(matches, Longest(matches));
    if |matches| == 1 { assert forall t :: t in matches <==> t == matches[0]; }
  }

  /** The only tie between most specific targets is two labels with the same path. */
  lemma TieMeansSamePath(attempt: string -> bool, key: string, targets: seq<string>, t: string, u: string)
    requires MostSpecific(attempt, key, targets, t) && MostSpecific(attempt, key, targets, u)
    ensures TargetParts(t) == TargetParts(u)
  {
    var parts := OutputParts(key);
    assert TargetParts(t) == parts[..|TargetParts(t)|] && TargetParts(u) == parts[..|TargetParts(u)|];
  }

  lemma {:induction false} MatchingDistinct(attempt: string -> bool, key: string, targets: seq<string>)
    requires Distinct(targets)
    ensures Distinct(Matching(attempt, key, targets))
  {
    if targets != [] {
      var k := |targets| - 1;
      MatchingDistinct(attempt, key, targets[..k]);
      MatchingIs(attempt, key, targets[..k]);
      DistinctAppend(Matching(attempt, key, targets[..k]), targets, k);
    }
  }

  lemma {:induction false} OfLengthDistinct(targets: seq<string>, n: nat)
    requires Distinct(targets)
    ensures Distinct(OfLength(targets, n))
  {
    if targets != [] {
      var k := |targets| - 1;
      OfLengthDistinct(targets[..k], n);
      OfLengthIs(targets[..k], n);
      DistinctAppend(OfLength(targets[..k], n), targets, k);
    }
  }

  lemma DistinctAppend(some: seq<string>, all: seq<string>, k: nat)
    requires Distinct(all) && k < |all| && Distinct(some) && forall t :: t in some ==> t in all[..k]
    ensures Distinct(some + [all[k]])
  {
    forall i | 0 <= i < |some| ensures some[i] != all[k] {
      assert some[i] in all[..k];
      var j :| 0 <= j < k && all[..k][j] == some[i];
    }
  }

  lemma FinalistsDistinct(attempt: string -> bool, key: string, targets: seq<string>)
    requires Distinct(targets)
    ensures Distinct(Finalists(attempt, key, targets))
  {
    MatchingDistinct(attempt, key, targets);
    OfLengthDistinct(Matching(attempt, key, targets), Longest(Matching(attempt, key, targets)));
  }

  // ---------------------------------------------------------------- selection

  /** The one target the output goes to. */
  ghost predicate GoesTo(attempt: string -> bool, targets: seq<string>, key: string, target: string) {
    MostSpecific(attempt, key, targets, target) && forall u :: MostSpecific(attempt, key, targets, u) ==> u == target
  }

  /** Two different expected targets are both most specific for the output. */
  ghost predicate Tied(attempt: string -> bool, targets: seq<string>, key: string) {
    exists t, u :: t != u && MostSpecific(attempt, key, targets, t) && MostSpecific(attempt, key, targets, u)
  }

  /** The only finalist, if there is one. */
  function TargetFor(attempt: string -> bool, targets: seq<string>, key: string): Option<string> {
    var f := Finalists(attempt, key, targets);
    if |f| == 1 then Some(f[0]) else None
  }

  predicate Contested(attempt: string -> bool, targets: seq<string>, key: string) {
    |Finalists(attempt, key, targets)| > 1
  }

  function Lookup(byKey: map<string, string>, key: string): Option<string> {
    if key in byKey then Some(byKey[key]) else None
  }

  /** byKey holds the targets of the outputs, as `targetFor` gives them. */
  ghost predicate Assigned(targetFor: string -> Option<string>, outputs: seq<Output>, byKey: map<string, string>) {
    && (forall o :: o in outputs ==> Lookup(byKey, o.key) == targetFor(o.key))
    && (forall k :: k in byKey ==> targetFor(k) == Some(byKey[k]) && exists o :: o in outputs && o.key == k)
  }

  lemma OneFinalist(attempt: string -> bool, key: string, targets: seq<string>)
    requires Distinct(targets)
    ensures var f := Finalists(attempt, key, targets);
            && (Contested(attempt, targets, key) <==> Tied(attempt, targets, key))
            && (forall t :: GoesTo(attempt, targets, key, t) <==> TargetFor(attempt, targets, key) == Some(t))
  {
    var f := Finalists(attempt, key, targets);
    FinalistsAre(attempt, key, targets);
    FinalistsDistinct(attempt, key, targets);
    if |f| > 1 { assert f[0] in f && f[1] in f; }
    if Tied(attempt, targets, key) {
      var t, u :| t != u && MostSpecific(attempt, key, targets, t) && MostSpecific(attempt, key, targets, u);
      assert t in f && u in f;
    }
    if |f| == 1 { assert forall t :: t in f <==> t == f[0]; }
  }

  /** The target of every output that has one; fails on the first tie. */
  method AssignOutputs(contested: string -> bool, targetFor: string -> Option<string>, outputs: seq<Output>)
    returns (byKey: map<string, string>, tie: Option<string>)
    ensures tie.None? ==> Assigned(targetFor, outputs, byKey)
    ensures tie.None? ==> forall o :: o in outputs ==> !contested(o.key)
    ensures tie.Some? ==> contested(tie.value) && exists o :: o in outputs && o.key == tie.value
  {
    byKey := map[];
    for i := 0 to |outputs|
      invariant Assigned(targetFor, outputs[..i], byKey)
      invariant forall j :: 0 <= j < i ==> !contested(outputs[j].key)
    {
      var key := outputs[i].key;
      if contested(key) {
        assert outputs[i] in outputs;
        return byKey, Some(key);
      }
      AssignStep(targetFor, outputs, i, byKey);
      if targetFor(key).Some? {
        byKey := byKey[key := targetFor(key).value];
      }
    }
    assert outputs[..|outputs|] == outputs;
    tie := None;
  }

  lemma AssignStep(targetFor: string -> Option<string>, outputs: seq<Output>, i: nat, byKey: map<string, string>)
    requires i < |outputs| && Assigned(targetFor, outputs[..i], byKey)
    ensures var key, r := outputs[i].key, targetFor(outputs[i].key);
            Assigned(targetFor, outputs[..i + 1], if r.Some? then byKey[key := r.value] else byKey)
  {
    assert outputs[..i + 1] == outputs[..i] + [outputs[i]];
  }

  function KeptOutputs(outputs: seq<Output>, keys: set<string>): seq<Output> {
    if outputs == [] then []
    else
      KeptOutputs(outputs[..|outputs| - 1], keys) +
        if outputs[|outputs| - 1].key in keys then [outputs[|outputs| - 1]] else []
  }

  /** The tasks whose key has a target, stamped with it. */
  function Stamped(tasks: seq<Task>, byKey: map<string, string>): seq<Task> {
    if tasks == [] then []
    else
      var t := tasks[|tasks| - 1];
      Stamped(tasks[..|tasks| - 1], byKey) + if t.key in byKey then [t.(target := Some(byKey[t.key]))] else []
  }

  lemma {:induction false} KeptOutputsAre(outputs: seq<Output>, keys: set<string>)
    ensures forall o :: o in KeptOutputs(outputs, keys) <==> o in outputs && o.key in keys
  {
    if outputs != [] {
      var k := |outputs| - 1;
      KeptOutputsAre(outputs[..k], keys);
      assert outputs == outputs[..k] + [outputs[k]];
    }
  }

  lemma {:induction false} StampedAre(tasks: seq<Task>, byKey: map<string, string>)
    ensures forall t :: t in Stamped(tasks, byKey) ==>
              t.key in byKey && t.target == Some(byKey[t.key]) && exists u :: u in tasks && t == u.(target := t.target)
    ensures forall u :: u in tasks && u.key in byKey ==> u.(target := Some(byKey[u.key])) in Stamped(tasks, byKey)
  {
    if tasks != [] {
      var k := |tasks| - 1;
      StampedAre(tasks[..k], byKey);
      assert tasks == tasks[..k] + [tasks[k]];
    }
  }

  predicate Uncovered(target: string, byKey: map<string, string>) {
    forall k :: k in byKey ==> byKey[k] != target
  }

  /** The outputs with one most specific expected target are kept; their tasks are kept and carry that target. */
  ghost predicate SelectedFor(attempt: string -> bool, targets: seq<string>, d: DiscoveryResult, d': DiscoveryResult) {
    && (forall o :: o in d'.outputs <==> o in d.outputs && exists t :: GoesTo(attempt, targets, o.key, t))
    && (forall t :: t in d'.tasks ==>
          t.target.Some? && GoesTo(attempt, targets, t.key, t.target.value) &&
            exists u :: u in d.tasks && t == u.(target := t.target))
    && (forall u, t :: u in d.tasks && HasOutput(d, u.key) && GoesTo(attempt, targets, u.key, t) ==>
          u.(target := Some(t)) in d'.tasks)
  }

  ghost predicate HasOutput(d: DiscoveryResult, key: string) { exists o :: o in d.outputs && o.key == key }

  ghost predicate HasTie(attempt: string -> bool, targets: seq<string>, outputs: seq<Output>) {
    exists o :: o in outputs && Tied(attempt, targets, o.key)
  }

  /** No output goes to the target. */
  ghost predicate Missing(attempt: string -> bool, targets: seq<string>, outputs: seq<Output>, target: string) {
    forall o :: o in outputs ==> !GoesTo(attempt, targets, o.key, target)
  }

  /** A tie, or an expected target without an output where none may be missing. */
  ghost predicate Refuses(attempt: string -> bool, targets: seq<string>, outputs: seq<Output>, allowMissing: bool) {
    && targets != []
    && (HasTie(attempt, targets, outputs) ||
         (!allowMissing && exists t :: t in targets && Missing(attempt, targets, outputs, t)))
  }

  /** `select_expected_outputs`. */
  method SelectExpectedOutputs(d: DiscoveryResult, attempt: string -> bool, targets: seq<string>, allowMissing: bool)
      returns (r: Selection)
    requires Distinct(targets)
    ensures targets == [] ==> r == Selected(d)
    ensures targets != [] && r.Selected? ==> SelectedFor(attempt, targets, d, r.discovery)
    ensures r.Refused? <==> Refuses(attempt, targets, d.outputs, allowMissing)
    ensures r.Refused? ==> (r.error.AmbiguousOutput? <==> HasTie(attempt, targets, d.outputs))
    ensures r.Refused? && r.error.AmbiguousOutput? ==> HasOutput(d, r.error.key) && Tied(attempt, targets, r.error.key)
  {
    if targets == [] { return Selected(d); }
    var byKey, tie := AssignOutputs(k => Contested(attempt, targets, k), k => TargetFor(attempt, targets, k),
      d.outputs);
    forall o | o in d.outputs { OneFinalist(attempt, o.key, targets); }
    if tie.Some? { return Refused(AmbiguousOutput(tie.value)); }
    forall t | t in targets { CoveredIs(attempt, targets, d.outputs, byKey, t); }
    if i :| 0 <= i < |targets| && Uncovered(targets[i], byKey) && !allowMissing {
      assert targets[i] in targets;
      return Refused(MissingTargets);
    }
    var outputs, tasks := KeptOutputs(d.outputs, byKey.Keys), Stamped(d.tasks, byKey);
    SelectionIs(attempt, targets, d, byKey);
    r := Selected(DiscoveryResult(outputs, tasks));
  }

  lemma CoveredIs(attempt: string -> bool, targets: seq<string>, outputs: seq<Output>, byKey: map<string, string>,
      target: string)
    requires Distinct(targets) && Assigned(k => TargetFor(attempt, targets, k), outputs, byKey)
    ensures Uncovered(target, byKey) <==> Missing(attempt, targets, outputs, target)
  {
    forall o | o in outputs ensures GoesTo(attempt, targets, o.key, target) <==> Lookup(byKey, o.key) == Some(target) {
      OneFinalist(attempt, o.key, targets);
    }
  }

  lemma SelectionIs(attempt: string -> bool, targets: seq<string>, d: DiscoveryResult, byKey: map<string, string>)
    requires Distinct(targets) && Assigned(k => TargetFor(attempt, targets, k), d.outputs, byKey)
    ensures SelectedFor(attempt, targets, d,
            DiscoveryResult(KeptOutputs(d.outputs, byKey.Keys), Stamped(d.tasks, byKey)))
  {
    KeptOutputsAre(d.outputs, byKey.Keys);
    StampedAre(d.tasks, byKey);
    forall o | o in d.outputs ensures o.key in byKey <==> exists t :: GoesTo(attempt, targets, o.key, t) {
      OneFinalist(attempt, o.key, targets);
      if o.key in byKey { assert GoesTo(attempt, targets, o.key, byKey[o.key]); }
    }
    forall t | t in Stamped(d.tasks, byKey) ensures GoesTo(attempt, targets, t.key, byKey[t.key]) {
      OneFinalist(attempt, t.key, targets);
    }
    forall u, t | u in d.tasks && HasOutput(d, u.key) && GoesTo(attempt, targets, u.key, t)
      ensures u.key in byKey && byKey[u.key] == t
    {
      OneFinalist(attempt, u.key, targets);
    }
  }
}
