/** Discovery of test.outputs directories and their payload files. */
module Discovery {
  import opened Paths
  import opened Wrappers

  /** A test.outputs directory below a scan root: its relative key and its regular payload files, resolved. */
  datatype Found = Found(key: string, files: seq<string>)

  datatype Root = Root(staged: bool, found: seq<Found>)

  datatype Output = Output(key: string, staged: bool, files: seq<string>)

  datatype Task = Task(number: nat, source: string, key: string, target: Option<string>)

  datatype DiscoveryResult = DiscoveryResult(outputs: seq<Output>, tasks: seq<Task>)

  // ---------------------------------------------------------------- sorting keys

  ghost predicate Sorted(xs: seq<string>) {
    forall i, j :: 0 <= i < j < |xs| ==> Less(xs[i], xs[j])
  }

  function Insert(xs: seq<string>, k: string): seq<string> {
    if xs == [] then [k]
    else if Less(k, xs[0]) then [k] + xs
    else [xs[0]] + Insert(xs[1..], k)
  }

  lemma {:induction false} InsertKeeps(xs: seq<string>, k: string)
    requires Sorted(xs) && k !in xs
    ensures Sorted(Insert(xs, k))
    ensures forall x :: x in Insert(xs, k) <==> x == k || x in xs
  {
    if xs != [] {
      if Less(k, xs[0]) {
        forall j | 0 <= j < |xs| ensures Less(k, xs[j]) {
          if j > 0 { LessTransitive(k, xs[0], xs[j]); }
        }
      } else {
        LessTotal(k, xs[0]);
        InsertKeeps(xs[1..], k);
        var rest := Insert(xs[1..], k);
        forall j | 0 <= j < |rest| ensures Less(xs[0], rest[j]) {
          assert rest[j] in rest;
        }
      }
    }
  }

  method SortedKeys(keys: set<string>) returns (r: seq<string>)
    ensures Sorted(r) && forall k :: k in r <==> k in keys
  {
    r := [];
    var rest := keys;
    while rest != {}
      invariant rest <= keys && Sorted(r)
      invariant forall k :: k in r <==> k in keys && k !in rest
    {
      var k :| k in rest;
      InsertKeeps(r, k);
      r := Insert(r, k);
      rest := rest - {k};
    }
  }

  // ---------------------------------------------------------------- outputs

  function OfRoot(r: Root, found: seq<Found>): seq<Output> {
    if found == [] then []
    else OfRoot(r, found[..|found| - 1]) + [Output(found[|found| - 1].key, r.staged, found[|found| - 1].files)]
  }

  /** Every directory found, root by root. */
  function AllOutputs(roots: seq<Root>): seq<Output> {
    if roots == [] then [] else AllOutputs(roots[..|roots| - 1]) + OfRoot(roots[|roots| - 1], roots[|roots| - 1].found)
  }

  function WithKey(all: seq<Output>, key: string): seq<Output> {
    if all == [] then []
    else WithKey(all[..|all| - 1], key) + if all[|all| - 1].key == key then [all[|all| - 1]] else []
  }

  function FirstStaged(outputs: seq<Output>): Option<Output> {
    if outputs == [] then None else if outputs[0].staged then Some(outputs[0]) else FirstStaged(outputs[1..])
  }

  /** The directory that stands for a key: a selected key never falls back to a local directory. */
  function Choice(all: seq<Output>, selected: set<string>, key: string): Option<Output> {
    var candidates := WithKey(all, key);
    if key in selected then FirstStaged(candidates)
    else if candidates == [] then None else Some(candidates[0])
  }

  lemma {:induction false} WithKeyIs(all: seq<Output>, key: string)
    ensures forall o :: o in WithKey(all, key) <==> o in all && o.key == key
    ensures WithKey(all, key) == [] <==> forall o :: o in all ==> o.key != key
  {
    if all != [] {
      var k := |all| - 1;
      WithKeyIs(all[..k], key);
      assert all == all[..k] + [all[k]];
    }
  }

  lemma {:induction false} FirstStagedIs(outputs: seq<Output>)
    ensures FirstStaged(outputs).Some? ==> FirstStaged(outputs).value in outputs && FirstStaged(outputs).value.staged
    ensures FirstStaged(outputs).None? ==> forall o :: o in outputs ==> !o.staged
  {
    if outputs != [] { FirstStagedIs(outputs[1..]); }
  }

  lemma ChoiceIs(all: seq<Output>, selected: set<string>, key: string)
    ensures var c := Choice(all, selected, key);
            && (c.Some? ==> c.value in all && c.value.key == key && (key in selected ==> c.value.staged))
            && (c.None? ==> forall o :: o in all && o.key == key ==> key in selected && !o.staged)
  {
    WithKeyIs(all, key);
    FirstStagedIs(WithKey(all, key));
    if key !in selected && WithKey(all, key) != [] { assert WithKey(all, key)[0] in WithKey(all, key); }
  }

  /** The directory at i may stand for the key: it has it, and it is staged where staged artifacts were selected. */
  predicate MayStand(all: seq<Output>, selected: set<string>, key: string, i: nat) {
    i < |all| && all[i].key == key && (key in selected ==> all[i].staged)
  }

  ghost predicate FirstStanding(all: seq<Output>, selected: set<string>, key: string, c: Option<Output>) {
    match c
    case None => forall i: nat :: !MayStand(all, selected, key, i)
    case Some(o) => exists i: nat :: MayStand(all, selected, key, i) && all[i] == o &&
                      forall j: nat :: j < i ==> !MayStand(all, selected, key, j)
  }

  lemma {:induction false} StagedAppend(xs: seq<Output>, y: Output)
    ensures FirstStaged(xs + [y]) == if FirstStaged(xs).Some? then FirstStaged(xs) else if y.staged then Some(y)
            else None
  {
    if xs != [] {
      assert (xs + [y])[1..] == xs[1..] + [y];
      StagedAppend(xs[1..], y);
    }
  }

  /** Of the directories that may stand for a key, the first in the order of the scan roots does. */
  lemma {:induction false} ChoiceIsFirst(all: seq<Output>, selected: set<string>, key: string)
    ensures FirstStanding(all, selected, key, Choice(all, selected, key))
  {
    if all != [] {
      var k := |all| - 1;
      var before := all[..k];
      ChoiceIsFirst(before, selected, key);
      StagedAppend(WithKey(before, key), all[k]);
      ChoiceStep(all, selected, key);
      FirstStep(all, selected, key, Choice(before, selected, key));
    }
  }

  lemma ChoiceStep(all: seq<Output>, selected: set<string>, key: string)
    requires all != []
    ensures var k := |all| - 1;
            var c := Choice(all[..k], selected, key);
            Choice(all, selected, key) == if c.Some? then c else if MayStand(all, selected, key, k) then Some(all[k])
              else None
  {
    var k := |all| - 1;
    var some := WithKey(all[..k], key);
    StagedAppend(some, all[k]);
    assert some + [] == some;
  }

  lemma FirstStep(all: seq<Output>, selected: set<string>, key: string, c: Option<Output>)
    requires all != [] && FirstStanding(all[..|all| - 1], selected, key, c)
    ensures var k := |all| - 1;
            FirstStanding(all, selected, key,
              if c.Some? then c else if MayStand(all, selected, key, k) then Some(all[k]) else None)
  {
    var k := |all| - 1;
    forall i: nat | i < k ensures MayStand(all, selected, key, i) <==> MayStand(all[..k], selected, key, i) {}
    if c.Some? {
      var i: nat :| MayStand(all[..k], selected, key, i) && all[..k][i] == c.value &&
        forall j: nat :: j < i ==> !MayStand(all[..k], selected, key, j);
      assert MayStand(all, selected, key, i);
    }
  }

  method GroupByKey(roots: seq<Root>) returns (byKey: map<string, seq<Output>>)
    ensures forall k :: k in byKey ==> byKey[k] == WithKey(AllOutputs(roots), k)
    ensures forall o :: o in AllOutputs(roots) ==> o.key in byKey
  {
    byKey := map[];
    for i := 0 to |roots|
      invariant Groups(byKey, AllOutputs(roots[..i]))
    {
      assert roots[..i + 1][..i] == roots[..i];
      byKey := GroupRoot(byKey, AllOutputs(roots[..i]), roots[i]);
    }
    assert roots[..|roots|] == roots;
  }

  ghost predicate Groups(byKey: map<string, seq<Output>>, all: seq<Output>) {
    && (forall k :: k in byKey ==> byKey[k] == WithKey(all, k))
    && (forall o :: o in all ==> o.key in byKey)
  }

  method GroupRoot(before: map<string, seq<Output>>, ghost all: seq<Output>, r: Root)
      returns (byKey: map<string, seq<Output>>)
    requires Groups(before, all)
    ensures Groups(byKey, all + OfRoot(r, r.found))
  {
    byKey := before;
    assert all + [] == all;
    for i := 0 to |r.found|
      invariant Groups(byKey, all + OfRoot(r, r.found[..i]))
    {
      assert r.found[..i + 1][..i] == r.found[..i];
      var o := Output(r.found[i].key, r.staged, r.found[i].files);
      ghost var so := all + OfRoot(r, r.found[..i]);
      assert all + OfRoot(r, r.found[..i + 1]) == so + [o];
      GroupStep(byKey, so, o);
      byKey := byKey[o.key := (if o.key in byKey then byKey[o.key] else []) + [o]];
    }
    assert r.found[..|r.found|] == r.found;
  }

  lemma GroupStep(byKey: map<string, seq<Output>>, all: seq<Output>, o: Output)
    requires Groups(byKey, all)
    ensures Groups(byKey[o.key := (if o.key in byKey then byKey[o.key] else []) + [o]], all + [o])
  {
    assert (all + [o])[..|all|] == all;
    if o.key !in byKey {
      WithKeyIs(all, o.key);
    }
  }

  ghost predicate Selected(all: seq<Output>, selected: set<string>, keys: seq<string>, outputs: seq<Output>) {
    && (forall o :: o in outputs <==> o.key in keys && Choice(all, selected, o.key) == Some(o))
    && (forall i, j :: 0 <= i < j < |outputs| ==> Less(outputs[i].key, outputs[j].key))
    && (forall i :: 0 <= i < |outputs| ==> outputs[i].key in keys)
  }

  /** One directory per key, in key order. */
  method SelectOutputs(roots: seq<Root>, selected: set<string>) returns (outputs: seq<Output>)
    ensures forall o :: o in outputs <==> Choice(AllOutputs(roots), selected, o.key) == Some(o)
    ensures forall i, j :: 0 <= i < j < |outputs| ==> Less(outputs[i].key, outputs[j].key)
  {
    var byKey := GroupByKey(roots);
    ghost var all := AllOutputs(roots);
    var keys := SortedKeys(byKey.Keys);
    outputs := [];
    for i := 0 to |keys|
      invariant Selected(all, selected, keys[..i], outputs)
    {
      var key := keys[i];
      var candidates := byKey[key];
      var chosen := if key in selected then FirstStaged(candidates) else if candidates == [] then None
        else Some(candidates[0]);
      ChoiceIs(all, selected, key);
      SelectStep(all, selected, keys, i, outputs);
      if chosen.Some? {
        outputs := outputs + [chosen.value];
      }
    }
    assert keys[..|keys|] == keys;
    forall o: Output | Choice(all, selected, o.key) == Some(o) ensures o.key in keys { ChoiceIs(all, selected, o.key); }
  }

  lemma SelectStep(all: seq<Output>, selected: set<string>, keys: seq<string>, i: nat, outputs: seq<Output>)
    requires Sorted(keys) && i < |keys| && Selected(all, selected, keys[..i], outputs)
    ensures var c := Choice(all, selected, keys[i]);
            Selected(all, selected, keys[..i + 1], if c.Some? then outputs + [c.value] else outputs)
  {
    ChoiceIs(all, selected, keys[i]);
    assert keys[..i + 1] == keys[..i] + [keys[i]];
    forall j | 0 <= j < |outputs| ensures Less(outputs[j].key, keys[i]) {
      var m :| 0 <= m < i && keys[..i][m] == outputs[j].key;
    }
  }

  // ---------------------------------------------------------------- tasks

  /** The first directory with the file is the one with that key. */
  predicate ShownUnder(outputs: seq<Output>, key: string, source: string) {
    exists i ::
      0 <= i < |outputs| && outputs[i].key == key && source in outputs[i].files && !ShownBefore(outputs, i, source)
  }

  predicate ShownBefore(outputs: seq<Output>, i: nat, source: string)
    requires i <= |outputs|
  {
    exists j :: 0 <= j < i && source in outputs[j].files
  }

  ghost predicate TasksOf(outputs: seq<Output>, tasks: seq<Task>) {
    && (forall i :: 0 <= i < |tasks| ==>
         tasks[i].number == i + 1 && tasks[i].target.None? && ShownUnder(outputs, tasks[i].key, tasks[i].source))
    && (forall i, j :: 0 <= i < j < |tasks| ==> tasks[i].source != tasks[j].source)
  }

  predicate HasTask(tasks: seq<Task>, source: string) {
    exists i :: 0 <= i < |tasks| && tasks[i].source == source
  }

  ghost predicate Seen(tasks: seq<Task>, seen: set<string>) {
    forall x :: x in seen <==> HasTask(tasks, x)
  }

  /** Each payload file once, under the first directory that shows it. */
  method CreateTasks(outputs: seq<Output>) returns (tasks: seq<Task>)
    ensures TasksOf(outputs, tasks)
    ensures forall o, x :: o in outputs && x in o.files ==> HasTask(tasks, x)
  {
    tasks := [];
    var seen: set<string> := {};
    for i := 0 to |outputs|
      invariant TasksOf(outputs, tasks) && Seen(tasks, seen)
      invariant forall x :: ShownBefore(outputs, i, x) ==> x in seen
    {
      tasks, seen := AddOutput(outputs, i, tasks, seen);
    }
    forall o, x | o in outputs && x in o.files ensures x in seen {
      assert ShownBefore(outputs, |outputs|, x);
    }
  }

  method AddOutput(outputs: seq<Output>, i: nat, tasks: seq<Task>, seen: set<string>)
      returns (tasks': seq<Task>, seen': set<string>)
    requires i < |outputs| && TasksOf(outputs, tasks) && Seen(tasks, seen)
    requires forall x :: ShownBefore(outputs, i, x) ==> x in seen
    ensures TasksOf(outputs, tasks') && Seen(tasks', seen')
    ensures seen <= seen' && forall x :: x in outputs[i].files ==> x in seen'
  {
    tasks', seen' := tasks, seen;
    var files := outputs[i].files;
    for f := 0 to |files|
      invariant TasksOf(outputs, tasks') && Seen(tasks', seen')
      invariant seen <= seen' && forall g :: 0 <= g < f ==> files[g] in seen'
    {
      if files[f] !in seen' {
        assert files[f] in outputs[i].files;
        TaskStep(outputs, tasks', seen', outputs[i].key, files[f]);
        tasks' := tasks' + [Task(|tasks'| + 1, files[f], outputs[i].key, None)];
        seen' := seen' + {files[f]};
      }
    }
  }

  lemma TaskStep(outputs: seq<Output>, tasks: seq<Task>, seen: set<string>, key: string, source: string)
    requires TasksOf(outputs, tasks) && Seen(tasks, seen) && ShownUnder(outputs, key, source) && source !in seen
    ensures var tasks' := tasks + [Task(|tasks| + 1, source, key, None)];
            TasksOf(outputs, tasks') && Seen(tasks', seen + {source})
  {
    var tasks' := tasks + [Task(|tasks| + 1, source, key, None)];
    forall x ensures x in seen + {source} <==> HasTask(tasks', x) {
      if x in seen {
        var i :| 0 <= i < |tasks| && tasks[i].source == x;
        assert tasks'[i].source == x;
      }
      if x == source { assert tasks'[|tasks|].source == x; }
      if i :| 0 <= i < |tasks'| && tasks'[i].source == x {
        if i < |tasks| { assert tasks[i].source == x; }
      }
    }
  }

  /** What discovery promises: one directory per key, staged for every selected key, and each file once. */
  ghost predicate Discovered(roots: seq<Root>, selected: set<string>, d: DiscoveryResult) {
    && (forall o :: o in d.outputs <==> Choice(AllOutputs(roots), selected, o.key) == Some(o))
    && (forall i, j :: 0 <= i < j < |d.outputs| ==> Less(d.outputs[i].key, d.outputs[j].key))
    && TasksOf(d.outputs, d.tasks)
    && (forall o, x :: o in d.outputs && x in o.files ==> HasTask(d.tasks, x))
  }

  /** `discover_file_tasks`. */
  method DiscoverFileTasks(roots: seq<Root>, selected: set<string>) returns (d: DiscoveryResult)
    ensures Discovered(roots, selected, d)
  {
    var outputs := SelectOutputs(roots, selected);
    var tasks := CreateTasks(outputs);
    d := DiscoveryResult(outputs, tasks);
  }

  /** Every task of a selected key reads a staged file, never a local one. */
  lemma SelectedKeysAreStaged(roots: seq<Root>, selected: set<string>, d: DiscoveryResult, t: Task)
    requires Discovered(roots, selected, d) && t in d.tasks && t.key in selected
    ensures exists o :: o in d.outputs && o.key == t.key && t.source in o.files && o.staged && o in AllOutputs(roots)
  {
    var k :| 0 <= k < |d.tasks| && d.tasks[k] == t;
    assert ShownUnder(d.outputs, t.key, t.source);
    var i :| 0 <= i < |d.outputs| && d.outputs[i].key == t.key && t.source in d.outputs[i].files;
    assert d.outputs[i] in d.outputs;
    ChoiceIs(AllOutputs(roots), selected, t.key);
  }

  lemma ShownUnderOne(outputs: seq<Output>, k: string, l: string, source: string)
    requires ShownUnder(outputs, k, source) && ShownUnder(outputs, l, source)
    ensures k == l
  {
    var i :| 0 <= i < |outputs| && outputs[i].key == k && source in outputs[i].files &&
      !ShownBefore(outputs, i, source);
    var j :| 0 <= j < |outputs| && outputs[j].key == l && source in outputs[j].files &&
      !ShownBefore(outputs, j, source);
  }

  /** Every file has its task under the first directory that shows it, and under no other. */
  lemma TaskUnderFirst(outputs: seq<Output>, tasks: seq<Task>, key: string, source: string)
    requires TasksOf(outputs, tasks) && forall o, x :: o in outputs && x in o.files ==> HasTask(tasks, x)
    ensures ShownUnder(outputs, key, source) <==> exists t :: t in tasks && t.key == key && t.source == source
  {
    if t :| t in tasks && t.key == key && t.source == source {
      var k :| 0 <= k < |tasks| && tasks[k] == t;
    }
    if ShownUnder(outputs, key, source) {
      var i :| 0 <= i < |outputs| && outputs[i].key == key && source in outputs[i].files;
      assert outputs[i] in outputs && HasTask(tasks, source);
      var k :| 0 <= k < |tasks| && tasks[k].source == source;
      ShownUnderOne(outputs, key, tasks[k].key, source);
      assert tasks[k] in tasks;
    }
  }
}
