/** The validator as it runs: errors are appended to a shared list until a budget is reached. */
module BudgetedValidator {
  import opened Json
  import opened JsonPointer
  import opened SchemaValidator
  import opened Wrappers

  /** `log` records the same errors as `whole`, except that it may diverge after the first `max`. */
  predicate Agrees(whole: Errors, log: Errors, max: nat) {
    if |whole| < max then log == whole else |log| >= max && log[..max] == whole[..max]
  }

  /** Appending two lots of errors one after the other. */
  lemma Then(start: Errors, a: Errors, b: Errors, total: Errors, middle: Errors, log: Errors, max: nat)
    requires Agrees(start + a, middle, max) && Agrees(middle + b, log, max) && total == a + b
    ensures Agrees(start + total, log, max)
  {
    assert start + total == start + a + b;
    if |start + a| >= max {
      assert (middle + b)[..max] == middle[..max];
      assert (start + total)[..max] == (start + a)[..max];
    }
  }

  /** Once the budget is spent, what follows does not matter. */
  lemma Stop(start: Errors, a: Errors, total: Errors, log: Errors, max: nat)
    requires Agrees(start + a, log, max) && |log| >= max && a <= total
    ensures Agrees(start + total, log, max)
  {
    assert (start + total)[..max] == (start + a)[..max];
  }

  lemma Nothing(start: Errors, max: nat)
    ensures Agrees(start + [], start, max)
  {
    assert start + [] == start;
  }

  class ErrorLog {
    var entries: Errors

    constructor ()
      ensures entries == []
    {
      entries := [];
    }

    method Add(e: Error)
      modifies this
      ensures entries == old(entries) + [e]
    {
      entries := entries + [e];
    }
  }

  /** `_validate`. */
  method Validate(env: Env, v: Json, s: Json, path: seq<Segment>, log: ErrorLog, max: nat)
    requires Ranked(env) && max > 0
    modifies log
    ensures Agrees(old(log.entries) + Errs(env, v, s, path), log.entries, max)
    decreases v, env.rank(s), s, 4, 0
  {
    ghost var start := log.entries;
    if |log.entries| >= max {
      Nothing(start, max);
      Stop(start, [], Errs(env, v, s, path), start, max);
      return;
    }
    if !s.Obj? {
      Nothing(start, max);
      return;
    }
    if env.strict {
      var keyword := FirstUnsupported(env.order, s.fields);
      if keyword.Some? {
        log.Add(Error(path, UnsupportedKeyword(keyword.value)));
        return;
      }
    }
    if Has(s.fields, "$ref") {
      var t := Referred(env, s.fields);
      if t.Failed? {
        log.Add(Error(path, BadReference(t.error)));
      } else {
        assert RefersTo(env, s, t.value);
        Validate(env, v, t.value, path, log, max);
      }
      return;
    }
    ValidateComposed(env, v, s, path, log, max);
  }

  method ValidateComposed(env: Env, v: Json, s: Json, path: seq<Segment>, log: ErrorLog, max: nat)
    requires Ranked(env) && max > 0 && Composes(env, s)
    modifies log
    ensures Agrees(old(log.entries) + ComposedErrs(env, v, s, path), log.entries, max)
    decreases v, env.rank(s), s, 3, 4
  {
    ghost var start := log.entries;
    ghost var all, rest := AllOfErrs(env, v, s, |Items(s.fields, "allOf")|, path), AfterAllOf(env, v, s, path);
    var stopped := ValidateAllOf(env, v, s, path, log, max);
    ghost var middle := log.entries;
    if stopped {
      Stop(start, all, all + rest, middle, max);
      return;
    }
    ValidateAfterAllOf(env, v, s, path, log, max);
    Then(start, all, rest, all + rest, middle, log.entries, max);
  }

  method ValidateAllOf(env: Env, v: Json, s: Json, path: seq<Segment>, log: ErrorLog, max: nat) returns (stopped: bool)
    requires Ranked(env) && max > 0 && Composes(env, s)
    modifies log
    ensures Agrees(old(log.entries) + AllOfErrs(env, v, s, |Items(s.fields, "allOf")|, path), log.entries, max)
    ensures stopped ==> |log.entries| >= max
    decreases v, env.rank(s), s, 3, 3
  {
    ghost var start := log.entries;
    var subs := Items(s.fields, "allOf");
    AllSmaller(env, s, "allOf");
    Nothing(start, max);
    for k := 0 to |subs|
      invariant Agrees(start + AllOfErrs(env, v, s, k, path), log.entries, max)
    {
      ghost var middle, done := log.entries, AllOfErrs(env, v, s, k + 1, path);
      Validate(env, v, subs[k], path, log, max);
      Then(start, AllOfErrs(env, v, s, k, path), Errs(env, v, subs[k], path), done, middle, log.entries, max);
      if |log.entries| >= max {
        AllOfPrefix(env, v, s, k + 1, path);
        Stop(start, done, AllOfErrs(env, v, s, |subs|, path), log.entries, max);
        return true;
      }
    }
    stopped := false;
  }

  lemma {:induction false} AllOfPrefix(env: Env, v: Json, s: Json, k: nat, path: seq<Segment>)
    requires Ranked(env) && Composes(env, s) && k <= |Items(s.fields, "allOf")|
    ensures AllOfErrs(env, v, s, k, path) <= AllOfErrs(env, v, s, |Items(s.fields, "allOf")|, path)
    decreases |Items(s.fields, "allOf")| - k
  {
    if k < |Items(s.fields, "allOf")| {
      AllOfPrefix(env, v, s, k + 1, path);
      assert AllOfErrs(env, v, s, k, path) <= AllOfErrs(env, v, s, k + 1, path);
    }
  }

  method ValidateAfterAllOf(env: Env, v: Json, s: Json, path: seq<Segment>, log: ErrorLog, max: nat)
    requires Ranked(env) && max > 0 && Composes(env, s)
    modifies log
    ensures Agrees(old(log.entries) + AfterAllOf(env, v, s, path), log.entries, max)
    decreases v, env.rank(s), s, 3, 3
  {
    ghost var start := log.entries;
    if Has(s.fields, "anyOf") {
      var matched := MatchAnyOf(env, v, s, path, max);
      if !matched {
        log.Add(Error(path, NoAnyOf));
        return;
      }
    }
    ValidateCondition(env, v, s, path, log, max);
    ghost var middle := log.entries;
    ValidateOwn(env, v, s, path, log, max);
    ghost var condition, own := ConditionErrs(env, v, s, path), OwnErrs(env, v, s, path);
    Then(start, condition, own, condition + own, middle, log.entries, max);
  }

  method MatchAnyOf(env: Env, v: Json, s: Json, path: seq<Segment>, max: nat) returns (matched: bool)
    requires Ranked(env) && max > 0 && Composes(env, s)
    ensures matched <==> AnyOf(env, v, s, path)
    decreases v, env.rank(s), s, 3, 2
  {
    var subs := Items(s.fields, "anyOf");
    AllSmaller(env, s, "anyOf");
    for i := 0 to |subs|
      invariant forall j :: 0 <= j < i ==> Errs(env, v, subs[j], path) != []
    {
      var accepted := Accepts(env, v, subs[i], path, max);
      if accepted {
        return true;
      }
    }
    matched := false;
  }

  /** A validation into a list of its own, whose emptiness is all that matters. */
  method Accepts(env: Env, v: Json, s: Json, path: seq<Segment>, max: nat) returns (accepted: bool)
    requires Ranked(env) && max > 0
    ensures accepted <==> Errs(env, v, s, path) == []
    decreases v, env.rank(s), s, 5, 0
  {
    var log := new ErrorLog();
    Validate(env, v, s, path, log, max);
    assert [] + Errs(env, v, s, path) == Errs(env, v, s, path);
    accepted := log.entries == [];
  }

  method ValidateCondition(env: Env, v: Json, s: Json, path: seq<Segment>, log: ErrorLog, max: nat)
    requires Ranked(env) && max > 0 && Composes(env, s)
    modifies log
    ensures Agrees(old(log.entries) + ConditionErrs(env, v, s, path), log.entries, max)
    decreases v, env.rank(s), s, 3, 2
  {
    Nothing(log.entries, max);
    if Has(s.fields, "if") {
      GetApplies(env, s, "if");
      GetApplies(env, s, "then");
      GetApplies(env, s, "else");
      var accepted := Accepts(env, v, Get(s.fields, "if").value, path, max);
      if accepted {
        if Has(s.fields, "then") {
          Validate(env, v, Get(s.fields, "then").value, path, log, max);
        }
      } else if Has(s.fields, "else") {
        Validate(env, v, Get(s.fields, "else").value, path, log, max);
      }
    }
  }

  method ValidateOwn(env: Env, v: Json, s: Json, path: seq<Segment>, log: ErrorLog, max: nat)
    requires Ranked(env) && max > 0 && Composes(env, s)
    modifies log
    ensures Agrees(old(log.entries) + OwnErrs(env, v, s, path), log.entries, max)
    decreases v, env.rank(s), s, 3, 2
  {
    ghost var start := log.entries;
    var problem := ScalarProblem(env, v, s.fields);
    if problem.Some? {
      log.Add(Error(path, problem.value));
      return;
    }
    ghost var range, container := RangeErrs(v, s.fields, path), ContainerErrs(env, v, s, path);
    var stopped := ValidateRange(v, s.fields, path, log, max);
    ghost var middle := log.entries;
    if stopped {
      Stop(start, range, range + container, middle, max);
      return;
    }
    ValidateContainer(env, v, s, path, log, max);
    Then(start, range, container, range + container, middle, log.entries, max);
  }

  method ValidateRange(v: Json, d: Dict, path: seq<Segment>, log: ErrorLog, max: nat) returns (stopped: bool)
    requires max > 0
    modifies log
    ensures Agrees(old(log.entries) + RangeErrs(v, d, path), log.entries, max)
    ensures stopped ==> |log.entries| >= max
  {
    ghost var start := log.entries;
    if !MinimumOk(v, d) {
      log.Add(Error(path, BelowMinimum));
      if |log.entries| >= max {
        Stop(start, [Error(path, BelowMinimum)], RangeErrs(v, d, path), log.entries, max);
        return true;
      }
    }
    if !MaximumOk(v, d) {
      log.Add(Error(path, AboveMaximum));
    }
    assert log.entries == start + RangeErrs(v, d, path);
    stopped := !MaximumOk(v, d) && |log.entries| >= max;
  }

  method ValidateContainer(env: Env, v: Json, s: Json, path: seq<Segment>, log: ErrorLog, max: nat)
    requires Ranked(env) && max > 0 && Composes(env, s)
    modifies log
    ensures Agrees(old(log.entries) + ContainerErrs(env, v, s, path), log.entries, max)
    decreases v, env.rank(s), s, 3, 1
  {
    ghost var start := log.entries;
    ghost var required := RequiredErrs(v, s.fields, path);
    ghost var rest := AfterRequired(env, v, s, path);
    var stopped := ValidateRequired(v, s.fields, path, log, max);
    ghost var middle := log.entries;
    if stopped {
      Stop(start, required, required + rest, middle, max);
      return;
    }
    var bad := BadRegex(env, v, s.fields);
    if bad.Some? {
      log.Add(Error(path, InvalidRegex(bad.value)));
    } else {
      ValidateChildren(env, v, s, path, log, max);
    }
    Then(start, required, rest, required + rest, middle, log.entries, max);
  }

  method ValidateRequired(v: Json, d: Dict, path: seq<Segment>, log: ErrorLog, max: nat) returns (stopped: bool)
    requires max > 0
    modifies log
    ensures Agrees(old(log.entries) + RequiredErrs(v, d, path), log.entries, max)
    ensures stopped ==> |log.entries| >= max
  {
    ghost var start := log.entries;
    if !v.Obj? {
      Nothing(start, max);
      return false;
    }
    var required := Items(d, "required");
    for k := 0 to |required|
      invariant log.entries == start + MissingErrs(required[..k], v.fields, path)
    {
      MissingStep(required, k, v.fields, path);
      var key := required[k];
      if !(key.Str? && Has(v.fields, key.text)) {
        log.Add(Error(path, MissingRequired(if key.Str? then key.text else "")));
        if |log.entries| >= max {
          MissingPrefix(required, k + 1, v.fields, path);
          Stop(start, MissingErrs(required[..k + 1], v.fields, path), MissingErrs(required, v.fields, path),
            log.entries, max);
          return true;
        }
      }
    }
    assert required[..|required|] == required;
    stopped := false;
  }

  lemma MissingStep(required: seq<Json>, k: nat, fields: Dict, path: seq<Segment>)
    requires k < |required|
    ensures MissingErrs(required[..k + 1], fields, path) == MissingErrs(required[..k], fields, path) +
              if required[k].Str? && Has(fields, required[k].text) then []
              else [Error(path, MissingRequired(if required[k].Str? then required[k].text else ""))]
  {
    assert required[..k + 1][..k] == required[..k];
  }

  lemma {:induction false} MissingPrefix(required: seq<Json>, k: nat, fields: Dict, path: seq<Segment>)
    requires k <= |required|
    ensures MissingErrs(required[..k], fields, path) <= MissingErrs(required, fields, path)
    decreases |required| - k
  {
    if k < |required| {
      MissingStep(required, k, fields, path);
      MissingPrefix(required, k + 1, fields, path);
    } else {
      assert required[..k] == required;
    }
  }

  /** Every property or item, against every schema that applies to it. */
  method ValidateChildren(env: Env, v: Json, s: Json, path: seq<Segment>, log: ErrorLog, max: nat)
    requires Ranked(env) && max > 0 && Composes(env, s)
    modifies log
    ensures Agrees(old(log.entries) + ChildrenErrs(env, v, s, ChildCount(v), path), log.entries, max)
    decreases v, env.rank(s), s, 2, 0
  {
    ghost var start := log.entries;
    Nothing(start, max);
    for i := 0 to ChildCount(v)
      invariant Agrees(start + ChildrenErrs(env, v, s, i, path), log.entries, max)
    {
      ValidateNextChild(env, v, s, i, path, log, max, start);
    }
  }

  method ValidateNextChild(env: Env, v: Json, s: Json, i: nat, path: seq<Segment>, log: ErrorLog, max: nat,
      ghost start: Errors)
    requires Ranked(env) && max > 0 && Composes(env, s) && i < ChildCount(v)
    requires Agrees(start + ChildrenErrs(env, v, s, i, path), log.entries, max)
    modifies log
    ensures Agrees(start + ChildrenErrs(env, v, s, i + 1, path), log.entries, max)
    decreases v, env.rank(s), s, 1, 1
  {
    ghost var middle := log.entries;
    var schemas := ChildSchemas(env, s.fields, v, i);
    ghost var done, more := ChildrenErrs(env, v, s, i, path), ChildErrs(env, v, s, i, schemas, path);
    ChildrenStep(env, v, s, i, path);
    ValidateChild(env, v, s, i, schemas, path, log, max);
    Then(start, done, more, ChildrenErrs(env, v, s, i + 1, path), middle, log.entries, max);
  }

  lemma ChildrenStep(env: Env, v: Json, s: Json, i: nat, path: seq<Segment>)
    requires Ranked(env) && Composes(env, s) && i < ChildCount(v)
    ensures ChildrenErrs(env, v, s, i + 1, path)
         == ChildrenErrs(env, v, s, i, path) + ChildErrs(env, v, s, i, ChildSchemas(env, s.fields, v, i), path)
  {
  }

  function OneErrs(env: Env, v: Json, i: nat, x: Option<Json>, path: seq<Segment>): Errors
    requires Ranked(env) && i < ChildCount(v)
  {
    if x.Some? then Errs(env, Child(v, i), x.value, ChildPath(v, i, path)) else [ForbiddenChild(v, i, path)]
  }

  lemma ChildStep(env: Env, v: Json, s: Json, i: nat, xs: seq<Option<Json>>, k: nat, path: seq<Segment>)
    requires Ranked(env) && i < ChildCount(v) && k < |xs|
    ensures ChildErrs(env, v, s, i, xs[..k + 1], path) ==
            ChildErrs(env, v, s, i, xs[..k], path) + OneErrs(env, v, i, xs[k], path)
  {
    assert xs[..k + 1][..k] == xs[..k];
  }

  method ValidateChild(env: Env, v: Json, s: Json, i: nat, xs: seq<Option<Json>>, path: seq<Segment>, log: ErrorLog,
      max: nat)
    requires Ranked(env) && max > 0 && i < ChildCount(v)
    modifies log
    ensures Agrees(old(log.entries) + ChildErrs(env, v, s, i, xs, path), log.entries, max)
    decreases v, env.rank(s), s, 1, 0
  {
    ghost var start := log.entries;
    Nothing(start, max);
    for k := 0 to |xs|
      invariant Agrees(start + ChildErrs(env, v, s, i, xs[..k], path), log.entries, max)
    {
      ghost var middle := log.entries;
      ghost var done, total := ChildErrs(env, v, s, i, xs[..k], path), ChildErrs(env, v, s, i, xs[..k + 1], path);
      ChildStep(env, v, s, i, xs, k, path);
      if xs[k].Some? {
        Validate(env, Child(v, i), xs[k].value, ChildPath(v, i, path), log, max);
      } else {
        log.Add(ForbiddenChild(v, i, path));
      }
      Then(start, done, OneErrs(env, v, i, xs[k], path), total, middle, log.entries, max);
    }
    assert xs[..|xs|] == xs;
  }

  // ---------------------------------------------------------------- the public call

  /** `validate_payload`: valid exactly for the payloads that satisfy the schema, whatever the budget;
      the first `max` errors are those of a run without budget. */
  method ValidatePayload(env: Env, payload: Json, max: int) returns (r: Option<Errors>)
    requires Ranked(env)
    ensures r.None? <==> max <= 0
    ensures r.Some? ==> (r.value == [] <==> Sat(env, payload, env.root))
    ensures r.Some? ==> Agrees(Errs(env, payload, env.root, []), r.value, max)
  {
    if max <= 0 { return None; }
    var log := new ErrorLog();
    Validate(env, payload, env.root, [], log, max);
    assert [] + Errs(env, payload, env.root, []) == Errs(env, payload, env.root, []);
    ErrsSat(env, payload, env.root, []);
    r := Some(log.entries);
  }
}
