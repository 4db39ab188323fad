/** The fold over Build Event Protocol lines that decides which test outputs are fresh. */
module BepFreshness {
  import opened Wrappers

  datatype Pair = Pair(target: string, key: string)

  /** A location string of an output; `hint` marks a test.outputs path, `remote` a reference that is not local. */
  datatype Candidate = Candidate(text: string, hint: bool, remote: bool)

  /** One output of a test action; `key` is "" when it maps to no test.outputs directory. */
  datatype Output = Output(key: string, candidates: seq<Candidate>, fetchValue: string, fetchRemote: bool,
      carrierHint: bool)

  datatype Result = Result(cachedLocally: bool, cachedRemotely: bool, outputs: seq<Output>) {
    predicate Cached() { cachedLocally || cachedRemotely }
  }

  /** A line's event: a platform-skipped target, a test result (None when malformed), or anything else. */
  datatype Event = Other | Skipped(target: string) | Test(target: string, result: Option<Result>)

  datatype Line = Blank | Invalid | Parsed(event: Event)

  /** None is a file that is missing or cannot be read. */
  type File = Option<seq<Line>>

  datatype Reference = Reference(target: string, key: string, fetchValue: string, cached: bool, remoteOnly: bool,
      hint: bool, carrier: bool)

  datatype RemoteOnly = RemoteOnly(target: string, key: string, artifact: string)

  datatype Totals = Totals(
    eligible: set<Pair>,
    cached: set<Pair>,
    remoteOnly: seq<RemoteOnly>,
    missing: set<string>,
    references: seq<Reference>,
    skipped: set<string>,
    executed: set<string>)

  const NONE: Totals := Totals({}, {}, [], {}, [], {}, {})

  // ---------------------------------------------------------------- what one event contributes

  predicate Hinted(o: Output) { exists i :: 0 <= i < |o.candidates| && o.candidates[i].hint }

  predicate HasRemote(o: Output) { exists i :: 0 <= i < |o.candidates| && o.candidates[i].remote }

  predicate Mapped(outputs: seq<Output>) { exists i :: 0 <= i < |outputs| && outputs[i].key != "" }

  /** The output's remote references count: they look like test outputs, or nothing else in the event maps. */
  predicate Counted(r: Result, o: Output) {
    !r.Cached() && HasRemote(o) && (Hinted(o) || !Mapped(r.outputs))
  }

  predicate RemoteAny(r: Result) { exists i :: 0 <= i < |r.outputs| && Counted(r, r.outputs[i]) }

  function Pairs(target: string, outputs: seq<Output>): set<Pair> {
    set i | 0 <= i < |outputs| && outputs[i].key != "" :: Pair(target, outputs[i].key)
  }

  function RefOf(target: string, r: Result, o: Output): Reference {
    Reference(target, o.key, o.fetchValue, r.Cached(), o.fetchRemote, Hinted(o),
      o.carrierHint && (!o.fetchRemote || o.key != ""))
  }

  function RefsOf(target: string, r: Result, outputs: seq<Output>): seq<Reference> {
    if outputs == [] then []
    else RefsOf(target, r, outputs[..|outputs| - 1]) + [RefOf(target, r, outputs[|outputs| - 1])]
  }

  function RemoteTexts(target: string, key: string, candidates: seq<Candidate>): seq<RemoteOnly> {
    if candidates == [] then []
    else
      var c := candidates[|candidates| - 1];
      RemoteTexts(target, key, candidates[..|candidates| - 1]) +
        if c.remote then [RemoteOnly(target, key, c.text)] else []
  }

  function RemoteOf(target: string, r: Result, outputs: seq<Output>): seq<RemoteOnly> {
    if outputs == [] then []
    else
      var o := outputs[|outputs| - 1];
      RemoteOf(target, r, outputs[..|outputs| - 1]) +
        if Counted(r, o) then RemoteTexts(target, o.key, o.candidates) else []
  }

  /** A cached event, or one with a counted remote reference, makes nothing eligible. */
  function TestContribution(target: string, r: Result): Totals {
    Totals(
      if r.Cached() || RemoteAny(r) then {} else Pairs(target, r.outputs),
      if r.Cached() then Pairs(target, r.outputs) else {},
      RemoteOf(target, r, r.outputs),
      if !Mapped(r.outputs) && !RemoteAny(r) && !r.Cached() then {target} else {},
      RefsOf(target, r, r.outputs),
      {},
      {target})
  }

  function Contribution(e: Event): Totals {
    match e
    case Other => NONE
    case Skipped(target) => NONE.(skipped := {target})
    case Test(target, None) => NONE.(executed := {target})
    case Test(target, Some(r)) => TestContribution(target, r)
  }

  function Merge(a: Totals, b: Totals): Totals {
    Totals(a.eligible + b.eligible, a.cached + b.cached, a.remoteOnly + b.remoteOnly, a.missing + b.missing,
           a.references + b.references, a.skipped + b.skipped, a.executed + b.executed)
  }

  function Total(events: seq<Event>): Totals {
    if events == [] then NONE else Merge(Total(events[..|events| - 1]), Contribution(events[|events| - 1]))
  }

  function Events(lines: seq<Line>): seq<Event> {
    if lines == [] then []
    else Events(lines[..|lines| - 1]) + if lines[|lines| - 1].Parsed? then [lines[|lines| - 1].event] else []
  }

  function FileEvents(files: seq<File>): seq<Event> {
    if files == [] then []
    else FileEvents(files[..|files| - 1]) + if files[|files| - 1].Some? then Events(files[|files| - 1].value) else []
  }

  predicate Readable(file: File) { file.Some? && Invalid !in file.value }

  predicate AllReadable(files: seq<File>) { forall i :: 0 <= i < |files| ==> Readable(files[i]) }

  /** The same output reported fresh and cached, or the same target skipped and executed. */
  predicate Ambiguous(t: Totals) { !(t.eligible !! t.cached) || !(t.skipped !! t.executed) }

  datatype Outcome = Failed | Unavailable | Fresh(totals: Totals)

  /** What parsing must return for these files. */
  function Parse(files: seq<File>, unavailableIsError: bool): Outcome {
    if !AllReadable(files) then if unavailableIsError then Failed else Unavailable
    else if Ambiguous(Total(FileEvents(files))) then Failed
    else Fresh(Total(FileEvents(files)))
  }

  // ---------------------------------------------------------------- the fold

  /** One test result, folded into the totals. */
  method AddTestResult(t: Totals, target: string, r: Result) returns (t': Totals)
    ensures t' == Merge(t, TestContribution(target, r))
  {
    var mappedAny := false;
    var current, cached: set<Pair> := {}, {};
    var references: seq<Reference> := t.references;
    for i := 0 to |r.outputs|
      invariant mappedAny == Mapped(r.outputs[..i])
      invariant cached == (if r.Cached() then Pairs(target, r.outputs[..i]) else {})
      invariant current == (if r.Cached() then {} else Pairs(target, r.outputs[..i]))
      invariant references == t.references + RefsOf(target, r, r.outputs[..i])
    {
      var o := r.outputs[i];
      OutputStep(target, r, i);
      if o.key != "" {
        mappedAny := true;
        if r.Cached() {
          cached := cached + {Pair(target, o.key)};
        } else {
          current := current + {Pair(target, o.key)};
        }
      }
      references := references + [RefOf(target, r, o)];
    }
    assert r.outputs[..|r.outputs|] == r.outputs;
    var remoteOnly, remoteAny := AddRemote(t.remoteOnly, target, r, mappedAny);
    t' := Totals(
      if remoteAny then t.eligible else t.eligible + current,
      t.cached + cached,
      remoteOnly,
      if !mappedAny && !remoteAny && !r.Cached() then t.missing + {target} else t.missing,
      references, t.skipped, t.executed + {target});
  }

  lemma OutputStep(target: string, r: Result, i: nat)
    requires i < |r.outputs|
    ensures Mapped(r.outputs[..i + 1]) == (Mapped(r.outputs[..i]) || r.outputs[i].key != "")
    ensures Pairs(target, r.outputs[..i + 1]) == Pairs(target, r.outputs[..i]) +
            if r.outputs[i].key != "" then {Pair(target, r.outputs[i].key)} else {}
    ensures RefsOf(target, r, r.outputs[..i + 1]) ==
            RefsOf(target, r, r.outputs[..i]) + [RefOf(target, r, r.outputs[i])]
  {
    var some, more := r.outputs[..i], r.outputs[..i + 1];
    assert more == some + [r.outputs[i]] && more[..i] == some;
    if Mapped(some) {
      var j :| 0 <= j < |some| && some[j].key != "";
      assert more[j].key != "";
    }
    if r.outputs[i].key != "" { assert more[i].key != ""; }
  }

  /** The remote references that count, candidate by candidate. */
  method AddRemote(before: seq<RemoteOnly>, target: string, r: Result, mappedAny: bool)
      returns (remoteOnly: seq<RemoteOnly>, remoteAny: bool)
    requires mappedAny == Mapped(r.outputs)
    ensures remoteOnly == before + RemoteOf(target, r, r.outputs) && remoteAny == RemoteAny(r)
  {
    remoteOnly, remoteAny := before, false;
    for i := 0 to |r.outputs|
      invariant remoteOnly == before + RemoteOf(target, r, r.outputs[..i])
      invariant remoteAny == exists j :: 0 <= j < i && Counted(r, r.outputs[j])
    {
      var o := r.outputs[i];
      assert r.outputs[..i + 1][..i] == r.outputs[..i];
      if !r.Cached() && HasRemote(o) && (Hinted(o) || !mappedAny) {
        remoteAny := true;
        var found := RemoteTexts(target, o.key, o.candidates);
        remoteOnly := remoteOnly + found;
      }
    }
    assert r.outputs[..|r.outputs|] == r.outputs;
  }

  method AddEvent(t: Totals, e: Event) returns (t': Totals)
    ensures t' == Merge(t, Contribution(e))
  {
    match e {
      case Other => t' := t;
      case Skipped(target) => t' := t.(skipped := t.skipped + {target});
      case Test(target, None) => t' := t.(executed := t.executed + {target});
      case Test(target, Some(r)) => t' := AddTestResult(t, target, r);
    }
    assert t.remoteOnly + [] == t.remoteOnly && t.references + [] == t.references;
  }

  /** `_parse_bep_freshness`. */
  method ParseBepFreshness(files: seq<File>, unavailableIsError: bool) returns (r: Outcome)
    ensures r == Parse(files, unavailableIsError)
  {
    var t := NONE;
    for f := 0 to |files|
      invariant t == Total(FileEvents(files[..f]))
      invariant forall j :: 0 <= j < f ==> Readable(files[j])
    {
      assert files[..f + 1][..f] == files[..f];
      var ok;
      t, ok := AddFile(t, FileEvents(files[..f]), files[f]);
      if !ok {
        return if unavailableIsError then Failed else Unavailable;
      }
    }
    assert files[..|files|] == files;
    r := Conclude(t);
  }

  method Conclude(t: Totals) returns (r: Outcome)
    ensures r == if Ambiguous(t) then Failed else Fresh(t)
  {
    if !(t.eligible !! t.cached) { return Failed; }
    if !(t.skipped !! t.executed) { return Failed; }
    r := Fresh(t);
  }

  method AddFile(t: Totals, ghost before: seq<Event>, file: File) returns (t': Totals, ok: bool)
    requires t == Total(before)
    ensures ok <==> Readable(file)
    ensures ok ==> t' == Total(before + Events(file.value))
  {
    if file.None? { return t, false; }
    t', ok := AddLines(t, before, file.value);
  }

  method AddLines(t: Totals, ghost before: seq<Event>, lines: seq<Line>) returns (t': Totals, ok: bool)
    requires t == Total(before)
    ensures ok <==> Invalid !in lines
    ensures ok ==> t' == Total(before + Events(lines))
  {
    t' := t;
    assert before + [] == before;
    for i := 0 to |lines|
      invariant Invalid !in lines[..i]
      invariant t' == Total(before + Events(lines[..i]))
    {
      LinesStep(before, lines, i);
      match lines[i] {
        case Blank =>
        case Invalid => return t', false;
        case Parsed(e) => t' := AddEvent(t', e);
      }
    }
    assert lines[..|lines|] == lines;
    ok := true;
  }

  lemma LinesStep(before: seq<Event>, lines: seq<Line>, i: nat)
    requires i < |lines|
    ensures Total(before + Events(lines[..i + 1]))
         == if lines[i].Parsed? then Merge(Total(before + Events(lines[..i])), Contribution(lines[i].event))
           else Total(before + Events(lines[..i]))
  {
    assert lines[..i + 1][..i] == lines[..i];
    var es := before + Events(lines[..i]);
    if lines[i].Parsed? {
      var more := before + Events(lines[..i + 1]);
      assert more == es + [lines[i].event] && more[..|more| - 1] == es;
    } else {
      assert Events(lines[..i + 1]) == Events(lines[..i]);
    }
  }

  // ---------------------------------------------------------------- the fold is a union, whatever the order

  /** Some event contributes x to the set that `part` selects. */
  ghost predicate Contributed<T(!new)>(events: seq<Event>, part: Totals -> set<T>, x: T) {
    exists e :: e in events && x in part(Contribution(e))
  }

  /** `part` selects one of the sets, so it commutes with merging. */
  ghost predicate SetPart<T(!new)>(part: Totals -> set<T>) {
    part(NONE) == {} && forall a, b :: part(Merge(a, b)) == part(a) + part(b)
  }

  lemma {:induction false} TotalIsUnion<T(!new)>(events: seq<Event>, part: Totals -> set<T>, x: T)
    requires SetPart(part)
    ensures x in part(Total(events)) <==> Contributed(events, part, x)
  {
    if events != [] {
      var k := |events| - 1;
      TotalIsUnion(events[..k], part, x);
      ContributedStep(events, part, x);
      assert part(Total(events)) == part(Total(events[..k])) + part(Contribution(events[k]));
    }
  }

  lemma ContributedStep<T(!new)>(events: seq<Event>, part: Totals -> set<T>, x: T)
    requires events != []
    ensures var k := |events| - 1;
            Contributed(events, part, x) <==> Contributed(events[..k], part, x) || x in part(Contribution(events[k]))
  {
    var k := |events| - 1;
    assert events == events[..k] + [events[k]];
    assert forall e :: e in events <==> e in events[..k] || e == events[k];
  }

  lemma SamePart<T(!new)>(a: seq<Event>, b: seq<Event>, part: Totals -> set<T>)
    requires SetPart(part) && multiset(a) == multiset(b)
    ensures part(Total(a)) == part(Total(b))
  {
    forall x ensures x in part(Total(a)) <==> x in part(Total(b)) {
      TotalIsUnion(a, part, x);
      TotalIsUnion(b, part, x);
      if Contributed(a, part, x) { Moved(a, b, part, x); }
      if Contributed(b, part, x) { Moved(b, a, part, x); }
    }
  }

  lemma Moved<T(!new)>(a: seq<Event>, b: seq<Event>, part: Totals -> set<T>, x: T)
    requires multiset(a) == multiset(b) && Contributed(a, part, x)
    ensures Contributed(b, part, x)
  {
    var e :| e in a && x in part(Contribution(e));
    assert e in multiset(b);
  }

  lemma {:induction false} TotalAppend(a: seq<Event>, b: seq<Event>)
    ensures Total(a + b) == Merge(Total(a), Total(b))
  {
    if b == [] {
      assert a + b == a;
      assert Total(a).remoteOnly + [] == Total(a).remoteOnly && Total(a).references + [] == Total(a).references;
    } else {
      var k := |b| - 1;
      assert (a + b)[..|a + b| - 1] == a + b[..k];
      TotalAppend(a, b[..k]);
      MergeAssociative(Total(a), Total(b[..k]), Contribution(b[k]));
    }
  }

  lemma MergeAssociative(a: Totals, b: Totals, c: Totals)
    ensures Merge(Merge(a, b), c) == Merge(a, Merge(b, c))
  {
    assert a.remoteOnly + b.remoteOnly + c.remoteOnly == a.remoteOnly + (b.remoteOnly + c.remoteOnly);
    assert a.references + b.references + c.references == a.references + (b.references + c.references);
  }

  /** The lists, too, hold the same elements whatever the order of the events. */
  lemma {:induction false} SameLists(a: seq<Event>, b: seq<Event>)
    requires multiset(a) == multiset(b)
    ensures multiset(Total(a).references) == multiset(Total(b).references)
    ensures multiset(Total(a).remoteOnly) == multiset(Total(b).remoteOnly)
    decreases |a|
  {
    if a == [] {
      assert |b| == |multiset(b)| == |multiset(a)| == 0;
    } else {
      var k := |a| - 1;
      var e := a[k];
      var front, back := Extract(a, b);
      SameLists(a[..k], front + back);
      MiddleOut(front, e, back);
    }
  }

  /** The last event of a, found in b. */
  lemma Extract(a: seq<Event>, b: seq<Event>) returns (front: seq<Event>, back: seq<Event>)
    requires multiset(a) == multiset(b) && a != []
    ensures b == front + ([a[|a| - 1]] + back) && multiset(front + back) == multiset(a[..|a| - 1])
  {
    var k := |a| - 1;
    var e := a[k];
    assert a == a[..k] + [e];
    assert e in multiset(b);
    var j :| 0 <= j < |b| && b[j] == e;
    front, back := b[..j], b[j + 1..];
    assert b == front + ([e] + back);
    assert multiset(front + back) == multiset(b) - multiset{e};
  }

  lemma MiddleOut(front: seq<Event>, e: Event, back: seq<Event>)
    ensures multiset(Total(front + ([e] + back)).references) ==
            multiset(Total(front + back).references) + multiset(Contribution(e).references)
    ensures multiset(Total(front + ([e] + back)).remoteOnly) ==
            multiset(Total(front + back).remoteOnly) + multiset(Contribution(e).remoteOnly)
  {
    TotalAppend(front, [e] + back);
    TotalAppend([e], back);
    TotalAppend(front, back);
    OneTotal(e);
  }

  lemma OneTotal(e: Event)
    ensures Total([e]).references == Contribution(e).references && Total([e]).remoteOnly == Contribution(e).remoteOnly
  {
    assert [e][..0] == [];
    assert Total([]) == NONE;
    assert [] + Contribution(e).references == Contribution(e).references;
    assert [] + Contribution(e).remoteOnly == Contribution(e).remoteOnly;
  }

  /** The sets and the ambiguity failure depend only on which events were reported, not on their order. */
  lemma OrderIndependent(a: seq<Event>, b: seq<Event>)
    requires multiset(a) == multiset(b)
    ensures var x, y := Total(a), Total(b);
            && x.eligible == y.eligible && x.cached == y.cached && x.missing == y.missing
            && x.skipped == y.skipped && x.executed == y.executed && (Ambiguous(x) <==> Ambiguous(y))
  {
    SamePart(a, b, (t: Totals) => t.eligible);
    SamePart(a, b, (t: Totals) => t.cached);
    SamePart(a, b, (t: Totals) => t.missing);
    SamePart(a, b, (t: Totals) => t.skipped);
    SamePart(a, b, (t: Totals) => t.executed);
  }

  /** The event is a usable test result whose outputs include x. */
  predicate Reports(e: Event, x: Pair) {
    e.Test? && e.result.Some? && x in Pairs(e.target, e.result.value.outputs)
  }

  /** An eligible output was reported by an event that was not cached and had no counted remote reference. */
  lemma EligibleSource(events: seq<Event>, x: Pair)
    ensures x in Total(events).eligible <==>
            exists e :: e in events && Reports(e, x) && !e.result.value.Cached() && !RemoteAny(e.result.value)
  {
    TotalIsUnion(events, (t: Totals) => t.eligible, x);
    forall e | e in events
      ensures x in Contribution(e).eligible <==>
      Reports(e, x) && !e.result.value.Cached() && !RemoteAny(e.result.value) {}
  }

  lemma CachedSource(events: seq<Event>, x: Pair)
    ensures x in Total(events).cached <==> exists e :: e in events && Reports(e, x) && e.result.value.Cached()
  {
    TotalIsUnion(events, (t: Totals) => t.cached, x);
    forall e | e in events ensures x in Contribution(e).cached <==> Reports(e, x) && e.result.value.Cached() {}
  }

  lemma SkippedSource(events: seq<Event>, target: string)
    ensures target in Total(events).skipped <==> Skipped(target) in events
  {
    TotalIsUnion(events, (t: Totals) => t.skipped, target);
    forall e | e in events ensures target in Contribution(e).skipped <==> e == Skipped(target) {}
  }

  lemma ExecutedSource(events: seq<Event>, target: string)
    ensures target in Total(events).executed <==> exists e :: e in events && e.Test? && e.target == target
  {
    TotalIsUnion(events, (t: Totals) => t.executed, target);
    forall e | e in events ensures target in Contribution(e).executed <==> e.Test? && e.target == target {}
  }

  /** When parsing succeeds, an eligible output is reported cached by no event, and its target is never skipped. */
  lemma FreshIsExclusive(files: seq<File>, unavailableIsError: bool, x: Pair)
    requires Parse(files, unavailableIsError).Fresh? && x in Parse(files, unavailableIsError).totals.eligible
    ensures forall e | e in FileEvents(files) && Reports(e, x) :: !e.result.value.Cached()
    ensures Skipped(x.target) !in FileEvents(files)
  {
    var events := FileEvents(files);
    EligibleSource(events, x);
    CachedSource(events, x);
    SkippedSource(events, x.target);
    ExecutedSource(events, x.target);
    var e :| e in events && Reports(e, x) && !e.result.value.Cached() && !RemoteAny(e.result.value);
    PairTarget(e, x);
  }

  lemma PairTarget(e: Event, x: Pair)
    requires Reports(e, x)
    ensures e.target == x.target
  {
  }

  // ---------------------------------------------------------------- the totals, said of the events

  /** Some event reports result r of the target, with o among its outputs. */
  ghost predicate Shows(events: seq<Event>, target: string, r: Result, o: Output) {
    Test(target, Some(r)) in events && o in r.outputs
  }

  predicate Uncached(r: Result) { !r.cachedLocally && !r.cachedRemotely }

  ghost predicate LooksLikeOutputs(o: Output) { exists c :: c in o.candidates && c.hint }

  /** No output of the result maps to a directory. */
  ghost predicate Unmapped(r: Result) { forall o :: o in r.outputs ==> o.key == "" }

  /** A remote location of o that counts: o looks like test outputs, or nothing in the result maps. */
  ghost predicate CountedRemote(r: Result, o: Output, c: Candidate) {
    c in o.candidates && c.remote && (LooksLikeOutputs(o) || Unmapped(r))
  }

  ghost predicate NothingRemote(r: Result) {
    forall o, c :: o in r.outputs ==> !CountedRemote(r, o, c)
  }

  lemma HintedIs(o: Output)
    ensures Hinted(o) <==> LooksLikeOutputs(o)
  {
    if c :| c in o.candidates && c.hint {
      var i :| 0 <= i < |o.candidates| && o.candidates[i] == c;
    }
  }

  lemma MappedIs(r: Result)
    ensures Mapped(r.outputs) <==> !Unmapped(r)
  {
    if o :| o in r.outputs && o.key != "" {
      var i :| 0 <= i < |r.outputs| && r.outputs[i] == o;
    }
  }

  lemma CountedIs(r: Result, o: Output)
    requires Uncached(r)
    ensures Counted(r, o) <==> exists c :: CountedRemote(r, o, c)
  {
    HintedIs(o);
    MappedIs(r);
    if c :| CountedRemote(r, o, c) {
      var i :| 0 <= i < |o.candidates| && o.candidates[i] == c;
    }
    if Counted(r, o) {
      var i :| 0 <= i < |o.candidates| && o.candidates[i].remote;
      assert CountedRemote(r, o, o.candidates[i]);
    }
  }

  lemma RemoteAnyIs(r: Result)
    requires Uncached(r)
    ensures RemoteAny(r) <==> !NothingRemote(r)
  {
    forall o | o in r.outputs ensures Counted(r, o) <==> exists c :: CountedRemote(r, o, c) { CountedIs(r, o); }
    if o, c :| o in r.outputs && CountedRemote(r, o, c) {
      var i :| 0 <= i < |r.outputs| && r.outputs[i] == o;
    }
  }

  /** An output is eligible exactly when some event shows it uncached, without a remote location that counts. */
  lemma EligibleMeans(events: seq<Event>, x: Pair)
    ensures x in Total(events).eligible <==>
            exists r, o :: Shows(events, x.target, r, o) && o.key == x.key != "" && Uncached(r) && NothingRemote(r)
  {
    EligibleSource(events, x);
    if e :| e in events && Reports(e, x) && !e.result.value.Cached() && !RemoteAny(e.result.value) {
      var r := e.result.value;
      RemoteAnyIs(r);
      var i :| 0 <= i < |r.outputs| && r.outputs[i].key != "" && Pair(e.target, r.outputs[i].key) == x;
      assert Shows(events, x.target, r, r.outputs[i]);
    }
    if r, o :| Shows(events, x.target, r, o) && o.key == x.key != "" && Uncached(r) && NothingRemote(r) {
      RemoteAnyIs(r);
      ShownIsReported(events, x, r, o);
    }
  }

  lemma ShownIsReported(events: seq<Event>, x: Pair, r: Result, o: Output)
    requires Shows(events, x.target, r, o) && o.key == x.key != ""
    ensures Test(x.target, Some(r)) in events && Reports(Test(x.target, Some(r)), x)
  {
    var i :| 0 <= i < |r.outputs| && r.outputs[i] == o;
  }

  /** It is cached exactly when some event shows it cached, locally or remotely. */
  lemma CachedMeans(events: seq<Event>, x: Pair)
    ensures x in Total(events).cached <==>
            exists r, o :: Shows(events, x.target, r, o) && o.key == x.key != "" && !Uncached(r)
  {
    CachedSource(events, x);
    if e :| e in events && Reports(e, x) && e.result.value.Cached() {
      var r := e.result.value;
      var i :| 0 <= i < |r.outputs| && r.outputs[i].key != "" && Pair(e.target, r.outputs[i].key) == x;
      assert Shows(events, x.target, r, r.outputs[i]);
    }
    if r, o :| Shows(events, x.target, r, o) && o.key == x.key != "" && !Uncached(r) {
      ShownIsReported(events, x, r, o);
    }
  }

  /** A target misses its mapping exactly when some event shows it uncached, with no mapped output and nothing
      remote that counts. */
  lemma MissingMeans(events: seq<Event>, target: string)
    ensures target in Total(events).missing <==>
            exists r :: Test(target, Some(r)) in events && Uncached(r) && Unmapped(r) && NothingRemote(r)
  {
    TotalIsUnion(events, (t: Totals) => t.missing, target);
    forall e | e in events
      ensures target in Contribution(e).missing <==>
              e.Test? && e.target == target && e.result.Some? &&
              Uncached(e.result.value) && Unmapped(e.result.value) && NothingRemote(e.result.value)
    {
      if e.Test? && e.result.Some? {
        MappedIs(e.result.value);
        if Uncached(e.result.value) { RemoteAnyIs(e.result.value); }
      }
    }
  }

  // ---------------------------------------------------------------- the lists, said of the events

  lemma {:induction false} ListIsUnion(events: seq<Event>, ref: Reference, x: RemoteOnly)
    ensures ref in Total(events).references <==> exists e :: e in events && ref in Contribution(e).references
    ensures x in Total(events).remoteOnly <==> exists e :: e in events && x in Contribution(e).remoteOnly
  {
    if events != [] {
      var k := |events| - 1;
      ListIsUnion(events[..k], ref, x);
      assert events == events[..k] + [events[k]];
      assert forall e :: e in events <==> e in events[..k] || e == events[k];
    }
  }

  lemma {:induction false} RefsAre(target: string, r: Result, outputs: seq<Output>, ref: Reference)
    ensures ref in RefsOf(target, r, outputs) <==> exists o :: o in outputs && ref == RefOf(target, r, o)
  {
    if outputs != [] {
      var k := |outputs| - 1;
      RefsAre(target, r, outputs[..k], ref);
      assert outputs == outputs[..k] + [outputs[k]];
    }
  }

  /** What a reference records of an output. */
  ghost predicate Records(ref: Reference, target: string, r: Result, o: Output) {
    && ref.target == target && ref.key == o.key && ref.fetchValue == o.fetchValue
    && (ref.cached <==> !Uncached(r)) && (ref.remoteOnly <==> o.fetchRemote)
    && (ref.hint <==> LooksLikeOutputs(o)) && (ref.carrier <==> o.carrierHint && (o.fetchRemote ==> o.key != ""))
  }

  lemma RecordsIs(ref: Reference, target: string, r: Result, o: Output)
    ensures ref == RefOf(target, r, o) <==> Records(ref, target, r, o)
  {
    HintedIs(o);
  }

  /** The references are exactly those that the outputs of usable test results record. */
  lemma ReferenceMeans(events: seq<Event>, ref: Reference)
    ensures ref in Total(events).references <==>
            exists target, r, o :: Shows(events, target, r, o) && Records(ref, target, r, o)
  {
    ListIsUnion(events, ref, RemoteOnly("", "", ""));
    if e :| e in events && ref in Contribution(e).references {
      var r := e.result.value;
      RefsAre(e.target, r, r.outputs, ref);
      var o :| o in r.outputs && ref == RefOf(e.target, r, o);
      RecordsIs(ref, e.target, r, o);
      assert Shows(events, e.target, r, o);
    }
    if target, r, o :| Shows(events, target, r, o) && Records(ref, target, r, o) {
      RecordsIs(ref, target, r, o);
      RefsAre(target, r, r.outputs, ref);
      assert ref in Contribution(Test(target, Some(r))).references;
    }
  }

  lemma {:induction false} RemoteTextsAre(target: string, key: string, candidates: seq<Candidate>, x: RemoteOnly)
    ensures x in RemoteTexts(target, key, candidates) <==>
            x.target == target && x.key == key && exists c :: c in candidates && c.remote && c.text == x.artifact
  {
    if candidates != [] {
      var k := |candidates| - 1;
      RemoteTextsAre(target, key, candidates[..k], x);
      assert candidates == candidates[..k] + [candidates[k]];
    }
  }

  lemma {:induction false} RemotesAre(target: string, r: Result, outputs: seq<Output>, x: RemoteOnly)
    ensures x in RemoteOf(target, r, outputs) <==>
            exists o :: o in outputs && Counted(r, o) && x in RemoteTexts(target, o.key, o.candidates)
  {
    if outputs != [] {
      var k := |outputs| - 1;
      RemotesAre(target, r, outputs[..k], x);
      assert outputs == outputs[..k] + [outputs[k]];
    }
  }

  /** A remote-only output is a remote location that counts, of an output of an uncached result. */
  ghost predicate RemoteFrom(events: seq<Event>, x: RemoteOnly, r: Result, o: Output, c: Candidate) {
    Shows(events, x.target, r, o) && Uncached(r) && CountedRemote(r, o, c) && x.key == o.key && x.artifact == c.text
  }

  lemma RemoteMeans(events: seq<Event>, x: RemoteOnly)
    ensures x in Total(events).remoteOnly <==> exists r, o, c :: RemoteFrom(events, x, r, o, c)
  {
    ListIsUnion(events, Reference("", "", "", false, false, false, false), x);
    if e :| e in events && x in Contribution(e).remoteOnly {
      var r := e.result.value;
      RemotesAre(e.target, r, r.outputs, x);
      var o :| o in r.outputs && Counted(r, o) && x in RemoteTexts(e.target, o.key, o.candidates);
      RemoteTextsAre(e.target, o.key, o.candidates, x);
      var c :| c in o.candidates && c.remote && c.text == x.artifact;
      HintedIs(o);
      MappedIs(r);
      assert Shows(events, e.target, r, o) && RemoteFrom(events, x, r, o, c);
    }
    if r, o, c :| RemoteFrom(events, x, r, o, c) {
      CountedIs(r, o);
      RemoteTextsAre(x.target, o.key, o.candidates, x);
      RemotesAre(x.target, r, r.outputs, x);
      assert x in Contribution(Test(x.target, Some(r))).remoteOnly;
    }
  }

  // ---------------------------------------------------------------- staging

  datatype Mode = Disabled | Download | Required

  /** `_selected_bep_artifact_outputs`. */
  function SelectedOutputs(references: seq<Reference>, mode: Mode): set<Pair> {
    set i | 0 <= i < |references| && Stageable(references[i], mode) :: Pair(references[i].target, references[i].key)
  }

  predicate Stageable(ref: Reference, mode: Mode) {
    !ref.cached && ref.carrier && ref.key != "" && !(ref.remoteOnly && mode.Disabled?)
  }

  /** `_blocked_bep_artifact_labels`. */
  function BlockedTargets(references: seq<Reference>, mode: Mode): set<string> {
    if !mode.Download? then {}
    else
      set i | 0 <= i < |references| && !references[i].cached && references[i].hint && references[i].key == "" ::
        references[i].target
  }

  /** An output of an uncached result that looks like test outputs, but maps to no directory. */
  ghost predicate Unplaced(events: seq<Event>, target: string, r: Result, o: Output) {
    Shows(events, target, r, o) && Uncached(r) && o.key == "" && LooksLikeOutputs(o)
  }

  /** In download mode exactly the targets with such an output are blocked; in the other modes none is. */
  lemma BlockedMeans(events: seq<Event>, mode: Mode, target: string)
    ensures target in BlockedTargets(Total(events).references, mode) <==>
            mode.Download? && exists r, o :: Unplaced(events, target, r, o)
  {
    var refs := Total(events).references;
    if target in BlockedTargets(refs, mode) {
      var i :| 0 <= i < |refs| && !refs[i].cached && refs[i].hint && refs[i].key == "" && refs[i].target == target;
      ReferenceMeans(events, refs[i]);
      var t, r, o :| Shows(events, t, r, o) && Records(refs[i], t, r, o);
      assert Unplaced(events, target, r, o);
    }
    if r, o :| Unplaced(events, target, r, o) {
      var ref := RefOf(target, r, o);
      RecordsIs(ref, target, r, o);
      ReferenceMeans(events, ref);
      var i :| 0 <= i < |refs| && refs[i] == ref;
    }
  }

  /** An output of an uncached result that can be staged: it carries the directory, and is local unless remote
      artifacts are allowed. */
  ghost predicate Carrier(events: seq<Event>, mode: Mode, x: Pair, r: Result, o: Output) {
    && Shows(events, x.target, r, o) && o.key == x.key != "" && Uncached(r) && o.carrierHint
    && (o.fetchRemote ==> !mode.Disabled?)
  }

  lemma SelectedMeans(events: seq<Event>, mode: Mode, x: Pair)
    ensures x in SelectedOutputs(Total(events).references, mode) <==> exists r, o :: Carrier(events, mode, x, r, o)
  {
    var refs := Total(events).references;
    if x in SelectedOutputs(refs, mode) {
      var i :| 0 <= i < |refs| && Stageable(refs[i], mode) && Pair(refs[i].target, refs[i].key) == x;
      ReferenceMeans(events, refs[i]);
      var t, r, o :| Shows(events, t, r, o) && Records(refs[i], t, r, o);
      assert Carrier(events, mode, x, r, o);
    }
    if r, o :| Carrier(events, mode, x, r, o) {
      var ref := RefOf(x.target, r, o);
      RecordsIs(ref, x.target, r, o);
      ReferenceMeans(events, ref);
      var i :| 0 <= i < |refs| && refs[i] == ref;
    }
  }

  /** The freshness object that staging updates. */
  class Freshness {
    var eligible: set<Pair>
    var remoteOnly: seq<RemoteOnly>
    const totals: Totals

    constructor (totals: Totals)
      ensures this.totals == totals && eligible == totals.eligible && remoteOnly == totals.remoteOnly
    {
      this.totals := totals;
      eligible := totals.eligible;
      remoteOnly := totals.remoteOnly;
    }

    /** `_apply_staged_bep_artifacts_to_freshness`: false is its ambiguity failure. */
    method ApplyStaged(staged: set<Pair>) returns (ok: bool)
      modifies this
      ensures ok <==> staged !! totals.cached
      ensures eligible == if ok then old(eligible) + staged else old(eligible)
      ensures remoteOnly == if ok then Unstaged(old(remoteOnly), staged) else old(remoteOnly)
      ensures ok && old(eligible) !! totals.cached ==> eligible !! totals.cached
    {
      if !(staged !! totals.cached) { return false; }
      eligible := eligible + staged;
      if staged != {} {
        remoteOnly := Unstaged(remoteOnly, staged);
      } else {
        UnstagedAll(remoteOnly);
      }
      ok := true;
    }
  }

  /** The remote references that staging did not materialize. */
  function Unstaged(remoteOnly: seq<RemoteOnly>, staged: set<Pair>): seq<RemoteOnly> {
    if remoteOnly == [] then []
    else
      var x := remoteOnly[|remoteOnly| - 1];
      Unstaged(remoteOnly[..|remoteOnly| - 1], staged) + if Pair(x.target, x.key) in staged then [] else [x]
  }

  lemma {:induction false} UnstagedAre(remoteOnly: seq<RemoteOnly>, staged: set<Pair>)
    ensures forall x :: x in Unstaged(remoteOnly, staged) <==> x in remoteOnly && Pair(x.target, x.key) !in staged
  {
    if remoteOnly != [] {
      var k := |remoteOnly| - 1;
      UnstagedAre(remoteOnly[..k], staged);
      assert remoteOnly == remoteOnly[..k] + [remoteOnly[k]];
    }
  }

  lemma {:induction false} UnstagedAll(remoteOnly: seq<RemoteOnly>)
    ensures Unstaged(remoteOnly, {}) == remoteOnly
  {
    if remoteOnly != [] { UnstagedAll(remoteOnly[..|remoteOnly| - 1]); }
  }
}
