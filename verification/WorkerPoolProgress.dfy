/** The pool cannot deadlock and cannot run forever: apart from idle polling by workers,
    every action lowers a measure, and some action is always possible until the end. */
module WorkerPoolProgress {
  import opened WorkerPool

  predicate Final(s: Pool) { s.pc.Returning? || s.pc.Aborted? }

  /** A worker of a live pool that finds nothing to do and polls again. */
  predicate Idle(s: Pool, c: Choice) {
    && c.Work? && c.worker < |s.workers| && !s.shutdown
    && ((s.workers[c.worker].Waiting? && s.queue == []) || s.workers[c.worker].TimedOut?)
  }

  // ---------------------------------------------------------------- the measure

  /** Coordinator actions still ahead; every abort state ranks below every state of the try block. */
  function Rank(p: Plan, pc: Pc, queued: nat): int {
    var n := p.workers;
    var base := 5 * n + 6;
    match pc
    case Starting(j) => base + n + 4 + p.Items() + 2 * (n - j)
    case Registering(j) => base + n + 4 + p.Items() + 2 * (n - j) - 1
    case Putting(k) => base + n + 3 + p.Items() - k
    case JoiningQueue => base + n + 2
    case JoiningThread(j) => base + 1 + n - j
    case Returning => 0
    case Aborting => base - 1
    case Draining => n + 3 + 2 * queued
    case DrainAck => n + 4 + 2 * queued
    case AbortJoin(j) => 2 + n - j
    case AbortJoinQueue => 1
    case Aborted => 0
  }

  function PhaseWeight(x: Phase, shutdown: bool): nat {
    match x
    case NotStarted => 0
    case Waiting => 2
    case TimedOut => if shutdown then 1 else 2
    case Holding(_) => 7
    case Owned(_) => 6
    case Running(_) => 5
    case Processed(_, _) => 4
    case Acking => 3
    case Leaving => 3
    case Exited => 0
  }

  function Weights(ws: seq<Phase>, shutdown: bool): nat {
    if ws == [] then 0 else Weights(ws[..|ws| - 1], shutdown) + PhaseWeight(ws[|ws| - 1], shutdown)
  }

  lemma {:induction false} WeightsUpdate(ws: seq<Phase>, shutdown: bool, w: nat, x: Phase)
    requires w < |ws|
    ensures Weights(ws[w := x], shutdown) ==
            Weights(ws, shutdown) - PhaseWeight(ws[w], shutdown) + PhaseWeight(x, shutdown)
  {
    var last := |ws| - 1;
    if w == last {
      assert ws[w := x][..last] == ws[..last];
    } else {
      assert ws[w := x][..last] == ws[..last][w := x];
      WeightsUpdate(ws[..last], shutdown, w, x);
    }
  }

  lemma {:induction false} WeightsBound(ws: seq<Phase>, shutdown: bool)
    ensures Weights(ws, shutdown) <= 7 * |ws|
  {
    if ws != [] {
      WeightsBound(ws[..|ws| - 1], shutdown);
    }
  }

  /** Work left for the workers. */
  function Load(s: Pool): nat { 6 * |s.queue| + Weights(s.workers, s.shutdown) }

  function Measure(p: Plan, s: Pool): int {
    Rank(p, s.pc, |s.queue|) * (19 * p.workers + 1) + Load(s)
  }

  lemma RankNonnegative(p: Plan, s: Pool)
    requires Inv(p, s)
    ensures Rank(p, s.pc, |s.queue|) >= 0
    ensures Load(s) <= 19 * p.workers
    ensures Measure(p, s) >= 0
  {
    WeightsBound(s.workers, s.shutdown);
    var r := Rank(p, s.pc, |s.queue|);
    assert r >= 0;
    assert r * (19 * p.workers + 1) >= 0;
  }

  /** The lexicographic order (rank, load) is the order of the measure. */
  lemma Lexicographic(r: int, r': int, b: int, load: int, load': int)
    requires 0 <= load <= b && 0 <= load' <= b
    ensures r' < r ==> r' * (b + 1) + load' < r * (b + 1) + load
    ensures r' <= r && load' < load ==> r' * (b + 1) + load' < r * (b + 1) + load
  {
    if r' < r {
      assert r' * (b + 1) <= (r - 1) * (b + 1) == r * (b + 1) - (b + 1);
    } else if r' == r {
    }
  }

  // ---------------------------------------------------------------- every productive action lowers it

  lemma CoordinatorRank(p: Plan, s: Pool, c: Choice)
    requires p.Valid() && Inv(p, s) && Enabled(p, s, c) && !c.Work?
    ensures Rank(p, Apply(p, s, c).pc, |Apply(p, s, c).queue|) < Rank(p, s.pc, |s.queue|)
  {
    if c.Coordinate? {
      AdvanceRank(p, s);
    }
  }

  lemma AdvanceRank(p: Plan, s: Pool)
    requires p.Valid() && Inv(p, s) && CoordinatorEnabled(p, s)
    ensures Rank(p, CoordinatorStep(p, s).pc, |CoordinatorStep(p, s).queue|) < Rank(p, s.pc, |s.queue|)
  {
  }

  lemma WorkerLoad(p: Plan, s: Pool, w: nat, outcome: Outcome)
    requires w < |s.workers| && WorkerEnabled(s, w)
    ensures var s' := WorkerStep(p, s, w, outcome);
            && s'.pc == s.pc && |s'.queue| <= |s.queue|
            && (if Idle(s, Work(w, outcome)) then Load(s') == Load(s) && s'.queue == s.queue else Load(s') < Load(s))
  {
    var s' := WorkerStep(p, s, w, outcome);
    WorkerShape(p, s, w, outcome);
    WorkerWeight(p, s, w, outcome);
    WeightsUpdate(s.workers, s.shutdown, w, s'.workers[w]);
  }

  lemma WorkerShape(p: Plan, s: Pool, w: nat, outcome: Outcome)
    requires w < |s.workers| && WorkerEnabled(s, w)
    ensures var s' := WorkerStep(p, s, w, outcome);
            && s'.pc == s.pc && s'.shutdown == s.shutdown && |s'.workers| == |s.workers| &&
                 s'.workers == s.workers[w := s'.workers[w]]
            && (s'.queue == s.queue || (s.queue != [] && s'.queue == s.queue[1..]))
  {
  }

  lemma WorkerWeight(p: Plan, s: Pool, w: nat, outcome: Outcome)
    requires w < |s.workers| && WorkerEnabled(s, w)
    ensures var s' := WorkerStep(p, s, w, outcome);
            && |s'.workers| == |s.workers|
            && var before, after := 6 * |s.queue| + PhaseWeight(s.workers[w], s.shutdown), 6 * |s'.queue| +
                 PhaseWeight(s'.workers[w], s.shutdown);
               if Idle(s, Work(w, outcome)) then after == before && s'.queue == s.queue else after < before
  {
  }

  lemma StepMeasure(p: Plan, s: Pool, c: Choice)
    requires p.Valid() && Inv(p, s) && Enabled(p, s, c)
    ensures if Idle(s, c) then Measure(p, Apply(p, s, c)) == Measure(p, s)
            else Measure(p, Apply(p, s, c)) < Measure(p, s)
  {
    var s' := Apply(p, s, c);
    StepInv(p, s, c);
    RankNonnegative(p, s);
    RankNonnegative(p, s');
    if c.Work? {
      WorkerLoad(p, s, c.worker, c.outcome);
    } else {
      CoordinatorRank(p, s, c);
    }
    Lexicographic(Rank(p, s.pc, |s.queue|), Rank(p, s'.pc, |s'.queue|), 19 * p.workers, Load(s), Load(s'));
  }

  function Productive(p: Plan, cs: seq<Choice>): nat
    requires Schedule(p, cs)
  {
    if cs == [] then 0
    else Productive(p, cs[..|cs| - 1]) + if Idle(Exec(p, cs[..|cs| - 1]), cs[|cs| - 1]) then 0 else 1
  }

  /** No schedule, however the workers interleave and wherever the interrupt falls, takes more
      than a fixed number of actions besides idle polling. */
  lemma {:induction false} BoundedWork(p: Plan, cs: seq<Choice>)
    requires p.Valid() && Schedule(p, cs)
    ensures Productive(p, cs) <= Measure(p, Initial(p)) - Measure(p, Exec(p, cs))
    ensures Productive(p, cs) <= Measure(p, Initial(p))
  {
    Reachable(p, cs);
    RankNonnegative(p, Exec(p, cs));
    if cs != [] {
      var before := cs[..|cs| - 1];
      BoundedWork(p, before);
      Reachable(p, before);
      StepMeasure(p, Exec(p, before), cs[|cs| - 1]);
    }
  }

  // ---------------------------------------------------------------- no deadlock

  /** A worker that owes an acknowledgement can always act, and that lowers the load. */
  lemma UnackedActs(p: Plan, s: Pool, w: nat)
    requires Inv(p, s) && w < |s.workers| && Unacked(s.workers[w])
    ensures WorkerEnabled(s, w) && !Idle(s, Work(w, Raised("")))
  {
    CountBound(s.workers, Unacked);
    CountBound(s.workers, IsActive);
  }

  lemma SomeUnacked(s: Pool) returns (w: nat)
    requires CountIf(s.workers, Unacked) > 0
    ensures w < |s.workers| && Unacked(s.workers[w])
  {
    CountBound(s.workers, Unacked);
    w :| 0 <= w < |s.workers| && Unacked(s.workers[w]);
  }

  /** While an item is queued and no shutdown was requested, some worker is still there to take it. */
  lemma SomeTaker(p: Plan, s: Pool) returns (w: nat)
    requires p.Valid() && Inv(p, s) && s.queue != [] && !s.shutdown && s.registered == p.workers
    ensures w < |s.workers| && !TookStop(s.workers[w]) && !s.workers[w].NotStarted?
  {
    CountBound(s.workers, TookStop);
    w :| 0 <= w < |s.workers| && !TookStop(s.workers[w]);
    assert Lives(s.workers)[w] == LifeOf(s.workers[w]);
  }

  /** After the queue has been joined normally, every worker has taken its stop marker and left. */
  lemma JoinedWorkersExited(p: Plan, s: Pool)
    requires p.Valid() && Inv(p, s) && s.pc.JoiningThread?
    ensures forall w | 0 <= w < |s.workers| :: s.workers[w].Exited?
  {
    CountBound(s.workers, Unacked);
    CountBound(s.workers, TookStop);
    forall w | 0 <= w < |s.workers| ensures s.workers[w].Exited? {
      assert TookStop(s.workers[w]) && !Unacked(s.workers[w]);
    }
  }

  /** A worker that can make the pool advance when the coordinator is blocked. */
  lemma SomeWorkerActs(p: Plan, s: Pool) returns (w: nat)
    requires p.Valid() && Inv(p, s) && !Final(s) && !CoordinatorEnabled(p, s)
    ensures w < |s.workers| && WorkerEnabled(s, w)
    ensures !Idle(s, Work(w, Raised(""))) || (s.workers[w].TimedOut? && s.queue != [])
  {
    if CountIf(s.workers, Unacked) > 0 {
      w := SomeUnacked(s);
      UnackedActs(p, s, w);
    } else {
      CountBound(s.workers, Unacked);
      if s.pc.JoiningThread? {
        JoinedWorkersExited(p, s);
        assert false;
      } else if s.pc.AbortJoin? {
        w := s.pc.j;
        assert Lives(s.workers)[w] == LifeOf(s.workers[w]);
      } else {
        w := SomeTaker(p, s);
      }
    }
  }

  /** `all` takes up where `cs` stops and adds no interrupt and no failing thread start. */
  ghost predicate Continues(cs: seq<Choice>, all: seq<Choice>) {
    && |cs| <= |all| && all[..|cs|] == cs
    && (forall k :: |cs| <= k < |all| ==> all[k].Coordinate? || all[k].Work?)
  }

  lemma ContinuesTransitive(a: seq<Choice>, b: seq<Choice>, c: seq<Choice>)
    requires Continues(a, b) && Continues(b, c)
    ensures Continues(a, c)
  {
    assert c[..|a|] == b[..|a|];
    forall k | |a| <= k < |c| ensures c[k].Coordinate? || c[k].Work? {
      if k < |b| {
        assert c[k] == b[k];
      }
    }
  }

  /** From every reachable state short of the end, at most two actions, none of them an interrupt,
      bring the pool strictly closer to it. */
  lemma NoDeadlock(p: Plan, cs: seq<Choice>) returns (more: seq<Choice>)
    requires p.Valid() && Schedule(p, cs) && !Final(Exec(p, cs))
    ensures Continues(cs, more) && 1 <= |more| - |cs| <= 2
    ensures Schedule(p, more) && Measure(p, Exec(p, more)) < Measure(p, Exec(p, cs))
  {
    Reachable(p, cs);
    if CoordinatorEnabled(p, Exec(p, cs)) {
      more := OneMore(p, cs, Coordinate);
    } else {
      var w := SomeWorkerActs(p, Exec(p, cs));
      var c := Work(w, Raised(""));
      more := OneMore(p, cs, c);
      if Idle(Exec(p, cs), c) {
        Reachable(p, more);
        more := OneMore(p, more, c);
      }
    }
  }

  /** One more action: a productive one lowers the measure; a worker that polls an occupied queue waits to take an
      item. */
  lemma OneMore(p: Plan, cs: seq<Choice>, c: Choice) returns (more: seq<Choice>)
    requires p.Valid() && Schedule(p, cs) && Inv(p, Exec(p, cs)) && Enabled(p, Exec(p, cs), c)
    requires (c.Coordinate? || c.Work?)
    ensures more == cs + [c] && Continues(cs, more) && Schedule(p, more)
    ensures var s, s' := Exec(p, cs), Exec(p, more);
            if Idle(s, c)
            then Measure(p, s') == Measure(p, s) &&
            (s.workers[c.worker].TimedOut? && s.queue != [] ==> Enabled(p, s', c) && !Idle(s', c))
            else Measure(p, s') < Measure(p, s)
  {
    Extend(p, cs, c);
    StepMeasure(p, Exec(p, cs), c);
    more := cs + [c];
  }

  /** Hence every reachable state can be completed without a further interrupt. */
  lemma {:induction false} Completes(p: Plan, cs: seq<Choice>, bound: nat) returns (all: seq<Choice>)
    requires p.Valid() && Schedule(p, cs) && Measure(p, Exec(p, cs)) <= bound
    ensures Continues(cs, all) && Schedule(p, all) && Final(Exec(p, all))
    decreases bound
  {
    if Final(Exec(p, cs)) {
      all := cs;
    } else {
      var more := NoDeadlock(p, cs);
      Reachable(p, more);
      RankNonnegative(p, Exec(p, more));
      all := Completes(p, more, bound - 1);
      ContinuesTransitive(cs, more, all);
    }
  }

  /** Only an interrupt or a failing thread start leads to an abort. */
  lemma {:induction false} Uninterrupted(p: Plan, cs: seq<Choice>)
    requires p.Valid() && Schedule(p, cs) && Continues([], cs)
    ensures InTry(Exec(p, cs).pc) || Exec(p, cs).pc.Returning?
  {
    if cs != [] {
      Uninterrupted(p, cs[..|cs| - 1]);
    }
  }

  /** For every plan, every uninterrupted run can be completed to a normal return. */
  lemma NormalCompletion(p: Plan, cs: seq<Choice>) returns (all: seq<Choice>)
    requires p.Valid() && Schedule(p, cs) && Continues([], cs)
    ensures Continues(cs, all) && Schedule(p, all) && Exec(p, all).pc.Returning?
  {
    Reachable(p, cs);
    RankNonnegative(p, Exec(p, cs));
    all := Completes(p, cs, Measure(p, Exec(p, cs)));
    ContinuesTransitive([], cs, all);
    Uninterrupted(p, all);
  }
}
