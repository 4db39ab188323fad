/** What every schedule of the pool guarantees: one place per task at all times, one result
    per task after a normal return, and a settled pool after an interrupt. */
module WorkerPoolSafety {
  import opened Counting
  import opened WorkerPool

  // ---------------------------------------------------------------- one place per task

  predicate NotPut(s: Pool, i: nat) { s.enqueued <= i }

  ghost predicate Queued(s: Pool, i: nat) { exists j :: 0 <= j < |s.queue| && s.queue[j] == Task(i) }

  ghost predicate InHand(s: Pool, i: nat) {
    exists w :: 0 <= w < |s.workers| && !HandOf(s.workers[w]).Free? && HandOf(s.workers[w]).task == i
  }

  ghost predicate HasResult(p: Plan, s: Pool, i: nat)
    requires i < |p.ids|
  {
    p.ids[i] in Ids(s.results)
  }

  function Ids(rs: seq<FileResult>): (r: seq<TaskId>)
    ensures |r| == |rs|
  {
    seq(|rs|, k requires 0 <= k < |rs| => rs[k].taskId)
  }

  predicate WasDropped(s: Pool, i: nat) { i < |s.fates| && s.fates[i].Dropped? }

  function One(b: bool): nat { if b then 1 else 0 }

  lemma HandsOf(p: Plan, s: Pool, w: nat)
    requires Inv(p, s) && w < |s.workers| && !HandOf(s.workers[w]).Free?
    ensures var i := HandOf(s.workers[w]).task;
            i < |s.fates| && s.fates[i] == if HandOf(s.workers[w]).Fetched? then HeldBy(w) else StartedBy(w)
  {
    assert Hands(s.workers)[w] == HandOf(s.workers[w]);
  }

  /** The fate of a task that left the queue says which one of hand, result and drop applies. */
  lemma FateDecides(p: Plan, s: Pool, i: nat)
    requires p.Valid() && Inv(p, s) && i < |s.fates|
    ensures i < |p.ids|
    ensures InHand(s, i) <==> s.fates[i].HeldBy? || s.fates[i].StartedBy?
    ensures HasResult(p, s, i) <==> s.fates[i].Done?
  {
    assert FateOk(Hands(s.workers), s.fates[i], i, s.order, s.shutdown);
    match s.fates[i] {
      case HeldBy(w) => assert Hands(s.workers)[w] == HandOf(s.workers[w]);
      case StartedBy(w) => assert Hands(s.workers)[w] == HandOf(s.workers[w]);
      case Done(k) => assert Ids(s.results)[k] == p.ids[s.order[k]];
      case Dropped =>
    }
    if InHand(s, i) {
      var w :| 0 <= w < |s.workers| && !HandOf(s.workers[w]).Free? && HandOf(s.workers[w]).task == i;
      HandsOf(p, s, w);
    }
    if HasResult(p, s, i) {
      var k :| 0 <= k < |s.results| && Ids(s.results)[k] == p.ids[i];
      assert s.order[k] == i;
    }
  }

  lemma QueueHoldsTail(p: Plan, s: Pool, i: nat)
    requires p.Valid() && Inv(p, s) && i < |p.ids|
    ensures Queued(s, i) <==> Taken(s) <= i < s.enqueued
  {
    if Taken(s) <= i < s.enqueued {
      assert s.queue[i - Taken(s)] == p.ItemAt(Taken(s) + (i - Taken(s)));
    }
  }

  /** In every reachable state each planned task is in exactly one place, and in that place once. */
  lemma OnePlace(p: Plan, cs: seq<Choice>, i: nat)
    requires p.Valid() && Schedule(p, cs) && i < |p.ids|
    ensures var s := Exec(p, cs);
            One(NotPut(s, i)) + One(Queued(s, i)) + One(InHand(s, i)) + One(HasResult(p, s, i)) +
              One(WasDropped(s, i)) == 1
  {
    var s := Exec(p, cs);
    Reachable(p, cs);
    QueueHoldsTail(p, s, i);
    if i < |s.fates| {
      FateDecides(p, s, i);
    } else {
      if InHand(s, i) {
        var w :| 0 <= w < |s.workers| && !HandOf(s.workers[w]).Free? && HandOf(s.workers[w]).task == i;
        HandsOf(p, s, w);
      }
      forall k | 0 <= k < |s.results| ensures s.results[k].taskId != p.ids[i] {
        assert s.order[k] < |s.fates|;
      }
    }
  }

  /** No two workers hold the same task and no task is published twice. */
  lemma NoSharing(p: Plan, cs: seq<Choice>)
    requires p.Valid() && Schedule(p, cs)
    ensures var s := Exec(p, cs);
            && (forall v, w | 0 <= v < w < |s.workers| && !HandOf(s.workers[v]).Free? && !HandOf(s.workers[w]).Free? ::
                  HandOf(s.workers[v]).task != HandOf(s.workers[w]).task)
            && Distinct(Ids(s.results))
  {
    var s := Exec(p, cs);
    Reachable(p, cs);
    forall v, w | 0 <= v < w < |s.workers| && !HandOf(s.workers[v]).Free? && !HandOf(s.workers[w]).Free?
      ensures HandOf(s.workers[v]).task != HandOf(s.workers[w]).task
    {
      HandsOf(p, s, v);
      HandsOf(p, s, w);
    }
    forall k, l | 0 <= k < l < |s.results| ensures Ids(s.results)[k] != Ids(s.results)[l] {
      assert s.fates[s.order[k]] == Done(k) && s.fates[s.order[l]] == Done(l);
      assert s.order[k] != s.order[l];
    }
  }

  /** Queue accounting: task_done is owed for exactly the queued items and those being handled. */
  lemma Accounting(p: Plan, cs: seq<Choice>)
    requires p.Valid() && Schedule(p, cs)
    ensures var s := Exec(p, cs);
            && s.unfinished == |s.queue| + CountIf(s.workers, Unacked) + One(s.pc.DrainAck?)
            && |s.queue| <= p.Capacity()
            && s.active == CountIf(s.workers, IsActive) <= s.peak <= p.workers
  {
    Reachable(p, cs);
  }

  lemma OrderDistinct(p: Plan, s: Pool)
    requires Inv(p, s)
    ensures Distinct(s.order)
  {
    forall k, l | 0 <= k < l < |s.order| ensures s.order[k] != s.order[l] {
      assert s.fates[s.order[k]] == Done(k) && s.fates[s.order[l]] == Done(l);
    }
  }

  // ---------------------------------------------------------------- the two ways out

  /** A normal return leaves nothing queued, running or owed, and exactly one result per task. */
  lemma NormalReturn(p: Plan, cs: seq<Choice>)
    requires p.Valid() && Schedule(p, cs) && Exec(p, cs).pc.Returning?
    ensures var s := Exec(p, cs);
            && s.queue == [] && s.unfinished == 0 && s.active == 0 && !s.shutdown
            && (forall w | 0 <= w < |s.workers| :: s.workers[w].Exited?)
            && (forall i | 0 <= i < |p.ids| :: HasResult(p, s, i))
            && (forall id | id in Ids(s.results) :: id in p.ids)
            && |s.results| == |p.ids|
  {
    var s := Exec(p, cs);
    Reachable(p, cs);
    AllGone(s, p.workers);
    CountBound(s.workers, IsActive);
    forall i | 0 <= i < |p.ids| ensures HasResult(p, s, i) && i in s.order {
      FateDecides(p, s, i);
      assert FateOk(Hands(s.workers), s.fates[i], i, s.order, s.shutdown);
      NoHands(s, i);
    }
    OrderDistinct(p, s);
    IndexCover(s.order, |p.ids|);
  }

  lemma AllGone(s: Pool, n: nat)
    requires GoneUpTo(Lives(s.workers), n)
    ensures forall w | 0 <= w < n :: s.workers[w].Exited?
  {
    forall w | 0 <= w < n ensures s.workers[w].Exited? {
      assert Lives(s.workers)[w] == LifeOf(s.workers[w]);
    }
  }

  lemma NoHands(s: Pool, i: nat)
    requires forall w | 0 <= w < |s.workers| :: HandOf(s.workers[w]).Free?
    ensures !InHand(s, i)
  {
  }

  /** After an interrupt no worker, not even one that was never registered, has a task in its hands. */
  lemma AbortedHands(p: Plan, s: Pool)
    requires p.Valid() && Inv(p, s) && s.pc.Aborted?
    ensures s.registered <= |s.workers|
    ensures forall w | 0 <= w < s.registered :: s.workers[w].Exited?
    ensures forall w | 0 <= w < |s.workers| :: HandOf(s.workers[w]).Free?
  {
    AllGone(s, s.registered);
    forall w | 0 <= w < |s.workers| ensures HandOf(s.workers[w]).Free? {
      if w >= s.registered {
        assert Hands(s.workers)[w] == HandOf(s.workers[w]) && Lives(s.workers)[w] == LifeOf(s.workers[w]);
      }
    }
  }

  lemma AbortedTask(p: Plan, s: Pool, i: nat)
    requires p.Valid() && Inv(p, s) && s.pc.Aborted? && i < |p.ids|
    ensures HasResult(p, s, i) <==> i in s.started
    ensures i in s.started <==> i in s.order
    ensures i !in s.started ==> NotPut(s, i) || WasDropped(s, i)
  {
    AbortedHands(p, s);
    NoHands(s, i);
    if i < |s.fates| {
      FateDecides(p, s, i);
      assert FateOk(Hands(s.workers), s.fates[i], i, s.order, s.shutdown);
    } else {
      forall k | 0 <= k < |s.results| ensures s.results[k].taskId != p.ids[i] && s.order[k] != i {
        assert s.order[k] < |s.fates|;
      }
    }
  }

  /** After an interrupt (or a failed thread start): nothing is queued or owed, every registered
      worker has exited, exactly the started tasks have a result, and every other task was
      either never enqueued or dropped untouched. */
  lemma InterruptedReturn(p: Plan, cs: seq<Choice>)
    requires p.Valid() && Schedule(p, cs) && Exec(p, cs).pc.Aborted?
    ensures Exec(p, cs).queue == [] && Exec(p, cs).unfinished == 0
    ensures Exec(p, cs).registered <= |Exec(p, cs).workers|
    ensures forall w | 0 <= w < Exec(p, cs).registered :: Exec(p, cs).workers[w].Exited?
    ensures forall w | 0 <= w < |Exec(p, cs).workers| :: HandOf(Exec(p, cs).workers[w]).Free?
    ensures forall i | 0 <= i < |p.ids| :: HasResult(p, Exec(p, cs), i) <==> i in Exec(p, cs).started
    ensures forall i | 0 <= i < |p.ids| && i !in Exec(p, cs).started ::
            NotPut(Exec(p, cs), i) || WasDropped(Exec(p, cs), i)
    ensures |Exec(p, cs).results| == |Exec(p, cs).started| <= |p.ids|
    ensures forall id | id in Ids(Exec(p, cs).results) :: id in p.ids
  {
    var s := Exec(p, cs);
    Reachable(p, cs);
    AbortedHands(p, s);
    forall i | 0 <= i < |p.ids|
      ensures (HasResult(p, s, i) <==> i in s.started) && (i in s.started <==> i in s.order)
      ensures i !in s.started ==> NotPut(s, i) || WasDropped(s, i)
    {
      AbortedTask(p, s, i);
    }
    OrderDistinct(p, s);
    DistinctSize(s.order, s.started);
    IndexCover(s.order, |p.ids|);
  }

  /** No live thread is left behind unless the interrupt fell between starting a thread and recording it. */
  lemma EveryThreadJoined(p: Plan, cs: seq<Choice>)
    requires p.Valid() && Schedule(p, cs) && Exec(p, cs).pc.Aborted? && !Exec(p, cs).gap
    ensures forall w | 0 <= w < |Exec(p, cs).workers| ::
              Exec(p, cs).workers[w].Exited? || Exec(p, cs).workers[w].NotStarted?
  {
    Reachable(p, cs);
    AbortedThreads(p, Exec(p, cs));
  }

  lemma AbortedThreads(p: Plan, s: Pool)
    requires p.Valid() && Inv(p, s) && s.pc.Aborted? && !s.gap
    ensures forall w | 0 <= w < |s.workers| :: s.workers[w].Exited? || s.workers[w].NotStarted?
  {
    AllGone(s, s.registered);
    forall w | s.registered <= w < |s.workers| ensures s.workers[w].NotStarted? {
      assert Lives(s.workers)[w] == LifeOf(s.workers[w]);
    }
  }

  /** Until the first put nothing is queued or owed, and a worker does nothing but poll. */
  ghost predicate Polling(s: Pool) {
    && s.queue == [] && s.unfinished == 0
    && (forall w :: 0 <= w < |s.workers| ==> s.workers[w].NotStarted? || Polls(s.workers[w]))
  }

  predicate Polls(x: Phase) { x.Waiting? || x.TimedOut? }

  lemma PollingStep(p: Plan, s: Pool, c: Choice)
    requires Enabled(p, s, c) && (s.pc.Starting? || s.pc.Registering?) && Polling(s) && !s.shutdown
    ensures !Apply(p, s, c).shutdown
    ensures Apply(p, s, c).pc.Starting? || Apply(p, s, c).pc.Registering? ==> Polling(Apply(p, s, c))
  {
  }

  lemma StartingBefore(p: Plan, s: Pool, c: Choice)
    requires Enabled(p, s, c) && (Apply(p, s, c).pc.Starting? || Apply(p, s, c).pc.Registering?)
    ensures s.pc.Starting? || s.pc.Registering?
  {
  }

  lemma {:induction false} StartsPolling(p: Plan, cs: seq<Choice>)
    requires p.Valid() && Schedule(p, cs) && (Exec(p, cs).pc.Starting? || Exec(p, cs).pc.Registering?)
    ensures Polling(Exec(p, cs)) && !Exec(p, cs).shutdown
  {
    if cs != [] {
      StartingBefore(p, Exec(p, cs[..|cs| - 1]), cs[|cs| - 1]);
      StartsPolling(p, cs[..|cs| - 1]);
      PollingStep(p, Exec(p, cs[..|cs| - 1]), cs[|cs| - 1]);
    }
  }

  /** `all` takes up where `cs` stops. */
  ghost predicate Follows(cs: seq<Choice>, all: seq<Choice>) { |cs| <= |all| && all[..|cs|] == cs }

  /** A registered worker that polls leaves after at most two steps of its own. */
  lemma Dismiss(p: Plan, cs: seq<Choice>, i: nat) returns (all: seq<Choice>)
    requires Schedule(p, cs) && Exec(p, cs).shutdown && Exec(p, cs).queue == []
    requires i < |Exec(p, cs).workers| && Polls(Exec(p, cs).workers[i])
    ensures Follows(cs, all) && Schedule(p, all)
    ensures Exec(p, all) == Exec(p, cs).(workers := Exec(p, cs).workers[i := Exited])
  {
    var leave := Work(i, Raised(""));
    all := cs;
    if Exec(p, cs).workers[i].Waiting? {
      Extend(p, all, leave);
      all := all + [leave];
    }
    Extend(p, all, leave);
    all := all + [leave];
  }

  /** The handler with threads 0 to i - 1 joined, and thread j about to be forgotten. */
  ghost predicate Joined(s: Pool, i: nat, j: nat) {
    && s.pc == AbortJoin(i) && s.shutdown && s.queue == [] && s.unfinished == 0
    && s.registered == j < |s.workers| && i <= j
    && (forall w :: i <= w <= j ==> Polls(s.workers[w]))
  }

  lemma JoinNext(p: Plan, cs: seq<Choice>, i: nat, j: nat) returns (all: seq<Choice>)
    requires Schedule(p, cs) && Joined(Exec(p, cs), i, j) && i < j
    ensures Follows(cs, all) && Schedule(p, all) && Joined(Exec(p, all), i + 1, j)
    ensures Exec(p, all).gap == Exec(p, cs).gap
  {
    all := Dismiss(p, cs, i);
    Extend(p, all, Coordinate);
    all := all + [Coordinate];
  }

  lemma InterruptDrains(p: Plan, cs: seq<Choice>) returns (all: seq<Choice>)
    requires p.Valid() && Schedule(p, cs) && Exec(p, cs).pc.Registering?
    ensures Follows(cs + [Interrupt], all) && Schedule(p, all)
    ensures Joined(Exec(p, all), 0, Exec(p, cs).pc.j) && Exec(p, all).gap
  {
    var s := Exec(p, cs);
    Reachable(p, cs);
    StartsPolling(p, cs);
    forall w | 0 <= w <= s.pc.j ensures Polls(s.workers[w]) {
      assert Lives(s.workers)[w] == LifeOf(s.workers[w]);
    }
    Extend(p, cs, Interrupt);
    all := cs + [Interrupt];
    Extend(p, all, Coordinate);
    all := all + [Coordinate];
    Extend(p, all, Coordinate);
    all := all + [Coordinate];
  }

  /** In that window the promise fails: whatever happened before, when the interrupt comes while thread j is
      started but not recorded, the coordinator can return while worker j is alive. */
  lemma WindowLosesWorker(p: Plan, cs: seq<Choice>) returns (all: seq<Choice>)
    requires p.Valid() && Schedule(p, cs) && Exec(p, cs).pc.Registering?
    ensures Follows(cs + [Interrupt], all) && Schedule(p, all)
    ensures Exec(p, all).pc.Aborted? && Exec(p, all).gap
    ensures var j := Exec(p, cs).pc.j;
            Exec(p, all).registered == j < |Exec(p, all).workers| && Polls(Exec(p, all).workers[j])
  {
    var j := Exec(p, cs).pc.j;
    all := InterruptDrains(p, cs);
    for i := 0 to j
      invariant Follows(cs + [Interrupt], all) && Schedule(p, all) && Joined(Exec(p, all), i, j) && Exec(p, all).gap
    {
      var before := all;
      all := JoinNext(p, before, i, j);
      assert all[..|cs| + 1] == before[..|cs| + 1];
    }
    Extend(p, all, Coordinate);
    all := all + [Coordinate];
    Extend(p, all, Coordinate);
    all := all + [Coordinate];
  }

  /** The window opens once for every thread of every plan. */
  lemma UnjoinedWorker(p: Plan, j: nat) returns (cs: seq<Choice>)
    requires p.Valid() && j < p.workers
    ensures Schedule(p, cs) && Exec(p, cs).pc.Aborted? && Exec(p, cs).gap
    ensures Exec(p, cs).registered == j < |Exec(p, cs).workers| && Polls(Exec(p, cs).workers[j])
  {
    cs := [];
    for i := 0 to j
      invariant Schedule(p, cs) && Exec(p, cs).pc == Starting(i) && |Exec(p, cs).workers| == p.workers
    {
      Extend(p, cs, Coordinate);
      cs := cs + [Coordinate];
      Extend(p, cs, Coordinate);
      cs := cs + [Coordinate];
    }
    Extend(p, cs, Coordinate);
    cs := WindowLosesWorker(p, cs + [Coordinate]);
  }

  // ---------------------------------------------------------------- results are what process_file did

  /** Step n of the schedule is the return of `process_file` for task i. */
  ghost predicate Processes(p: Plan, cs: seq<Choice>, n: nat, i: nat) {
    && n < |cs| && cs[n].Work? && Schedule(p, cs[..n])
    && cs[n].worker < |Exec(p, cs[..n]).workers| && Exec(p, cs[..n]).workers[cs[n].worker] == Running(i)
  }

  /** r is the result of a `process_file` call for task i that took place in the schedule. */
  ghost predicate Ran(p: Plan, cs: seq<Choice>, i: nat, r: FileResult) {
    i < |p.ids| && exists n: nat :: Processes(p, cs, n, i) && Reports(p.ids[i], cs[n].outcome, r)
  }

  /** Every result, published or about to be, comes from such a call. */
  ghost predicate Told(p: Plan, cs: seq<Choice>, s: Pool) {
    && |s.order| == |s.results|
    && (forall w :: 0 <= w < |s.workers| && s.workers[w].Processed? ==>
         Ran(p, cs, s.workers[w].task, s.workers[w].result))
    && (forall k :: 0 <= k < |s.results| ==> Ran(p, cs, s.order[k], s.results[k]))
  }

  lemma RanLater(p: Plan, cs: seq<Choice>, c: Choice, i: nat, r: FileResult)
    requires Ran(p, cs, i, r)
    ensures Ran(p, cs + [c], i, r)
  {
    var n: nat :| Processes(p, cs, n, i) && Reports(p.ids[i], cs[n].outcome, r);
    assert (cs + [c])[..n] == cs[..n];
    assert Processes(p, cs + [c], n, i);
  }

  /** The worker's result is as old as s, or the one that step c makes of its task. */
  ghost predicate FromStep(p: Plan, s: Pool, c: Choice, w: nat, x: Phase)
    requires x.Processed? && w < |s.workers|
  {
    || s.workers[w] == x
    || (c.Work? && c.worker == w && s.workers[w] == Running(x.task) && x.task < |p.ids| &&
        Reports(p.ids[x.task], c.outcome, x.result))
  }

  /** A step leaves the results alone, publishes one, or ends a call of `process_file`. */
  lemma ResultStep(p: Plan, s: Pool, c: Choice)
    requires p.Valid() && Inv(p, s) && Enabled(p, s, c)
    ensures var t := Apply(p, s, c);
            && |t.order| == |t.results| && |t.workers| == |s.workers|
            && (forall w :: 0 <= w < |t.workers| && t.workers[w].Processed? ==> FromStep(p, s, c, w, t.workers[w]))
            && (forall k :: 0 <= k < |t.results| ==>
                  || (k < |s.results| && t.order[k] == s.order[k] && t.results[k] == s.results[k])
                  || (exists w :: 0 <= w < |s.workers| && s.workers[w] == Processed(t.order[k], t.results[k])))
  {
    if c.Work? {
      WorkResult(p, s, c.worker, c.outcome);
    }
  }

  lemma WorkResult(p: Plan, s: Pool, v: nat, outcome: Outcome)
    requires p.Valid() && Inv(p, s) && v < |s.workers| && WorkerEnabled(s, v)
    ensures var t := WorkerStep(p, s, v, outcome);
            && |t.order| == |t.results| && |t.workers| == |s.workers|
            && (forall w :: 0 <= w < |t.workers| && w != v ==> t.workers[w] == s.workers[w])
            && (t.workers[v].Processed? ==>
                  && s.workers[v] == Running(t.workers[v].task) && t.workers[v].task < |p.ids|
                  && Reports(p.ids[t.workers[v].task], outcome, t.workers[v].result))
            && (s.workers[v].Processed? ==>
                  t.order == s.order + [s.workers[v].task] && t.results == s.results + [s.workers[v].result])
            && (!s.workers[v].Processed? ==> t.order == s.order && t.results == s.results)
  {
    if s.workers[v].Running? {
      HandsOf(p, s, v);
    }
  }

  lemma ToldStep(p: Plan, cs: seq<Choice>, c: Choice)
    requires p.Valid() && Schedule(p, cs) && Inv(p, Exec(p, cs)) && Told(p, cs, Exec(p, cs))
    requires Enabled(p, Exec(p, cs), c)
    ensures Told(p, cs + [c], Apply(p, Exec(p, cs), c))
  {
    var s := Exec(p, cs);
    var t, all := Apply(p, s, c), cs + [c];
    ResultStep(p, s, c);
    forall w | 0 <= w < |t.workers| && t.workers[w].Processed?
      ensures Ran(p, all, t.workers[w].task, t.workers[w].result)
    {
      if t.workers[w] == s.workers[w] {
        RanLater(p, cs, c, t.workers[w].task, t.workers[w].result);
      } else {
        assert all[..|cs|] == cs && all[|cs|] == c;
        assert Processes(p, all, |cs|, t.workers[w].task);
      }
    }
    forall k | 0 <= k < |t.results| ensures Ran(p, all, t.order[k], t.results[k]) {
      RanLater(p, cs, c, t.order[k], t.results[k]);
    }
  }

  /** For every schedule, each published result is what `process_file` did with its task: the report it returned,
      the exception it raised, or the pool's error for a result of another task. */
  lemma {:induction false} ResultsAreOutcomes(p: Plan, cs: seq<Choice>)
    requires p.Valid() && Schedule(p, cs)
    ensures Told(p, cs, Exec(p, cs))
  {
    if cs != [] {
      var before, c := cs[..|cs| - 1], cs[|cs| - 1];
      assert cs == before + [c];
      Reachable(p, before);
      ResultsAreOutcomes(p, before);
      ToldStep(p, before, c);
    }
  }

  // ---------------------------------------------------------------- process_file runs once per task

  /** The task's `process_file` call is over. */
  ghost predicate Over(s: Pool, i: nat) {
    (exists w :: 0 <= w < |s.workers| && s.workers[w].Processed? && s.workers[w].task == i) || i in s.order
  }

  lemma OverNotRunning(p: Plan, s: Pool, i: nat, v: nat)
    requires p.Valid() && Inv(p, s) && Over(s, i) && v < |s.workers|
    ensures s.workers[v] != Running(i)
  {
    if s.workers[v] == Running(i) {
      HandsOf(p, s, v);
      if i !in s.order {
        var w :| 0 <= w < |s.workers| && s.workers[w].Processed? && s.workers[w].task == i;
        HandsOf(p, s, w);
      }
    }
  }

  lemma OverStays(p: Plan, s: Pool, c: Choice, i: nat)
    requires p.Valid() && Inv(p, s) && Enabled(p, s, c)
    requires Over(s, i) || (c.Work? && s.workers[c.worker] == Running(i))
    ensures Over(Apply(p, s, c), i)
  {
    var t := Apply(p, s, c);
    if c.Work? {
      var v := c.worker;
      WorkResult(p, s, v, c.outcome);
      if s.workers[v] == Running(i) {
        assert t.workers[v].Processed? && t.workers[v].task == i;
      } else if i in s.order {
        var k :| 0 <= k < |s.order| && s.order[k] == i;
        assert t.order[k] == i;
      } else {
        var w :| 0 <= w < |s.workers| && s.workers[w].Processed? && s.workers[w].task == i;
        if w == v { assert t.order[|s.order|] == i; } else { assert t.workers[w] == s.workers[w]; }
      }
    } else if w :| 0 <= w < |s.workers| && s.workers[w].Processed? && s.workers[w].task == i {
      OtherStep(p, s, c, w);
    }
  }

  lemma OtherStep(p: Plan, s: Pool, c: Choice, w: nat)
    requires p.Valid() && Inv(p, s) && Enabled(p, s, c) && !c.Work? && w < |s.workers| && s.workers[w].Processed?
    ensures w < |Apply(p, s, c).workers| && Apply(p, s, c).workers[w] == s.workers[w]
    ensures Apply(p, s, c).order == s.order
  {
    assert Lives(s.workers)[w] == LifeOf(s.workers[w]);
  }

  lemma {:induction false} ProcessedIsOver(p: Plan, cs: seq<Choice>, n: nat, i: nat)
    requires p.Valid() && Schedule(p, cs) && Processes(p, cs, n, i)
    ensures Over(Exec(p, cs), i)
  {
    var before, c := cs[..|cs| - 1], cs[|cs| - 1];
    Reachable(p, before);
    if n < |before| {
      assert before[..n] == cs[..n];
      ProcessedIsOver(p, before, n, i);
    }
    OverStays(p, Exec(p, before), c, i);
  }

  lemma {:induction false} PrefixSchedule(p: Plan, cs: seq<Choice>, n: nat)
    requires Schedule(p, cs) && n <= |cs|
    ensures Schedule(p, cs[..n])
  {
    if n < |cs| {
      assert cs[..|cs| - 1][..n] == cs[..n];
      PrefixSchedule(p, cs[..|cs| - 1], n);
    } else {
      assert cs[..n] == cs;
    }
  }

  /** No schedule processes a task twice, whoever interrupts it: a file is never uploaded by two calls. */
  lemma ProcessedOnce(p: Plan, cs: seq<Choice>, m: nat, n: nat, i: nat)
    requires p.Valid() && Schedule(p, cs) && Processes(p, cs, m, i) && Processes(p, cs, n, i)
    ensures m == n
  {
    if m < n {
      NotProcessedAgain(p, cs, m, n, i);
    } else if n < m {
      NotProcessedAgain(p, cs, n, m, i);
    }
  }

  lemma NotProcessedAgain(p: Plan, cs: seq<Choice>, m: nat, n: nat, i: nat)
    requires p.Valid() && Schedule(p, cs) && Processes(p, cs, m, i) && m < n < |cs|
    ensures !Processes(p, cs, n, i)
  {
    PrefixSchedule(p, cs, n);
    assert cs[..n][..m] == cs[..m];
    assert Processes(p, cs[..n], m, i);
    ProcessedIsOver(p, cs[..n], m, i);
    Reachable(p, cs[..n]);
    if Processes(p, cs, n, i) { OverNotRunning(p, Exec(p, cs[..n]), i, cs[n].worker); }
  }

  // ---------------------------------------------------------------- collecting the results

  datatype Collected =
    | Run(results: seq<FileResult>)
    | DuplicateResults
    | UnknownTask
    | Incomplete

  /** One result per planned id that has one, in intake order. */
  ghost predicate IntakeOrder(ids: seq<TaskId>, rs: seq<FileResult>, out: seq<FileResult>) {
    && (forall x :: x in out <==> x in rs && x.taskId in ids)
    && (exists at: seq<nat> :: InOrderAt(ids, out, at))
  }

  ghost predicate InOrderAt(ids: seq<TaskId>, out: seq<FileResult>, at: seq<nat>) {
    && |at| == |out|
    && (forall k :: 0 <= k < |at| ==> at[k] < |ids| && out[k].taskId == ids[at[k]])
    && (forall k, l :: 0 <= k < l < |at| ==> at[k] < at[l])
  }

  /** `{result.task_id: result for result in completed}`: the last result of each id. */
  method Index(completed: seq<FileResult>) returns (byId: map<TaskId, FileResult>)
    ensures forall id :: id in byId <==> id in Ids(completed)
    ensures forall id :: id in byId ==> byId[id].taskId == id && byId[id] in completed
    ensures |byId| == |completed| <==> Distinct(Ids(completed))
  {
    byId := map[];
    ghost var ids := Ids(completed);
    for k := 0 to |completed|
      invariant forall id :: id in byId <==> id in ids[..k]
      invariant forall id :: id in byId ==> byId[id].taskId == id && byId[id] in completed
    {
      assert ids[..k + 1] == ids[..k] + [ids[k]];
      byId := byId[completed[k].taskId := completed[k]];
    }
    assert ids[..|completed|] == ids;
    ElementsSize(ids, byId.Keys);
  }

  /** `tuple(byId[id] for id in ids if id in byId)`. */
  method Pick(ids: seq<TaskId>, byId: map<TaskId, FileResult>) returns (out: seq<FileResult>, ghost at: seq<nat>)
    requires forall id :: id in byId ==> byId[id].taskId == id
    ensures InOrderAt(ids, out, at)
    ensures forall x :: x in out <==> x.taskId in ids && x.taskId in byId && x == byId[x.taskId]
    ensures (forall id :: id in ids ==> id in byId) ==> Ids(out) == ids
  {
    out, at := [], [];
    for i := 0 to |ids|
      invariant InOrderAt(ids, out, at) && forall k :: 0 <= k < |at| ==> at[k] < i
      invariant forall x :: x in out <==> x.taskId in ids[..i] && x.taskId in byId && x == byId[x.taskId]
      invariant (forall id :: id in ids ==> id in byId) ==> Ids(out) == ids[..i]
    {
      assert ids[..i + 1] == ids[..i] + [ids[i]];
      if ids[i] in byId {
        out := out + [byId[ids[i]]];
        at := at + [i];
      }
    }
    assert ids[..|ids|] == ids;
  }

  /** Drains the result queue and restores intake order. */
  method CollectRun(ids: seq<TaskId>, queue: seq<FileResult>, requireComplete: bool) returns (r: Collected)
    requires Distinct(ids)
    ensures r.DuplicateResults? <==> !Distinct(Ids(queue))
    ensures r.UnknownTask? <==> Distinct(Ids(queue)) && !AllPlanned(ids, queue)
    ensures r.Incomplete? <==>
            Distinct(Ids(queue)) && AllPlanned(ids, queue) && requireComplete && !AllReported(ids, queue)
    ensures r.Run? ==> IntakeOrder(ids, queue, r.results) && |r.results| == |queue|
    ensures r.Run? && AllReported(ids, queue) ==> Ids(r.results) == ids
  {
    var rest, completed := queue, [];
    while rest != []
      invariant queue == completed + rest
      decreases |rest|
    {
      completed := completed + [rest[0]];
      rest := rest[1..];
    }
    assert completed == queue;
    var byId := Index(completed);
    if |byId| != |completed| {
      return DuplicateResults;
    }
    if exists id :: id in byId && id !in ids {
      return UnknownTask;
    }
    SizesDecide(ids, queue, byId.Keys);
    if |byId| != |ids| && requireComplete {
      return Incomplete;
    }
    var out;
    ghost var at;
    out, at := Pick(ids, byId);
    UniqueById(queue, byId);
    assert forall x :: x in out <==> x in queue && x.taskId in ids;
    OutSize(ids, out, at, queue);
    r := Run(out);
  }

  ghost predicate AllPlanned(ids: seq<TaskId>, rs: seq<FileResult>) {
    forall id :: id in Ids(rs) ==> id in ids
  }

  ghost predicate AllReported(ids: seq<TaskId>, rs: seq<FileResult>) {
    forall id :: id in ids ==> id in Ids(rs)
  }

  lemma UniqueById(rs: seq<FileResult>, byId: map<TaskId, FileResult>)
    requires Distinct(Ids(rs))
    requires forall id :: id in byId <==> id in Ids(rs)
    requires forall id :: id in byId ==> byId[id].taskId == id && byId[id] in rs
    ensures forall x :: x in rs <==> x.taskId in byId && x == byId[x.taskId]
  {
    forall x | x in rs ensures x.taskId in byId && x == byId[x.taskId] {
      var k :| 0 <= k < |rs| && rs[k] == x;
      assert Ids(rs)[k] == x.taskId;
      var l :| 0 <= l < |rs| && rs[l] == byId[x.taskId];
      assert Ids(rs)[l] == x.taskId;
    }
  }

  /** Comparing sizes decides completeness once every key is known to be planned. */
  lemma SizesDecide(ids: seq<TaskId>, rs: seq<FileResult>, keys: set<TaskId>)
    requires Distinct(ids)
    requires forall id :: id in keys <==> id in Ids(rs)
    requires forall id :: id in keys ==> id in ids
    ensures AllPlanned(ids, rs)
    ensures |keys| == |ids| <==> AllReported(ids, rs)
  {
    var planned := set id | id in ids;
    DistinctSize(ids, planned);
    SubsetSize(keys, planned);
    if AllReported(ids, rs) {
      assert keys == planned;
    } else {
      var id :| id in ids && id !in Ids(rs);
      assert id in planned && id !in keys;
    }
  }

  lemma OutSize(ids: seq<TaskId>, out: seq<FileResult>, at: seq<nat>, queue: seq<FileResult>)
    requires Distinct(ids) && InOrderAt(ids, out, at) && Distinct(Ids(queue))
    requires forall x :: x in out <==> x in queue
    ensures |out| == |queue|
  {
    var elems := set x | x in queue;
    forall k, l | 0 <= k < l < |out| ensures out[k] != out[l] {
      assert at[k] < at[l];
    }
    forall k, l | 0 <= k < l < |queue| ensures queue[k] != queue[l] {
      assert Ids(queue)[k] != Ids(queue)[l];
    }
    DistinctSize(out, elems);
    DistinctSize(queue, elems);
  }

  /** End to end: what `run_file_workers` hands back after a normal run. */
  method RunResults(p: Plan, ghost cs: seq<Choice>, published: seq<FileResult>) returns (r: Collected)
    requires p.Valid() && Schedule(p, cs) && Exec(p, cs).pc.Returning? && published == Exec(p, cs).results
    ensures r.Run? && Ids(r.results) == p.ids
    ensures forall x :: x in r.results <==> x in published
    ensures forall i :: 0 <= i < |p.ids| ==> Ran(p, cs, i, r.results[i])
  {
    NormalReturn(p, cs);
    NoSharing(p, cs);
    r := CollectRun(p.ids, published, true);
    assert AllReported(p.ids, published) by {
      forall id | id in p.ids ensures id in Ids(published) {
        var i :| 0 <= i < |p.ids| && p.ids[i] == id;
        assert HasResult(p, Exec(p, cs), i);
      }
    }
    PlannedResults(p.ids, published);
    forall i | 0 <= i < |p.ids| ensures Ran(p, cs, i, r.results[i]) {
      assert Ids(r.results)[i] == r.results[i].taskId;
      PublishedRan(p, cs, r.results[i], i);
    }
  }

  /** A published result with the id of task i is the outcome of task i. */
  lemma PublishedRan(p: Plan, cs: seq<Choice>, x: FileResult, i: nat)
    requires p.Valid() && Schedule(p, cs) && x in Exec(p, cs).results && i < |p.ids| && x.taskId == p.ids[i]
    ensures Ran(p, cs, i, x)
  {
    ResultsAreOutcomes(p, cs);
    var s := Exec(p, cs);
    var k :| 0 <= k < |s.results| && s.results[k] == x;
    assert Ran(p, cs, s.order[k], x);
  }

  lemma PlannedResults(ids: seq<TaskId>, rs: seq<FileResult>)
    requires AllPlanned(ids, rs)
    ensures forall x :: x in rs ==> x.taskId in ids
  {
    forall x | x in rs ensures x.taskId in ids {
      var k :| 0 <= k < |rs| && rs[k] == x;
      assert Ids(rs)[k] == x.taskId;
    }
  }

  /** End to end: what the interrupt handler reports; `cancelled` counts the tasks that were never started. */
  method InterruptedResults(p: Plan, ghost cs: seq<Choice>, published: seq<FileResult>)
      returns (r: Collected, cancelled: int)
    requires p.Valid() && Schedule(p, cs) && Exec(p, cs).pc.Aborted? && published == Exec(p, cs).results
    ensures r.Run? && IntakeOrder(p.ids, published, r.results)
    ensures forall i | 0 <= i < |p.ids| :: i in Exec(p, cs).started <==> p.ids[i] in Ids(published)
    ensures |r.results| == |Exec(p, cs).started|
    ensures cancelled == |p.ids| - |Exec(p, cs).started| >= 0
    ensures forall i, x :: 0 <= i < |p.ids| && x in r.results && x.taskId == p.ids[i] ==> Ran(p, cs, i, x)
  {
    InterruptedReturn(p, cs);
    NoSharing(p, cs);
    r := CollectRun(p.ids, published, false);
    cancelled := |p.ids| - |r.results|;
    forall i, x | 0 <= i < |p.ids| && x in r.results && x.taskId == p.ids[i] ensures Ran(p, cs, i, x) {
      PublishedRan(p, cs, x, i);
    }
  }

  // ---------------------------------------------------------------- what a run admits

  datatype Admission = NonPositiveWorkers | DuplicateIds | NothingToDo | Admitted(plan: Plan)

  /** The checks before the pool exists; an admitted plan never has an idle worker by construction. */
  method Admit(ids: seq<TaskId>, workers: int) returns (r: Admission)
    ensures r.NonPositiveWorkers? <==> workers <= 0
    ensures r.DuplicateIds? <==> workers > 0 && !Distinct(ids)
    ensures r.NothingToDo? <==> workers > 0 && ids == []
    ensures r.Admitted? ==> r.plan.Valid() && r.plan.ids == ids && r.plan.workers <= workers
    ensures r.Admitted? ==> r.plan.workers == workers || r.plan.workers == |ids|
  {
    if workers <= 0 { return NonPositiveWorkers; }
    var unique := set id | id in ids;
    ElementsSize(ids, unique);
    if |unique| != |ids| { return DuplicateIds; }
    if ids == [] { return NothingToDo; }
    r := Admitted(Plan(ids, if workers <= |ids| then workers else |ids|));
  }
}
