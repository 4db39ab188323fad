/** The bounded worker pool as a transition system: one coordinator, n workers, a
    bounded FIFO queue and at most one interrupt, under every interleaving.

    Each `Choice` is one atomic action: a queue operation, a lock-protected update, or
    the return of `process_file`. A schedule is any sequence of enabled choices. */
module WorkerPool {

  type TaskId = string

  /** What `process_file` does with a task it owns: it returns a result, or raises. */
  datatype Outcome = Returned(id: TaskId, report: string) | Raised(exception: string)

  datatype FileResult =
    | Completed(taskId: TaskId, report: string)
    | UnhandledException(taskId: TaskId, exception: string)

  datatype Item = Task(index: nat) | Stop

  datatype Phase =
    | NotStarted
    | Waiting                                  // blocked in get(timeout)
    | TimedOut                                 // get raised Empty; shutdown not yet checked
    | Holding(item: Item)                      // dequeued; stop marker and shutdown not yet checked
    | Owned(task: nat)                         // past the shutdown check
    | Running(task: nat)                       // counted as active, inside process_file
    | Processed(task: nat, result: FileResult) // no longer active; result not yet published
    | Acking                                   // about to call task_done, then loop
    | Leaving                                  // about to call task_done, then return
    | Exited

  datatype Pc =
    | Starting(j: nat)      // about to start thread j, or to leave the start loop
    | Registering(j: nat)   // thread j runs but is not yet in started_threads
    | Putting(k: nat)       // about to put item k: the tasks in order, then the stop markers
    | JoiningQueue
    | JoiningThread(j: nat)
    | Returning
    | Aborting              // in the handler, shutdown not yet set
    | Draining
    | DrainAck              // took one item off the queue, about to call task_done for it
    | AbortJoin(j: nat)
    | AbortJoinQueue
    | Aborted

  /** History of a task that left the queue. */
  datatype Fate = HeldBy(worker: nat) | StartedBy(worker: nat) | Done(position: nat) | Dropped

  /** The validated inputs of one run; `workers` is already min(workers, tasks). */
  datatype Plan = Plan(ids: seq<TaskId>, workers: nat) {
    predicate Valid() {
      0 < workers <= |ids| && (forall i, j :: 0 <= i < j < |ids| ==> ids[i] != ids[j])
    }

    function Items(): nat { |ids| + workers }

    function Capacity(): nat { 2 * workers }

    function ItemAt(k: nat): Item {
      if k < |ids| then Task(k) else Stop
    }
  }

  /** `enqueued`, `fates`, `order`, `started` and `gap` are history: no step reads them. */
  datatype Pool = Pool(
    pc: Pc,
    workers: seq<Phase>,
    registered: nat,
    queue: seq<Item>,
    unfinished: nat,
    shutdown: bool,
    results: seq<FileResult>,
    active: nat,
    peak: nat,
    enqueued: nat,
    fates: seq<Fate>,
    order: seq<nat>,
    started: set<nat>,
    gap: bool)

  datatype Choice =
    | Coordinate
    | Interrupt
    | StartFails
    | Work(worker: nat, outcome: Outcome)

  function Initial(p: Plan): Pool {
    Pool(Starting(0), seq(p.workers, i => NotStarted), 0, [], 0, false, [], 0, 0, 0, [], [], {}, false)
  }

  /** What the task's own outcome makes of its result: its report exactly when `process_file` returned for this
      task, else the exception it raised, or the pool's own error when it returned for another task. */
  ghost predicate Reports(id: TaskId, outcome: Outcome, r: FileResult) {
    && r.taskId == id
    && (r.Completed? <==> outcome.Returned? && outcome.id == id)
    && (r.Completed? ==> r.report == outcome.report)
    && (outcome.Raised? ==> r == UnhandledException(id, outcome.exception))
    && (outcome.Returned? && outcome.id != id ==> r == UnhandledException(id, "WorkerPoolError"))
  }

  function TerminalResult(id: TaskId, outcome: Outcome): (r: FileResult)
    ensures Reports(id, outcome, r)
  {
    match outcome
    case Returned(returned, report) =>
      if returned != id then UnhandledException(id, "WorkerPoolError") else Completed(id, report)
    case Raised(exception) => UnhandledException(id, exception)
  }

  // ---------------------------------------------------------------- one step

  predicate InTry(pc: Pc) {
    pc.Starting? || pc.Registering? || pc.Putting? || pc.JoiningQueue? || pc.JoiningThread?
  }

  predicate Enabled(p: Plan, s: Pool, c: Choice) {
    match c
    case Coordinate => CoordinatorEnabled(p, s)
    case Interrupt => InTry(s.pc)
    case StartFails => s.pc.Starting? && s.pc.j < p.workers
    case Work(w, _) => w < |s.workers| && WorkerEnabled(s, w)
  }

  predicate CoordinatorEnabled(p: Plan, s: Pool) {
    match s.pc
    case Starting(j) => j < p.workers ==> j < |s.workers|
    case Registering(_) => true
    case Putting(k) => k < p.Items() ==> |s.queue| < p.Capacity()
    case JoiningQueue => s.unfinished == 0
    case JoiningThread(j) => j < s.registered ==> j < |s.workers| && s.workers[j].Exited?
    case Returning => false
    case Aborting => true
    case Draining => true
    case DrainAck => s.unfinished > 0
    case AbortJoin(j) => j < s.registered ==> j < |s.workers| && s.workers[j].Exited?
    case AbortJoinQueue => s.unfinished == 0
    case Aborted => false
  }

  predicate WorkerEnabled(s: Pool, w: nat)
    requires w < |s.workers|
  {
    match s.workers[w]
    case NotStarted => false
    case Exited => false
    case Acking => s.unfinished > 0
    case Leaving => s.unfinished > 0
    case Owned(i) => true
    case Running(i) => s.active > 0
    case _ => true
  }

  function Apply(p: Plan, s: Pool, c: Choice): Pool
    requires Enabled(p, s, c)
  {
    match c
    case Coordinate => CoordinatorStep(p, s)
    case Interrupt => s.(pc := Aborting, gap := s.pc.Registering?)
    case StartFails => s.(pc := Aborting)
    case Work(w, outcome) => WorkerStep(p, s, w, outcome)
  }

  function CoordinatorStep(p: Plan, s: Pool): Pool
    requires CoordinatorEnabled(p, s)
  {
    match s.pc
    case Starting(j) =>
      if j < p.workers then s.(workers := s.workers[j := Waiting], pc := Registering(j)) else s.(pc := Putting(0))
    case Registering(j) => s.(registered := s.registered + 1, pc := Starting(j + 1))
    case Putting(k) =>
      if k < p.Items() then
        s.(queue := s.queue + [p.ItemAt(k)], unfinished := s.unfinished + 1, enqueued := s.enqueued + 1,
          pc := Putting(k + 1))
      else
        s.(pc := JoiningQueue)
    case JoiningQueue => s.(pc := JoiningThread(0))
    case JoiningThread(j) => if j < s.registered then s.(pc := JoiningThread(j + 1)) else s.(pc := Returning)
    case Returning => s
    case Aborting => s.(shutdown := true, pc := Draining)
    case Draining =>
      if s.queue == [] then
        s.(pc := AbortJoin(0))
      else
        s.(queue := s.queue[1..], pc := DrainAck, fates := if s.queue[0].Task? then s.fates + [Dropped] else s.fates)
    case DrainAck => s.(unfinished := s.unfinished - 1, pc := Draining)
    case AbortJoin(j) => if j < s.registered then s.(pc := AbortJoin(j + 1)) else s.(pc := AbortJoinQueue)
    case AbortJoinQueue => s.(pc := Aborted)
    case Aborted => s
  }

  function WorkerStep(p: Plan, s: Pool, w: nat, outcome: Outcome): Pool
    requires w < |s.workers| && WorkerEnabled(s, w)
  {
    match s.workers[w]
    case NotStarted => s
    case Exited => s
    case Waiting => if s.queue == [] then Timeout(s, w) else Get(s, w)
    case TimedOut => Recheck(s, w)
    case Holding(item) =>
      if item.Stop? then ObeyStop(s, w) else if s.shutdown then Discard(s, w) else Accept(s, w)
    case Owned(i) => Begin(s, w)
    case Running(i) => Process(p, s, w, outcome)
    case Processed(i, r) => Publish(s, w)
    case Acking => TaskDone(s, w)
    case Leaving => TaskDone(s, w)
  }

  function Timeout(s: Pool, w: nat): Pool
    requires w < |s.workers|
  {
    s.(workers := s.workers[w := TimedOut])
  }

  function Recheck(s: Pool, w: nat): Pool
    requires w < |s.workers|
  {
    s.(workers := s.workers[w := if s.shutdown then Exited else Waiting])
  }

  function Get(s: Pool, w: nat): Pool
    requires w < |s.workers| && s.queue != []
  {
    s.(queue := s.queue[1..], workers := s.workers[w := Holding(s.queue[0])],
       fates := if s.queue[0].Task? then s.fates + [HeldBy(w)] else s.fates)
  }

  function ObeyStop(s: Pool, w: nat): Pool
    requires w < |s.workers|
  {
    s.(workers := s.workers[w := Leaving])
  }

  function Discard(s: Pool, w: nat): Pool
    requires w < |s.workers| && s.workers[w].Holding? && s.workers[w].item.Task?
  {
    var i := s.workers[w].item.index;
    s.(workers := s.workers[w := Acking], fates := if i < |s.fates| then s.fates[i := Dropped] else s.fates)
  }

  function Accept(s: Pool, w: nat): Pool
    requires w < |s.workers| && s.workers[w].Holding? && s.workers[w].item.Task?
  {
    var i := s.workers[w].item.index;
    s.(workers := s.workers[w := Owned(i)], started := s.started + {i},
       fates := if i < |s.fates| then s.fates[i := StartedBy(w)] else s.fates)
  }

  function Begin(s: Pool, w: nat): Pool
    requires w < |s.workers| && s.workers[w].Owned?
  {
    s.(workers := s.workers[w := Running(s.workers[w].task)], active := s.active + 1,
       peak := if s.peak < s.active + 1 then s.active + 1 else s.peak)
  }

  function Process(p: Plan, s: Pool, w: nat, outcome: Outcome): Pool
    requires w < |s.workers| && s.workers[w].Running? && s.active > 0
  {
    var i := s.workers[w].task;
    var id := if i < |p.ids| then p.ids[i] else "";
    s.(workers := s.workers[w := Processed(i, TerminalResult(id, outcome))], active := s.active - 1)
  }

  function Publish(s: Pool, w: nat): Pool
    requires w < |s.workers| && s.workers[w].Processed?
  {
    var i := s.workers[w].task;
    s.(workers := s.workers[w := Acking], results := s.results + [s.workers[w].result], order := s.order + [i],
       fates := if i < |s.fates| then s.fates[i := Done(|s.results|)] else s.fates)
  }

  function TaskDone(s: Pool, w: nat): Pool
    requires w < |s.workers| && s.unfinished > 0
  {
    s.(workers := s.workers[w := if s.workers[w].Leaving? then Exited else Waiting], unfinished := s.unfinished - 1)
  }

  // ---------------------------------------------------------------- runs

  /** A schedule is a sequence of choices, each enabled when it is taken. */
  predicate Schedule(p: Plan, cs: seq<Choice>)
    decreases |cs|, 0
  {
    cs == [] || (Schedule(p, cs[..|cs| - 1]) && Enabled(p, Exec(p, cs[..|cs| - 1]), cs[|cs| - 1]))
  }

  function Exec(p: Plan, cs: seq<Choice>): Pool
    requires Schedule(p, cs)
    decreases |cs|, 1
  {
    if cs == [] then Initial(p) else Apply(p, Exec(p, cs[..|cs| - 1]), cs[|cs| - 1])
  }

  lemma Extend(p: Plan, cs: seq<Choice>, c: Choice)
    requires Schedule(p, cs) && Enabled(p, Exec(p, cs), c)
    ensures Schedule(p, cs + [c]) && Exec(p, cs + [c]) == Apply(p, Exec(p, cs), c)
  {
    assert (cs + [c])[..|cs|] == cs;
  }

  // ---------------------------------------------------------------- counting workers

  function CountIf(ws: seq<Phase>, f: Phase -> bool): nat {
    if ws == [] then 0 else CountIf(ws[..|ws| - 1], f) + (if f(ws[|ws| - 1]) then 1 else 0)
  }

  lemma {:induction false} CountUpdate(ws: seq<Phase>, f: Phase -> bool, w: nat, x: Phase)
    requires w < |ws|
    ensures CountIf(ws[w := x], f) == CountIf(ws, f) - (if f(ws[w]) then 1 else 0) + (if f(x) then 1 else 0)
  {
    var last := |ws| - 1;
    if w == last {
      assert ws[w := x][..last] == ws[..last];
    } else {
      assert ws[w := x][..last] == ws[..last][w := x];
      CountUpdate(ws[..last], f, w, x);
    }
  }

  lemma {:induction false} CountBound(ws: seq<Phase>, f: Phase -> bool)
    ensures CountIf(ws, f) <= |ws|
    ensures CountIf(ws, f) == |ws| <==> forall w :: 0 <= w < |ws| ==> f(ws[w])
    ensures CountIf(ws, f) == 0 <==> forall w :: 0 <= w < |ws| ==> !f(ws[w])
  {
    if ws != [] {
      CountBound(ws[..|ws| - 1], f);
      assert forall w :: 0 <= w < |ws| - 1 ==> ws[..|ws| - 1][w] == ws[w];
    }
  }

  /** Dequeued an item for which task_done is still owed. */
  predicate Unacked(x: Phase) {
    x.Holding? || x.Owned? || x.Running? || x.Processed? || x.Acking? || x.Leaving?
  }

  predicate IsActive(x: Phase) { x.Running? }

  /** Took a stop marker. */
  predicate TookStop(x: Phase) {
    (x.Holding? && x.item.Stop?) || x.Leaving? || x.Exited?
  }

  /** All three counts after one worker changes phase. */
  lemma CountMove(ws: seq<Phase>, w: nat, x: Phase)
    requires w < |ws|
    ensures CountIf(ws[w := x], Unacked) ==
            CountIf(ws, Unacked) - (if Unacked(ws[w]) then 1 else 0) + (if Unacked(x) then 1 else 0)
    ensures CountIf(ws[w := x], IsActive) ==
            CountIf(ws, IsActive) - (if IsActive(ws[w]) then 1 else 0) + (if IsActive(x) then 1 else 0)
    ensures CountIf(ws[w := x], TookStop) ==
            CountIf(ws, TookStop) - (if TookStop(ws[w]) then 1 else 0) + (if TookStop(x) then 1 else 0)
    ensures CountIf(ws[w := x], IsActive) <= |ws|
  {
    CountUpdate(ws, Unacked, w, x);
    CountUpdate(ws, IsActive, w, x);
    CountUpdate(ws, TookStop, w, x);
    CountBound(ws[w := x], IsActive);
  }

  // ---------------------------------------------------------------- views of the workers

  /** What a worker has in its hands: nothing (or a stop marker), a task it may still drop, or a task it started. */
  datatype Hand = Free | Fetched(task: nat) | Started(task: nat)

  datatype Life = Unborn | Alive | Gone

  function HandOf(x: Phase): Hand {
    match x
    case Holding(Task(i)) => Fetched(i)
    case Owned(i) => Started(i)
    case Running(i) => Started(i)
    case Processed(i, _) => Started(i)
    case _ => Free
  }

  function LifeOf(x: Phase): Life {
    if x.NotStarted? then Unborn else if x.Exited? then Gone else Alive
  }

  ghost function Hands(ws: seq<Phase>): (r: seq<Hand>)
    ensures |r| == |ws|
  {
    seq(|ws|, w requires 0 <= w < |ws| => HandOf(ws[w]))
  }

  ghost function Lives(ws: seq<Phase>): (r: seq<Life>)
    ensures |r| == |ws|
  {
    seq(|ws|, w requires 0 <= w < |ws| => LifeOf(ws[w]))
  }

  lemma Move(ws: seq<Phase>, w: nat, x: Phase)
    requires w < |ws|
    ensures Hands(ws)[w] == HandOf(ws[w]) && Lives(ws)[w] == LifeOf(ws[w])
    ensures Hands(ws[w := x]) == Hands(ws)[w := HandOf(x)]
    ensures Lives(ws[w := x]) == Lives(ws)[w := LifeOf(x)]
    ensures HandOf(x) == HandOf(ws[w]) ==> Hands(ws[w := x]) == Hands(ws)
    ensures LifeOf(x) == LifeOf(ws[w]) ==> Lives(ws[w := x]) == Lives(ws)
  {
  }

  // ---------------------------------------------------------------- the inductive invariant

  function Min(a: int, b: int): int { if a < b then a else b }

  function Taken(s: Pool): int { s.enqueued - |s.queue| }

  /** The queue is the interval of items that were put but not yet taken: no stop marker overtakes a task. */
  ghost predicate QueueInv(p: Plan, queue: seq<Item>, enqueued: nat, fated: nat) {
    && |queue| <= enqueued <= p.Items()
    && |queue| <= p.Capacity()
    && (forall j :: 0 <= j < |queue| ==> queue[j] == p.ItemAt(enqueued - |queue| + j))
    && fated == Min(enqueued - |queue|, |p.ids|)
  }

  /** Every task that left the queue has one fate, in agreement with the workers' hands and the results. */
  ghost predicate FateInv(hands: seq<Hand>, fates: seq<Fate>, order: seq<nat>, shutdown: bool) {
    && (forall w :: 0 <= w < |hands| && hands[w].Fetched? ==>
         hands[w].task < |fates| && fates[hands[w].task] == HeldBy(w))
    && (forall w :: 0 <= w < |hands| && hands[w].Started? ==>
         hands[w].task < |fates| && fates[hands[w].task] == StartedBy(w))
    && (forall i :: 0 <= i < |fates| ==> FateOk(hands, fates[i], i, order, shutdown))
    && (forall k :: 0 <= k < |order| ==> order[k] < |fates| && fates[order[k]] == Done(k))
  }

  ghost predicate FateOk(hands: seq<Hand>, fate: Fate, i: nat, order: seq<nat>, shutdown: bool) {
    match fate
    case HeldBy(w) => w < |hands| && hands[w] == Fetched(i)
    case StartedBy(w) => w < |hands| && hands[w] == Started(i)
    case Done(k) => k < |order| && order[k] == i
    case Dropped => shutdown
  }

  /** The tasks that passed the shutdown check are those being processed or published: none of them was dropped. */
  ghost predicate StartedInv(started: set<nat>, fates: seq<Fate>) {
    && (forall i | i in started :: i < |fates| && (fates[i].StartedBy? || fates[i].Done?))
    && (forall i :: 0 <= i < |fates| && (fates[i].StartedBy? || fates[i].Done?) ==> i in started)
  }

  /** Every result, published or not, carries the id of its own task. */
  ghost predicate ResultInv(ids: seq<TaskId>, ws: seq<Phase>, order: seq<nat>, results: seq<FileResult>) {
    && |order| == |results|
    && (forall w :: 0 <= w < |ws| && ws[w].Processed? ==> ws[w].task < |ids| && ws[w].result.taskId == ids[ws[w].task])
    && (forall k :: 0 <= k < |order| ==> order[k] < |ids| && results[k].taskId == ids[order[k]])
  }

  ghost predicate CountInv(p: Plan, s: Pool) {
    && s.unfinished == |s.queue| + CountIf(s.workers, Unacked) + (if s.pc.DrainAck? then 1 else 0)
    && s.active == CountIf(s.workers, IsActive)
    && s.active <= s.peak <= p.workers
    && (!s.shutdown ==> CountIf(s.workers, TookStop) == if Taken(s) <= |p.ids| then 0 else Taken(s) - |p.ids|)
  }

  ghost predicate GoneUpTo(lives: seq<Life>, j: nat) {
    j <= |lives| && forall w :: 0 <= w < j ==> lives[w].Gone?
  }

  ghost predicate PcInv(p: Plan, pc: Pc, lives: seq<Life>, registered: nat, enqueued: nat, drained: bool,
      settled: bool, shutdown: bool, gap: bool) {
    && registered <= |lives| == p.workers
    && (forall w :: 0 <= w < registered ==> !lives[w].Unborn?)
    && (forall w :: registered < w < |lives| ==> lives[w].Unborn?)
    && (enqueued > 0 ==> registered == p.workers)
    && (shutdown <==> pc.Draining? || pc.DrainAck? || pc.AbortJoin? || pc.AbortJoinQueue? || pc.Aborted?)
    && (registered < |lives| && !lives[registered].Unborn? ==> pc.Registering? || gap)
    && (gap ==> !InTry(pc) && !pc.Returning? && enqueued == 0)
    && match pc
       case Starting(j) => j == registered && enqueued == 0
       case Registering(j) => j == registered < p.workers && enqueued == 0 && !lives[j].Unborn?
       case Putting(k) => registered == p.workers && k == enqueued
       case JoiningQueue => registered == p.workers && enqueued == p.Items()
       case JoiningThread(j) =>
         registered == p.workers && enqueued == p.Items() && drained && settled && j <= registered && GoneUpTo(lives, j)
       case Returning =>
         registered == p.workers && enqueued == p.Items() && drained && settled && GoneUpTo(lives, p.workers)
       case Aborting => true
       case Draining => true
       case DrainAck => true
       case AbortJoin(j) => drained && j <= registered && GoneUpTo(lives, j)
       case AbortJoinQueue => drained && GoneUpTo(lives, registered)
       case Aborted => drained && settled && GoneUpTo(lives, registered)
  }

  ghost predicate Inv(p: Plan, s: Pool) {
    && QueueInv(p, s.queue, s.enqueued, |s.fates|)
    && FateInv(Hands(s.workers), s.fates, s.order, s.shutdown)
    && StartedInv(s.started, s.fates)
    && ResultInv(p.ids, s.workers, s.order, s.results)
    && CountInv(p, s)
    && PcInv(p, s.pc, Lives(s.workers), s.registered, s.enqueued, s.queue == [], s.unfinished == 0, s.shutdown, s.gap)
  }

  lemma InitialInv(p: Plan)
    requires p.Valid()
    ensures Inv(p, Initial(p))
  {
    CountBound(Initial(p).workers, Unacked);
    CountBound(Initial(p).workers, IsActive);
    CountBound(Initial(p).workers, TookStop);
  }

  // ---------------------------------------------------------------- the invariant is kept, action by action

  /** Worker w gives up or promotes the task in its hands, and that task's fate changes with it. */
  lemma FateOfHand(hands: seq<Hand>, fates: seq<Fate>, order: seq<nat>, shutdown: bool, w: nat, hand: Hand,
      fate: Fate, order': seq<nat>)
    requires FateInv(hands, fates, order, shutdown) && w < |hands| && !hands[w].Free?
    requires
      || (fate == Dropped && shutdown && hand == Free && order' == order)
      || (fate == StartedBy(w) && hand == Started(hands[w].task) && order' == order)
      || (fate == Done(|order|) && hand == Free && order' == order + [hands[w].task])
    ensures hands[w].task < |fates|
    ensures FateInv(hands[w := hand], fates[hands[w].task := fate], order', shutdown)
  {
    var i := hands[w].task;
    var hands', fates' := hands[w := hand], fates[i := fate];
    forall v | 0 <= v < |hands'| && v != w && !hands'[v].Free? ensures hands'[v].task != i {
      assert fates[hands[v].task] == HeldBy(v) || fates[hands[v].task] == StartedBy(v);
    }
    forall j | 0 <= j < |fates'| ensures FateOk(hands', fates'[j], j, order', shutdown) {
      assert FateOk(hands, fates[j], j, order, shutdown);
    }
  }

  /** The head of the queue goes to worker w, or is dropped by the draining coordinator. */
  lemma FateOfHead(hands: seq<Hand>, fates: seq<Fate>, order: seq<nat>, shutdown: bool, w: nat)
    requires FateInv(hands, fates, order, shutdown)
    ensures w < |hands| && hands[w].Free? ==>
            FateInv(hands[w := Fetched(|fates|)], fates + [HeldBy(w)], order, shutdown)
    ensures shutdown ==> FateInv(hands, fates + [Dropped], order, shutdown)
  {
    forall j | 0 <= j < |fates| ensures FateOk(hands, fates[j], j, order, shutdown) {}
  }

  lemma PcGone(p: Plan, pc: Pc, lives: seq<Life>, registered: nat, enqueued: nat, drained: bool, settled: bool,
      settled': bool, shutdown: bool, gap: bool, w: nat)
    requires PcInv(p, pc, lives, registered, enqueued, drained, settled, shutdown, gap)
    requires w < |lives| && !lives[w].Unborn? && (settled ==> settled')
    ensures PcInv(p, pc, lives[w := Gone], registered, enqueued, drained, settled', shutdown, gap)
  {
  }

  lemma TimeoutInv(p: Plan, s: Pool, w: nat)
    requires p.Valid() && Inv(p, s) && w < |s.workers| && s.workers[w].Waiting? && s.queue == []
    ensures Inv(p, Timeout(s, w))
  {
    Move(s.workers, w, Timeout(s, w).workers[w]);
    CountMove(s.workers, w, Timeout(s, w).workers[w]);
  }

  lemma RecheckInv(p: Plan, s: Pool, w: nat)
    requires p.Valid() && Inv(p, s) && w < |s.workers| && s.workers[w].TimedOut?
    ensures Inv(p, Recheck(s, w))
  {
    Move(s.workers, w, Recheck(s, w).workers[w]);
    CountMove(s.workers, w, Recheck(s, w).workers[w]);
  }

  lemma GetInv(p: Plan, s: Pool, w: nat)
    requires p.Valid() && Inv(p, s) && w < |s.workers| && s.workers[w].Waiting? && s.queue != []
    ensures Inv(p, Get(s, w))
  {
    Move(s.workers, w, Get(s, w).workers[w]);
    CountMove(s.workers, w, Get(s, w).workers[w]);
    assert s.queue[0] == p.ItemAt(Taken(s) + 0);
    FateOfHead(Hands(s.workers), s.fates, s.order, s.shutdown, w);
  }

  lemma ObeyStopInv(p: Plan, s: Pool, w: nat)
    requires p.Valid() && Inv(p, s) && w < |s.workers| && s.workers[w] == Holding(Stop)
    ensures Inv(p, ObeyStop(s, w))
  {
    Move(s.workers, w, ObeyStop(s, w).workers[w]);
    CountMove(s.workers, w, ObeyStop(s, w).workers[w]);
  }

  lemma DiscardInv(p: Plan, s: Pool, w: nat)
    requires p.Valid() && Inv(p, s) && w < |s.workers| && s.workers[w].Holding? && s.workers[w].item.Task? && s.shutdown
    ensures Inv(p, Discard(s, w))
  {
    Move(s.workers, w, Discard(s, w).workers[w]);
    CountMove(s.workers, w, Discard(s, w).workers[w]);
    FateOfHand(Hands(s.workers), s.fates, s.order, s.shutdown, w, Free, Dropped, s.order);
  }

  lemma AcceptInv(p: Plan, s: Pool, w: nat)
    requires p.Valid() && Inv(p, s) && w < |s.workers| && s.workers[w].Holding? && s.workers[w].item.Task?
    requires !s.shutdown
    ensures Inv(p, Accept(s, w))
  {
    Move(s.workers, w, Accept(s, w).workers[w]);
    CountMove(s.workers, w, Accept(s, w).workers[w]);
    FateOfHand(Hands(s.workers), s.fates, s.order, s.shutdown, w, Started(s.workers[w].item.index), StartedBy(w),
      s.order);
  }

  lemma BeginInv(p: Plan, s: Pool, w: nat)
    requires p.Valid() && Inv(p, s) && w < |s.workers| && s.workers[w].Owned?
    ensures Inv(p, Begin(s, w))
  {
    Move(s.workers, w, Begin(s, w).workers[w]);
    CountMove(s.workers, w, Begin(s, w).workers[w]);
  }

  lemma ProcessInv(p: Plan, s: Pool, w: nat, outcome: Outcome)
    requires p.Valid() && Inv(p, s) && w < |s.workers| && s.workers[w].Running? && s.active > 0
    ensures Inv(p, Process(p, s, w, outcome))
  {
    Move(s.workers, w, Process(p, s, w, outcome).workers[w]);
    CountMove(s.workers, w, Process(p, s, w, outcome).workers[w]);
  }

  lemma PublishInv(p: Plan, s: Pool, w: nat)
    requires p.Valid() && Inv(p, s) && w < |s.workers| && s.workers[w].Processed?
    ensures Inv(p, Publish(s, w))
  {
    Move(s.workers, w, Publish(s, w).workers[w]);
    CountMove(s.workers, w, Publish(s, w).workers[w]);
    FateOfHand(Hands(s.workers), s.fates, s.order, s.shutdown, w, Free, Done(|s.order|), s.order + [s.workers[w].task]);
    PublishResult(p.ids, s.workers, s.order, s.results, w);
    PublishStarted(s.started, s.fates, s.workers[w].task, |s.order|);
  }

  lemma PublishResult(ids: seq<TaskId>, ws: seq<Phase>, order: seq<nat>, results: seq<FileResult>, w: nat)
    requires ResultInv(ids, ws, order, results) && w < |ws| && ws[w].Processed?
    ensures ResultInv(ids, ws[w := Acking], order + [ws[w].task], results + [ws[w].result])
  {
  }

  lemma PublishStarted(started: set<nat>, fates: seq<Fate>, i: nat, k: nat)
    requires StartedInv(started, fates) && i < |fates| && fates[i].StartedBy?
    ensures StartedInv(started, fates[i := Done(k)])
  {
  }

  lemma TaskDoneInv(p: Plan, s: Pool, w: nat)
    requires p.Valid() && Inv(p, s) && w < |s.workers| && (s.workers[w].Acking? || s.workers[w].Leaving?)
    requires s.unfinished > 0
    ensures Inv(p, TaskDone(s, w))
  {
    Move(s.workers, w, TaskDone(s, w).workers[w]);
    CountMove(s.workers, w, TaskDone(s, w).workers[w]);
    if s.workers[w].Leaving? {
      PcGone(p, s.pc, Lives(s.workers), s.registered, s.enqueued, s.queue == [], s.unfinished == 0,
        s.unfinished == 1, s.shutdown, s.gap, w);
    }
  }

  lemma WorkerInv(p: Plan, s: Pool, w: nat, outcome: Outcome)
    requires p.Valid() && Inv(p, s) && w < |s.workers| && WorkerEnabled(s, w)
    ensures Inv(p, WorkerStep(p, s, w, outcome))
  {
    match s.workers[w]
    case NotStarted =>
    case Exited =>
    case Waiting => if s.queue == [] { TimeoutInv(p, s, w); } else { GetInv(p, s, w); }
    case TimedOut => RecheckInv(p, s, w);
    case Holding(item) =>
      if item.Stop? { ObeyStopInv(p, s, w); } else if s.shutdown { DiscardInv(p, s, w); } else { AcceptInv(p, s, w); }
    case Owned(i) => BeginInv(p, s, w);
    case Running(i) => ProcessInv(p, s, w, outcome);
    case Processed(i, r) => PublishInv(p, s, w);
    case Acking => TaskDoneInv(p, s, w);
    case Leaving => TaskDoneInv(p, s, w);
  }

  lemma StartThreadInv(p: Plan, s: Pool)
    requires p.Valid() && Inv(p, s) && s.pc.Starting? && s.pc.j < p.workers
    ensures Inv(p, CoordinatorStep(p, s))
  {
    Move(s.workers, s.pc.j, Waiting);
    CountMove(s.workers, s.pc.j, Waiting);
  }

  lemma PutInv(p: Plan, s: Pool)
    requires p.Valid() && Inv(p, s) && s.pc.Putting? && CoordinatorEnabled(p, s)
    ensures Inv(p, CoordinatorStep(p, s))
  {
  }

  lemma DrainInv(p: Plan, s: Pool)
    requires p.Valid() && Inv(p, s) && s.pc.Draining?
    ensures Inv(p, CoordinatorStep(p, s))
  {
    if s.queue != [] {
      assert s.queue[0] == p.ItemAt(Taken(s) + 0);
      FateOfHead(Hands(s.workers), s.fates, s.order, s.shutdown, |s.workers|);
    }
  }

  lemma JoinThreadInv(p: Plan, s: Pool)
    requires p.Valid() && Inv(p, s) && CoordinatorEnabled(p, s) && (s.pc.JoiningThread? || s.pc.AbortJoin?)
    ensures Inv(p, CoordinatorStep(p, s))
  {
    if s.pc.j < s.registered {
      Move(s.workers, s.pc.j, Exited);
    }
  }

  lemma SimpleStepInv(p: Plan, s: Pool)
    requires p.Valid() && Inv(p, s) && CoordinatorEnabled(p, s)
    requires !s.pc.Starting? && !s.pc.Putting? && !s.pc.Draining? && !s.pc.JoiningThread? && !s.pc.AbortJoin?
    ensures Inv(p, CoordinatorStep(p, s))
  {
  }

  lemma CoordinatorInv(p: Plan, s: Pool)
    requires p.Valid() && Inv(p, s) && CoordinatorEnabled(p, s)
    ensures Inv(p, CoordinatorStep(p, s))
  {
    if s.pc.Starting? {
      if s.pc.j < p.workers { StartThreadInv(p, s); }
    } else if s.pc.Putting? {
      PutInv(p, s);
    } else if s.pc.Draining? {
      DrainInv(p, s);
    } else if s.pc.JoiningThread? || s.pc.AbortJoin? {
      JoinThreadInv(p, s);
    } else {
      SimpleStepInv(p, s);
    }
  }

  lemma StepInv(p: Plan, s: Pool, c: Choice)
    requires p.Valid() && Inv(p, s) && Enabled(p, s, c)
    ensures Inv(p, Apply(p, s, c))
  {
    match c
    case Coordinate => CoordinatorInv(p, s);
    case Interrupt =>
    case StartFails =>
    case Work(w, outcome) => WorkerInv(p, s, w, outcome);
  }

  lemma {:induction false} Reachable(p: Plan, cs: seq<Choice>)
    requires p.Valid() && Schedule(p, cs)
    ensures Inv(p, Exec(p, cs))
  {
    if cs == [] {
      InitialInv(p);
    } else {
      Reachable(p, cs[..|cs| - 1]);
      StepInv(p, Exec(p, cs[..|cs| - 1]), cs[|cs| - 1]);
    }
  }
}
