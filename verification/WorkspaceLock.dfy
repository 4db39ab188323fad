/** The Unix workspace lock: any number of processes, a guard file lock, a lock directory with
    PID metadata, reclamation of stale directories, crashes at any point and PID reuse. */
module WorkspaceLock {
  import opened Wrappers

  type Proc = nat

  /** The pid file: absent, or text that reads as a positive number or as nothing usable. */
  datatype PidFile = NoFile | Text(pid: Option<nat>)

  /** Where a process stands. Inside the guard:
      Try(k)..Emptied(k) are the k-th attempt (create, inspect, unlink, rmdir), Created and Writing
      initialize a new directory, Undo and UndoEmpty remove it after a failure, Failed and Acquired leave,
      Checking..Dropped release. After the guard, Released still has its ownership flag to clear. */
  datatype Pc =
    | Outside
    | Try(k: nat)
    | Inspecting(k: nat)
    | Reclaim(k: nat)
    | Emptied(k: nat)
    | Created
    | Writing
    | Undo
    | UndoEmpty
    | Failed
    | Acquired
    | Checking
    | Dropping
    | Dropped
    | Finished
    | Released

  /** `dir` is the lock directory with its pid file; `flags` holds the processes whose `_owned` is true. */
  datatype State = State(live: set<Proc>, guard: Option<Proc>, dir: Option<PidFile>, pc: map<Proc, Pc>,
      flags: set<Proc>)

  datatype Config = Config(pid: Proc -> nat, attempts: nat)

  /** One atomic step. `ok` is false when the system call fails; `read` is false when reading the pid file
      fails; `stale` tells whether the directory is older than the staleness threshold. */
  datatype Act =
    | Spawn
    | Crash
    | Enter
    | MakeDir(ok: bool)
    | GiveUp
    | Inspect(read: bool, stale: bool)
    | Unlink(ok: bool)
    | RemoveDir(ok: bool)
    | CreatePid(ok: bool)
    | WritePart(text: Option<nat>)
    | FinishWrite(ok: bool)
    | Leave
    | EnterRelease
    | AbandonRelease
    | CheckOwn(read: bool)
    | ClearFlag

  function At(s: State, p: Proc): Pc {
    if p in s.pc then s.pc[p] else Outside
  }

  predicate InGuard(pc: Pc) { !pc.Outside? && !pc.Released? }

  predicate Alive(c: Config, s: State, pid: nat) {
    exists p :: p in s.live && c.pid(p) == pid
  }

  datatype Verdict = LockAlive | LockDead | LockIncomplete

  /** `_inspect_unix_lock`. */
  function Inspection(c: Config, s: State, read: bool, stale: bool): Verdict
    requires s.dir.Some?
  {
    if read && s.dir.value.Text? && s.dir.value.pid.Some? then
      if Alive(c, s, s.dir.value.pid.value) then LockAlive else LockDead
    else if stale then LockDead else LockIncomplete
  }

  predicate Enabled(c: Config, s: State, p: Proc, a: Act) {
    match a
    case Spawn => p !in s.pc && !Alive(c, s, c.pid(p))
    case Crash => p in s.live
    case _ => p in s.live && p in s.pc && EnabledAt(c, s, p, a)
  }

  predicate EnabledAt(c: Config, s: State, p: Proc, a: Act) {
    var pc := At(s, p);
    match a
    case Spawn => false
    case Crash => false
    case Enter => pc.Outside? && p !in s.flags && s.guard.None?
    case MakeDir(_) => pc.Try? && pc.k < c.attempts
    case GiveUp => pc.Try? && pc.k >= c.attempts
    case Inspect(_, _) => pc.Inspecting? && s.dir.Some?
    case Unlink(_) => pc.Reclaim? || pc.Undo? || pc.Dropping?
    case RemoveDir(_) => pc.Emptied? || pc.UndoEmpty? || pc.Dropped?
    case CreatePid(_) => pc.Created?
    case WritePart(_) => pc.Writing?
    case FinishWrite(_) => pc.Writing?
    case Leave => pc.Failed? || pc.Acquired? || pc.Finished?
    case EnterRelease => pc.Outside? && p in s.flags && s.guard.None?
    case AbandonRelease => pc.Outside? && p in s.flags
    case CheckOwn(_) => pc.Checking?
    case ClearFlag => pc.Released?
  }

  /** What follows the removal of the directory, or a failure to remove it. */
  function AfterRemoval(pc: Pc): Pc {
    match pc
    case Reclaim(k) => Try(k + 1)
    case Emptied(k) => Try(k + 1)
    case Undo => Failed
    case UndoEmpty => Failed
    case _ => Finished
  }

  function AfterUnlink(pc: Pc): Pc {
    match pc
    case Reclaim(k) => Emptied(k)
    case Undo => UndoEmpty
    case _ => Dropped
  }

  function Goto(s: State, p: Proc, pc: Pc): State {
    s.(pc := s.pc[p := pc])
  }

  function Apply(c: Config, s: State, p: Proc, a: Act): State
    requires Enabled(c, s, p, a)
  {
    var pc := At(s, p);
    match a
    case Spawn => s.(live := s.live + {p}, pc := s.pc[p := Outside])
    case Crash =>
      s.(live := s.live - {p}, flags := s.flags - {p}, guard := if s.guard == Some(p) then None else s.guard)
    case Enter => Goto(s.(guard := Some(p)), p, Try(0))
    case MakeDir(ok) =>
      if s.dir.Some? then Goto(s, p, Inspecting(pc.k))
      else if ok then Goto(s.(dir := Some(NoFile)), p, Created)
      else Goto(s, p, Failed)
    case GiveUp => Goto(s, p, Failed)
    case Inspect(read, stale) =>
      (match Inspection(c, s, read, stale)
       case LockAlive => Goto(s, p, Failed)
       case LockDead => Goto(s, p, Reclaim(pc.k))
       case LockIncomplete => Goto(s, p, Try(pc.k + 1)))
    case Unlink(ok) =>
      if ok && s.dir.Some? then Goto(s.(dir := Some(NoFile)), p, AfterUnlink(pc)) else Goto(s, p, AfterRemoval(pc))
    case RemoveDir(ok) => Goto(if ok && s.dir == Some(NoFile) then s.(dir := None) else s, p, AfterRemoval(pc))
    case CreatePid(ok) => if ok then Goto(s.(dir := Some(Text(None))), p, Writing) else Goto(s, p, Undo)
    case WritePart(text) => s.(dir := Some(Text(text)))
    case FinishWrite(ok) =>
      if ok then Goto(s.(dir := Some(Text(Some(c.pid(p)))), flags := s.flags + {p}), p, Acquired) else Goto(s, p, Undo)
    case Leave => Goto(s.(guard := None), p, if pc.Finished? then Released else Outside)
    case EnterRelease => Goto(s.(guard := Some(p)), p, Checking)
    case AbandonRelease => s.(flags := s.flags - {p})
    case CheckOwn(read) =>
      if read && s.dir == Some(Text(Some(c.pid(p)))) then Goto(s, p, Dropping) else Goto(s, p, Finished)
    case ClearFlag => Goto(s.(flags := s.flags - {p}), p, Outside)
  }

  // ---------------------------------------------------------------- the invariant

  /** The process owns the lock: it acquired it and has not started to give the directory up. */
  predicate Holder(s: State, p: Proc) {
    p in s.live && p in s.flags && (At(s, p).Outside? || At(s, p).Acquired? || At(s, p).Checking? || At(s, p).Dropping?)
  }

  ghost predicate PidsInv(c: Config, s: State) {
    forall p, q :: p in s.live && q in s.live && c.pid(p) == c.pid(q) ==> p == q
  }

  ghost predicate GuardInv(s: State) {
    && (forall p :: p in s.live ==> (InGuard(At(s, p)) <==> s.guard == Some(p)))
    && (s.guard.Some? ==> s.guard.value in s.live)
    && s.live <= s.pc.Keys && s.flags <= s.live
  }

  /** A live owner's directory exists and names it. */
  ghost predicate HolderInv(c: Config, s: State) {
    forall p :: Holder(s, p) ==> s.dir == Some(Text(Some(c.pid(p))))
  }

  /** The steps at which the directory is being created or taken apart. */
  predicate Handling(pc: Pc) {
    pc.Created? || pc.Writing? || pc.Undo? || pc.UndoEmpty? || pc.Reclaim? || pc.Emptied? || pc.Dropped?
  }

  predicate Acquiring(pc: Pc) {
    pc.Try? || pc.Inspecting? || pc.Reclaim? || pc.Emptied? || pc.Created? || pc.Writing? || pc.Undo? ||
      pc.UndoEmpty? || pc.Failed?
  }

  /** While the directory is being handled nobody owns the lock. */
  ghost predicate PhaseInv(s: State) {
    forall p :: p in s.live ==>
      && (Handling(At(s, p)) ==> s.dir.Some? && forall q :: !Holder(s, q))
      && (At(s, p).Inspecting? ==> s.dir.Some?)
      && (At(s, p).Checking? || At(s, p).Dropping? ==> p in s.flags)
      && (Acquiring(At(s, p)) ==> p !in s.flags)
  }

  ghost predicate Inv(c: Config, s: State) {
    PidsInv(c, s) && GuardInv(s) && HolderInv(c, s) && PhaseInv(s)
  }

  predicate Init(s: State) {
    s == State({}, None, None, map[], {})
  }

  /** A failed read of the pid file of a live owner whose directory is older than the threshold. */
  predicate Misread(s: State, a: Act) {
    a.Inspect? && !a.read && a.stale && exists q :: q in s.live && Holder(s, q)
  }

  // ---------------------------------------------------------------- every step keeps the invariant

  lemma PidsStep(c: Config, s: State, p: Proc, a: Act)
    requires PidsInv(c, s) && Enabled(c, s, p, a)
    ensures PidsInv(c, Apply(c, s, p, a))
  {
    assert forall q :: q in s.live ==> (c.pid(q) == c.pid(p) ==> Alive(c, s, c.pid(p)));
  }

  lemma GuardStep(c: Config, s: State, p: Proc, a: Act)
    requires GuardInv(s) && Enabled(c, s, p, a)
    ensures GuardInv(Apply(c, s, p, a))
  {
    var t := Apply(c, s, p, a);
    forall q | q != p ensures At(t, q) == At(s, q) {}
  }

  /** A process becomes an owner only by finishing its metadata. */
  lemma NewHolder(c: Config, s: State, p: Proc, a: Act, q: Proc)
    requires GuardInv(s) && PhaseInv(s) && Enabled(c, s, p, a) && Holder(Apply(c, s, p, a), q)
    ensures Holder(s, q) || (q == p && a == FinishWrite(true))
  {
  }

  /** The directory changes only at steps that handle it. */
  lemma DirChange(c: Config, s: State, p: Proc, a: Act)
    requires Enabled(c, s, p, a) && Apply(c, s, p, a).dir != s.dir
    ensures s.dir.None? || Handling(At(s, p)) || At(s, p).Dropping?
    ensures p in s.live
  {
  }

  lemma OneHolder(c: Config, s: State, p: Proc, q: Proc)
    requires PidsInv(c, s) && HolderInv(c, s) && Holder(s, p) && Holder(s, q)
    ensures p == q
  {
  }

  lemma HolderStep(c: Config, s: State, p: Proc, a: Act)
    requires Inv(c, s) && Enabled(c, s, p, a)
    ensures HolderInv(c, Apply(c, s, p, a))
  {
    var t := Apply(c, s, p, a);
    forall q | Holder(t, q) ensures t.dir == Some(Text(Some(c.pid(q)))) {
      NewHolder(c, s, p, a, q);
      if t.dir != s.dir && Holder(s, q) {
        DirChange(c, s, p, a);
        if At(s, p).Dropping? {
          OneHolder(c, s, p, q);
        }
      }
    }
  }

  /** Without a misread, a directory is judged dead only when nobody owns the lock. */
  lemma DeadUnowned(c: Config, s: State, read: bool, stale: bool)
    requires HolderInv(c, s) && s.dir.Some? && Inspection(c, s, read, stale).LockDead?
    requires !Misread(s, Inspect(read, stale))
    ensures forall q :: !Holder(s, q)
  {
    forall q | Holder(s, q) ensures false {
      assert Alive(c, s, c.pid(q));
    }
  }

  lemma PhaseStep(c: Config, s: State, p: Proc, a: Act)
    requires Inv(c, s) && Enabled(c, s, p, a) && !Misread(s, a)
    ensures PhaseInv(Apply(c, s, p, a))
  {
    var t := Apply(c, s, p, a);
    forall q | q in t.live ensures Handling(At(t, q)) ==> t.dir.Some? && forall r :: !Holder(t, r) {
      if Handling(At(t, q)) {
        HandlingStep(c, s, p, a, q);
      }
    }
    forall q | q in t.live
      ensures (At(t, q).Inspecting? ==> t.dir.Some?) && (At(t, q).Checking? || At(t, q).Dropping? ==> q in t.flags)
      ensures (Acquiring(At(t, q)) ==> q !in t.flags)
    {
      FlagsStep(c, s, p, a, q);
    }
  }

  lemma FlagsStep(c: Config, s: State, p: Proc, a: Act, q: Proc)
    requires Inv(c, s) && Enabled(c, s, p, a) && q in Apply(c, s, p, a).live
    ensures var t := Apply(c, s, p, a);
            (At(t, q).Inspecting? ==> t.dir.Some?) && (At(t, q).Checking? || At(t, q).Dropping? ==> q in t.flags) &&
              (Acquiring(At(t, q)) ==> q !in t.flags)
  {
    if q != p && InGuard(At(s, q)) {
      GuardOnly(c, s, p, a, q);
    }
  }

  /** Another process inside the guard is not disturbed. */
  lemma GuardOnly(c: Config, s: State, p: Proc, a: Act, q: Proc)
    requires Inv(c, s) && Enabled(c, s, p, a) && q in s.live && q != p && InGuard(At(s, q))
    ensures var t := Apply(c, s, p, a);
            t.dir == s.dir && At(t, q) == At(s, q) && (q in t.flags <==> q in s.flags) &&
              forall r :: Holder(t, r) ==> Holder(s, r)
  {
    var t := Apply(c, s, p, a);
    forall r | Holder(t, r) ensures Holder(s, r) { NewHolder(c, s, p, a, r); }
  }

  lemma HandlingStep(c: Config, s: State, p: Proc, a: Act, q: Proc)
    requires Inv(c, s) && Enabled(c, s, p, a) && !Misread(s, a)
    requires var t := Apply(c, s, p, a); q in t.live && Handling(At(t, q))
    ensures Apply(c, s, p, a).dir.Some? && forall r :: !Holder(Apply(c, s, p, a), r)
  {
    var t := Apply(c, s, p, a);
    if q != p {
      GuardOnly(c, s, p, a, q);
    } else {
      if a.Inspect? { DeadUnowned(c, s, a.read, a.stale); }
      forall r | Holder(t, r) ensures false {
        NewHolder(c, s, p, a, r);
        if At(s, p).Dropping? { OneHolder(c, s, p, r); }
      }
    }
  }

  /** Every step keeps the invariant, unless it misreads a live owner's metadata. */
  lemma StepInv(c: Config, s: State, p: Proc, a: Act)
    requires Inv(c, s) && Enabled(c, s, p, a) && !Misread(s, a)
    ensures Inv(c, Apply(c, s, p, a))
  {
    PidsStep(c, s, p, a);
    GuardStep(c, s, p, a);
    HolderStep(c, s, p, a);
    PhaseStep(c, s, p, a);
  }

  // ---------------------------------------------------------------- whole runs

  datatype Step = Step(p: Proc, a: Act)

  /** The steps lead from s to t, whoever takes them. */
  ghost predicate Run(c: Config, s: State, steps: seq<Step>, t: State)
    decreases |steps|
  {
    if steps == [] then t == s
    else Enabled(c, s, steps[0].p, steps[0].a) && Run(c, Apply(c, s, steps[0].p, steps[0].a), steps[1..], t)
  }

  /** No step of the run misreads a live owner's metadata. */
  ghost predicate NoMisread(c: Config, s: State, steps: seq<Step>)
    decreases |steps|
  {
    steps != [] && Enabled(c, s, steps[0].p, steps[0].a) ==>
      !Misread(s, steps[0].a) && NoMisread(c, Apply(c, s, steps[0].p, steps[0].a), steps[1..])
  }

  lemma {:induction false} RunInv(c: Config, s: State, steps: seq<Step>, t: State)
    requires Inv(c, s) && Run(c, s, steps, t) && NoMisread(c, s, steps)
    ensures Inv(c, t)
    decreases |steps|
  {
    if steps != [] {
      StepInv(c, s, steps[0].p, steps[0].a);
      RunInv(c, Apply(c, s, steps[0].p, steps[0].a), steps[1..], t);
    }
  }

  /** In every reachable state at most one live process owns the lock, and its directory names it. */
  lemma MutualExclusion(c: Config, s: State, steps: seq<Step>, t: State)
    requires Init(s) && Run(c, s, steps, t) && NoMisread(c, s, steps)
    ensures forall p, q :: Holder(t, p) && Holder(t, q) ==> p == q
    ensures forall p :: Holder(t, p) ==> p in t.live && t.dir == Some(Text(Some(c.pid(p))))
  {
    RunInv(c, s, steps, t);
    forall p, q | Holder(t, p) && Holder(t, q) ensures p == q { OneHolder(c, t, p, q); }
  }

  /** No other process touches a live owner's directory. */
  lemma NobodyElseRemoves(c: Config, s: State, p: Proc, a: Act, q: Proc)
    requires Inv(c, s) && Enabled(c, s, p, a) && Holder(s, q) && p != q
    ensures Apply(c, s, p, a).dir == s.dir && Holder(Apply(c, s, p, a), q)
  {
    if Apply(c, s, p, a).dir != s.dir {
      DirChange(c, s, p, a);
      if At(s, p).Dropping? { assert Holder(s, p); OneHolder(c, s, p, q); }
      assert false;
    }
  }

  /** An inspection condemns a live owner's directory exactly when it misreads it: the pid file cannot be
      read although the owner is alive, and the directory is older than the threshold. */
  lemma CondemnsOwner(c: Config, s: State, p: Proc, read: bool, stale: bool)
    requires Inv(c, s) && Enabled(c, s, p, Inspect(read, stale)) && exists q :: q in s.live && Holder(s, q)
    ensures At(Apply(c, s, p, Inspect(read, stale)), p).Reclaim? <==> !read && stale
  {
    var q :| q in s.live && Holder(s, q);
    assert Alive(c, s, c.pid(q));
  }

  // ---------------------------------------------------------------- taking over a directory

  function Exec(c: Config, s: State, steps: seq<Step>): Option<State>
    decreases |steps|
  {
    if steps == [] then Some(s)
    else if Enabled(c, s, steps[0].p, steps[0].a) then Exec(c, Apply(c, s, steps[0].p, steps[0].a), steps[1..])
    else None
  }

  lemma {:induction false} ExecRun(c: Config, s: State, steps: seq<Step>)
    requires Exec(c, s, steps).Some?
    ensures Run(c, s, steps, Exec(c, s, steps).value)
    decreases |steps|
  {
    if steps != [] { ExecRun(c, Apply(c, s, steps[0].p, steps[0].a), steps[1..]); }
  }

  lemma {:induction false} ExecAppend(c: Config, s: State, a: seq<Step>, b: seq<Step>)
    requires Exec(c, s, a).Some?
    ensures Exec(c, s, a + b) == Exec(c, Exec(c, s, a).value, b)
    decreases |a|
  {
    if a == [] {
      assert a + b == b;
    } else {
      assert (a + b)[1..] == a[1..] + b;
      ExecAppend(c, Apply(c, s, a[0].p, a[0].a), a[1..], b);
    }
  }

  lemma ExecStep(c: Config, s: State, p: Proc, a: Act, rest: seq<Step>)
    requires Enabled(c, s, p, a)
    ensures Exec(c, s, [Step(p, a)] + rest) == Exec(c, Apply(c, s, p, a), rest)
  {
    assert ([Step(p, a)] + rest)[1..] == rest;
  }

  /** p may start an acquisition. */
  predicate Ready(s: State, p: Proc) {
    p in s.live && p in s.pc && At(s, p).Outside? && p !in s.flags && s.guard.None?
  }

  function Creation(p: Proc): seq<Step> {
    [Step(p, MakeDir(true))] + ([Step(p, CreatePid(true))] + ([Step(p, FinishWrite(true))] + ([Step(p, Leave)] + [])))
  }

  function Removal(p: Proc): seq<Step> {
    [Step(p, Unlink(true))] + ([Step(p, RemoveDir(true))] + [])
  }

  function Clearing(p: Proc, read: bool, stale: bool): seq<Step> {
    [Step(p, Enter)] + ([Step(p, MakeDir(true))] + ([Step(p, Inspect(read, stale))] + Removal(p)))
  }

  /** The state in which p owns the lock and everything else is as in s. */
  function OwnedBy(c: Config, s: State, p: Proc): State {
    s.(dir := Some(Text(Some(c.pid(p)))), flags := s.flags + {p}, guard := None, pc := s.pc[p := Outside])
  }

  lemma CreationWorks(c: Config, s: State, p: Proc)
    requires p in s.live && p in s.pc && At(s, p).Try? && At(s, p).k < c.attempts && s.dir.None?
    ensures Exec(c, s, Creation(p)) == Some(OwnedBy(c, s, p))
  {
    var s1 := Apply(c, s, p, MakeDir(true));
    var s2 := Apply(c, s1, p, CreatePid(true));
    var s3 := Apply(c, s2, p, FinishWrite(true));
    var s4 := Apply(c, s3, p, Leave);
    assert s4 == OwnedBy(c, s, p);
    var l1 := [Step(p, Leave)] + [];
    var l2 := [Step(p, FinishWrite(true))] + l1;
    var l3 := [Step(p, CreatePid(true))] + l2;
    ExecStep(c, s3, p, Leave, []);
    ExecStep(c, s2, p, FinishWrite(true), l1);
    ExecStep(c, s1, p, CreatePid(true), l2);
    ExecStep(c, s, p, MakeDir(true), l3);
  }

  lemma RemovalWorks(c: Config, s: State, p: Proc)
    requires p in s.live && p in s.pc && At(s, p) == Reclaim(0) && s.dir.Some?
    ensures Exec(c, s, Removal(p)) == Some(s.(dir := None, pc := s.pc[p := Try(1)]))
  {
    var s1 := Apply(c, s, p, Unlink(true));
    var s2 := Apply(c, s1, p, RemoveDir(true));
    assert s2 == s.(dir := None, pc := s.pc[p := Try(1)]);
    ExecStep(c, s1, p, RemoveDir(true), []);
    ExecStep(c, s, p, Unlink(true), [Step(p, RemoveDir(true))] + []);
  }

  lemma ClearingWorks(c: Config, s: State, p: Proc, read: bool, stale: bool)
    requires Ready(s, p) && s.dir.Some? && Inspection(c, s, read, stale).LockDead? && c.attempts > 0
    ensures Exec(c, s, Clearing(p, read, stale)) == Some(s.(dir := None, guard := Some(p), pc := s.pc[p := Try(1)]))
  {
    var s1 := Apply(c, s, p, Enter);
    var s2 := Apply(c, s1, p, MakeDir(true));
    assert Inspection(c, s2, read, stale) == Inspection(c, s, read, stale);
    var s3 := Apply(c, s2, p, Inspect(read, stale));
    assert s3.pc[p := Try(1)] == s.pc[p := Try(1)];
    var l2 := [Step(p, Inspect(read, stale))] + Removal(p);
    RemovalWorks(c, s3, p);
    ExecStep(c, s2, p, Inspect(read, stale), Removal(p));
    ExecStep(c, s1, p, MakeDir(true), l2);
    ExecStep(c, s, p, Enter, [Step(p, MakeDir(true))] + l2);
  }

  /** A directory judged dead is removed and taken over in one call, given at least two attempts. */
  lemma TakeOver(c: Config, s: State, p: Proc, read: bool, stale: bool)
    requires Ready(s, p) && s.dir.Some? && Inspection(c, s, read, stale).LockDead? && c.attempts >= 2
    ensures Exec(c, s, Clearing(p, read, stale) + Creation(p)) == Some(OwnedBy(c, s, p))
  {
    ClearingWorks(c, s, p, read, stale);
    ExecAppend(c, s, Clearing(p, read, stale), Creation(p));
    var cleared := s.(dir := None, guard := Some(p), pc := s.pc[p := Try(1)]);
    CreationWorks(c, cleared, p);
    assert cleared.pc[p := Outside] == s.pc[p := Outside];
  }

  /** With a single attempt the call only clears the directory. */
  lemma OneAttemptOnlyClears(c: Config, s: State, p: Proc, read: bool, stale: bool)
    requires Ready(s, p) && s.dir.Some? && Inspection(c, s, read, stale).LockDead? && c.attempts == 1
    ensures Exec(c, s, Clearing(p, read, stale)).Some?
    ensures var t := Exec(c, s, Clearing(p, read, stale)).value;
            t.dir.None? && Enabled(c, t, p, GiveUp) && forall ok :: !Enabled(c, t, p, MakeDir(ok))
  {
    ClearingWorks(c, s, p, read, stale);
  }

  /** The directory of a dead owner, as its crash leaves it, is reclaimable unless its pid is in use again. */
  lemma DeadOwnerReclaimable(c: Config, s: State, p: Proc, n: nat, stale: bool)
    requires Ready(s, p) && s.dir == Some(Text(Some(n))) && c.attempts >= 2
    ensures !Alive(c, s, n) ==> Exec(c, s, Clearing(p, true, stale) + Creation(p)) == Some(OwnedBy(c, s, p))
    ensures Alive(c, s, n) ==> Blocked(c, s, p)
  {
    if !Alive(c, s, n) { TakeOver(c, s, p, true, stale); }
  }

  /** p does not own the lock, and the recorded pid is in use: p only gets as far as reading the directory. */
  ghost predicate Blocked(c: Config, s: State, p: Proc) {
    && p in s.live && p !in s.flags && NamesUsed(c, s)
    && (At(s, p).Outside? || At(s, p).Try? || At(s, p).Inspecting? || At(s, p).Failed?)
  }

  lemma BlockedStep(c: Config, s: State, p: Proc, a: Act)
    requires Blocked(c, s, p) && Enabled(c, s, p, a) && !a.Crash? && (a.Inspect? ==> a.read)
    ensures Blocked(c, Apply(c, s, p, a), p) && Apply(c, s, p, a).dir == s.dir
  {
  }

  /** The directory names a pid that is in use. */
  ghost predicate NamesUsed(c: Config, s: State) {
    s.dir.Some? && s.dir.value.Text? && s.dir.value.pid.Some? && Alive(c, s, s.dir.value.pid.value)
  }

  /** The directory names a pid in use all along, whatever the others do; p does not crash and its reads succeed. */
  ghost predicate UsedAllAlong(c: Config, s: State, steps: seq<Step>, p: Proc)
    decreases |steps|
  {
    && NamesUsed(c, s)
    && (steps != [] && Enabled(c, s, steps[0].p, steps[0].a) ==>
          && (steps[0].p == p ==> !steps[0].a.Crash? && (steps[0].a.Inspect? ==> steps[0].a.read))
          && UsedAllAlong(c, Apply(c, s, steps[0].p, steps[0].a), steps[1..], p))
  }

  /** However often p tries in such a run, it stays blocked: it never owns the lock and never changes the directory. */
  lemma {:induction false} BlockedStays(c: Config, s: State, steps: seq<Step>, t: State, p: Proc)
    requires Blocked(c, s, p) && Run(c, s, steps, t) && UsedAllAlong(c, s, steps, p)
    ensures Blocked(c, t, p) && !Holder(t, p)
    ensures forall a :: Enabled(c, t, p, a) && !a.Crash? && (a.Inspect? ==> a.read) ==> Apply(c, t, p, a).dir == t.dir
    decreases |steps|
  {
    if steps == [] {
      forall a | Enabled(c, t, p, a) && !a.Crash? && (a.Inspect? ==> a.read) ensures Apply(c, t, p, a).dir == t.dir {
        BlockedStep(c, t, p, a);
      }
    } else {
      var q, a := steps[0].p, steps[0].a;
      if q == p { BlockedStep(c, s, p, a); }
      BlockedStays(c, Apply(c, s, q, a), steps[1..], t, p);
    }
  }

  /** The directory of a dead owner names a pid in use, and nobody is at work on it. */
  ghost predicate Orphaned(c: Config, s: State, n: nat) {
    && s.dir == Some(Text(Some(n))) && Alive(c, s, n) && s.flags <= s.live <= s.pc.Keys
    && forall q :: q in s.live ==> Onlooker(s, q)
  }

  predicate Onlooker(s: State, q: Proc) {
    match At(s, q)
    case Outside => q !in s.flags
    case Try(_) => q !in s.flags
    case Inspecting(_) => q !in s.flags
    case Failed => q !in s.flags
    case Finished => true
    case Released => true
    case _ => false
  }

  /** Pid n is in use all along, and every read of the pid file succeeds. */
  ghost predicate ReadsAllAlong(c: Config, s: State, steps: seq<Step>, n: nat)
    decreases |steps|
  {
    && Alive(c, s, n)
    && (steps != [] && Enabled(c, s, steps[0].p, steps[0].a) ==>
          && (steps[0].a.Inspect? ==> steps[0].a.read)
          && ReadsAllAlong(c, Apply(c, s, steps[0].p, steps[0].a), steps[1..], n))
  }

  lemma OrphanStep(c: Config, s: State, p: Proc, a: Act, n: nat)
    requires Orphaned(c, s, n) && Enabled(c, s, p, a) && (a.Inspect? ==> a.read)
    requires Alive(c, Apply(c, s, p, a), n)
    ensures Orphaned(c, Apply(c, s, p, a), n)
  {
    var t := Apply(c, s, p, a);
    assert p in s.live ==> Onlooker(s, p);
    forall q | q in t.live && q != p ensures Onlooker(t, q) { assert Onlooker(s, q); }
  }

  /** Once an owner has died and its pid is in use again, no process ever takes the lock over, however long the
      run, as long as that pid stays in use and reads succeed. */
  lemma NobodyTakesOver(c: Config, s: State, steps: seq<Step>, t: State, n: nat)
    requires Inv(c, s) && s.guard.None? && s.dir == Some(Text(Some(n))) && forall q :: !Holder(s, q)
    requires Run(c, s, steps, t) && ReadsAllAlong(c, s, steps, n)
    ensures t.dir == Some(Text(Some(n))) && forall q :: !Holder(t, q)
  {
    forall q | q in s.live ensures Onlooker(s, q) { assert !Holder(s, q); }
    OrphanRun(c, s, steps, t, n);
    forall q ensures !Holder(t, q) { assert q in t.live ==> Onlooker(t, q); }
  }

  lemma {:induction false} OrphanRun(c: Config, s: State, steps: seq<Step>, t: State, n: nat)
    requires Orphaned(c, s, n) && Run(c, s, steps, t) && ReadsAllAlong(c, s, steps, n)
    ensures Orphaned(c, t, n)
    decreases |steps|
  {
    if steps != [] {
      OrphanStep(c, s, steps[0].p, steps[0].a, n);
      OrphanRun(c, Apply(c, s, steps[0].p, steps[0].a), steps[1..], t, n);
    }
  }

  /** Reclaiming spends one attempt, whether or not the stale directory could be removed. */
  lemma ReclaimSpendsOne(c: Config, s: State, p: Proc, k: nat, ok: bool)
    requires p in s.live && p in s.pc
    ensures At(s, p) == Reclaim(k) ==>
            At(Apply(c, s, p, Unlink(ok)), p) == if ok && s.dir.Some? then Emptied(k) else Try(k + 1)
    ensures At(s, p) == Emptied(k) ==> At(Apply(c, s, p, RemoveDir(ok)), p) == Try(k + 1)
  {
  }

  // ---------------------------------------------------------------- giving the lock back

  /** p owns the lock, and the guard is free for its release. */
  ghost predicate MayRelease(c: Config, s: State, p: Proc) {
    Inv(c, s) && Holder(s, p) && p in s.pc && At(s, p).Outside? && s.guard.None?
  }

  /** The steps of a release in which reading the pid file, unlinking it and removing the directory work or fail. */
  function Release(p: Proc, read: bool, unlink: bool, remove: bool): seq<Step> {
    [Step(p, EnterRelease)] + ([Step(p, CheckOwn(read))] + if read then Dismantling(p, unlink, remove) else Leaving(p))
  }

  function Dismantling(p: Proc, unlink: bool, remove: bool): seq<Step> {
    [Step(p, Unlink(unlink))] + if unlink then [Step(p, RemoveDir(remove))] + Leaving(p) else Leaving(p)
  }

  function Leaving(p: Proc): seq<Step> {
    [Step(p, Leave)] + ([Step(p, ClearFlag)] + [])
  }

  /** The state after p gave up its ownership and left `dir` behind. */
  function Unowned(s: State, p: Proc, dir: Option<PidFile>): State {
    s.(dir := dir, flags := s.flags - {p}, guard := None, pc := s.pc[p := Outside])
  }

  lemma LeavingWorks(c: Config, s: State, p: Proc)
    requires p in s.live && p in s.pc && At(s, p).Finished?
    ensures Exec(c, s, Leaving(p)) == Some(Unowned(s, p, s.dir))
  {
    var s1 := Apply(c, s, p, Leave);
    assert Apply(c, s1, p, ClearFlag) == Unowned(s, p, s.dir);
    ExecStep(c, s1, p, ClearFlag, []);
    ExecStep(c, s, p, Leave, [Step(p, ClearFlag)] + []);
  }

  lemma DismantlingWorks(c: Config, s: State, p: Proc, unlink: bool, remove: bool)
    requires p in s.live && p in s.pc && At(s, p).Dropping? && s.dir.Some?
    ensures Exec(c, s, Dismantling(p, unlink, remove)) ==
            Some(Unowned(s, p, if !unlink then s.dir else if remove then None else Some(NoFile)))
  {
    var s1 := Apply(c, s, p, Unlink(unlink));
    if unlink {
      var s2 := Apply(c, s1, p, RemoveDir(remove));
      LeavingWorks(c, s2, p);
      assert Unowned(s2, p, s2.dir) == Unowned(s, p, s2.dir);
      ExecStep(c, s1, p, RemoveDir(remove), Leaving(p));
      ExecStep(c, s, p, Unlink(unlink), [Step(p, RemoveDir(remove))] + Leaving(p));
    } else {
      LeavingWorks(c, s1, p);
      assert Unowned(s1, p, s1.dir) == Unowned(s, p, s.dir);
      ExecStep(c, s, p, Unlink(unlink), Leaving(p));
    }
  }

  /** A release always ends the ownership; it leaves the directory behind exactly when reading the pid file,
      unlinking it or removing the directory fails. */
  lemma ReleaseGivesBack(c: Config, s: State, p: Proc, read: bool, unlink: bool, remove: bool)
    requires MayRelease(c, s, p)
    ensures Exec(c, s, Release(p, read, unlink, remove)).Some?
    ensures var t := Exec(c, s, Release(p, read, unlink, remove)).value;
            && t == Unowned(s, p, t.dir) && p !in t.flags && !Holder(t, p)
            && (t.dir.None? <==> read && unlink && remove)
            && (!read || !unlink ==> t.dir == s.dir)
  {
    var s1 := Apply(c, s, p, EnterRelease);
    var s2 := Apply(c, s1, p, CheckOwn(read));
    assert s1.dir == Some(Text(Some(c.pid(p))));
    var rest := if read then Dismantling(p, unlink, remove) else Leaving(p);
    if read { DismantlingWorks(c, s2, p, unlink, remove); } else { LeavingWorks(c, s2, p); }
    assert forall d :: Unowned(s2, p, d) == Unowned(s, p, d);
    ExecStep(c, s1, p, CheckOwn(read), rest);
    ExecStep(c, s, p, EnterRelease, [Step(p, CheckOwn(read))] + rest);
  }

  /** A release that cannot enter the guard leaves the directory and ends the ownership all the same. */
  lemma AbandonedRelease(c: Config, s: State, p: Proc)
    requires MayRelease(c, s, p)
    ensures Exec(c, s, [Step(p, AbandonRelease)]) == Some(s.(flags := s.flags - {p}))
    ensures !Holder(s.(flags := s.flags - {p}), p)
  {
    ExecStep(c, s, p, AbandonRelease, []);
    assert [Step(p, AbandonRelease)] + [] == [Step(p, AbandonRelease)];
  }

  /** A call whose attempts are used up fails: it leaves the guard, and everything else as it found it. */
  lemma ExhaustedCallFails(c: Config, s: State, p: Proc)
    requires p in s.live && p in s.pc && At(s, p).Try? && At(s, p).k >= c.attempts
    ensures Exec(c, s, [Step(p, GiveUp)] + ([Step(p, Leave)] + [])) == Some(s.(guard := None, pc := s.pc[p := Outside]))
  {
    var t := Apply(c, s, p, GiveUp);
    assert Apply(c, t, p, Leave) == s.(guard := None, pc := s.pc[p := Outside]);
    ExecStep(c, t, p, Leave, []);
    ExecStep(c, s, p, GiveUp, [Step(p, Leave)] + []);
  }

  function Acquisition(p: Proc): seq<Step> { [Step(p, Enter)] + Creation(p) }

  /** Where there is no directory, whoever is ready acquires the lock in one call. */
  lemma FreeLockAcquired(c: Config, s: State, p: Proc)
    requires Ready(s, p) && s.dir.None? && c.attempts > 0
    ensures Exec(c, s, Acquisition(p)) == Some(OwnedBy(c, s, p)) && Holder(OwnedBy(c, s, p), p)
  {
    var s1 := Apply(c, s, p, Enter);
    CreationWorks(c, s1, p);
    assert OwnedBy(c, s1, p) == OwnedBy(c, s, p);
    ExecStep(c, s, p, Enter, Creation(p));
  }

  /** So after a release that worked, any process that is ready acquires the lock. */
  lemma ReleasedAcquirable(c: Config, s: State, p: Proc, q: Proc)
    requires MayRelease(c, s, p) && c.attempts > 0
    ensures Exec(c, s, Release(p, true, true, true)).Some?
    ensures var t := Exec(c, s, Release(p, true, true, true)).value;
            Ready(t, q) ==> Exec(c, t, Acquisition(q)) == Some(OwnedBy(c, t, q))
  {
    ReleaseGivesBack(c, s, p, true, true, true);
    var t := Exec(c, s, Release(p, true, true, true)).value;
    if Ready(t, q) { FreeLockAcquired(c, t, q); }
  }

  /** Acquiring a free lock and releasing it restores the state. */
  lemma AcquireReleaseRestores(c: Config, s: State, p: Proc)
    requires Inv(c, s) && Ready(s, p) && s.dir.None? && c.attempts > 0
    ensures Exec(c, s, Acquisition(p) + Release(p, true, true, true)) == Some(s)
  {
    var owned := OwnedBy(c, s, p);
    FreeLockAcquired(c, s, p);
    AcquisitionInv(c, s, p);
    ExecAppend(c, s, Acquisition(p), Release(p, true, true, true));
    ReleaseGivesBack(c, owned, p, true, true, true);
    assert Unowned(owned, p, None) == s;
  }

  lemma AcquisitionInv(c: Config, s: State, p: Proc)
    requires Inv(c, s) && Ready(s, p) && s.dir.None? && c.attempts > 0
    ensures Inv(c, OwnedBy(c, s, p))
  {
    var s1 := Apply(c, s, p, Enter);
    StepInv(c, s, p, Enter);
    CreationInv(c, s1, p);
    assert OwnedBy(c, s1, p) == OwnedBy(c, s, p);
  }

  lemma CreationInv(c: Config, s: State, p: Proc)
    requires Inv(c, s) && p in s.live && p in s.pc && At(s, p).Try? && At(s, p).k < c.attempts && s.dir.None?
    ensures Inv(c, OwnedBy(c, s, p))
  {
    var s1 := Apply(c, s, p, MakeDir(true));
    StepInv(c, s, p, MakeDir(true));
    var s2 := Apply(c, s1, p, CreatePid(true));
    StepInv(c, s1, p, CreatePid(true));
    WritingInv(c, s2, p);
    assert OwnedBy(c, s2, p) == OwnedBy(c, s, p);
  }

  lemma WritingInv(c: Config, s: State, p: Proc)
    requires Inv(c, s) && p in s.live && p in s.pc && At(s, p).Writing?
    ensures Inv(c, OwnedBy(c, s, p))
  {
    var s1 := Apply(c, s, p, FinishWrite(true));
    StepInv(c, s, p, FinishWrite(true));
    StepInv(c, s1, p, Leave);
    assert Apply(c, s1, p, Leave) == OwnedBy(c, s, p);
  }

  function Undoing(p: Proc): seq<Step> {
    [Step(p, Unlink(true))] + ([Step(p, RemoveDir(true))] + ([Step(p, Leave)] + []))
  }

  /** An acquisition whose pid file cannot be created or written takes its directory away again. */
  function FailedAcquisition(p: Proc, created: bool): seq<Step> {
    [Step(p, Enter)] + ([Step(p, MakeDir(true))] + ([Step(p, CreatePid(created))] +
      if created then [Step(p, FinishWrite(false))] + Undoing(p) else Undoing(p)))
  }

  lemma UndoingWorks(c: Config, s: State, p: Proc)
    requires p in s.live && p in s.pc && At(s, p).Undo? && s.dir.Some?
    ensures Exec(c, s, Undoing(p)) == Some(s.(dir := None, guard := None, pc := s.pc[p := Outside]))
  {
    var s1 := Apply(c, s, p, Unlink(true));
    var s2 := Apply(c, s1, p, RemoveDir(true));
    assert Apply(c, s2, p, Leave) == s.(dir := None, guard := None, pc := s.pc[p := Outside]);
    ExecStep(c, s2, p, Leave, []);
    ExecStep(c, s1, p, RemoveDir(true), [Step(p, Leave)] + []);
    ExecStep(c, s, p, Unlink(true), [Step(p, RemoveDir(true))] + ([Step(p, Leave)] + []));
  }

  lemma FailedAcquisitionRestores(c: Config, s: State, p: Proc, created: bool)
    requires Ready(s, p) && s.dir.None? && c.attempts > 0
    ensures Exec(c, s, FailedAcquisition(p, created)) == Some(s)
  {
    var s1 := Apply(c, s, p, Enter);
    var s2 := Apply(c, s1, p, MakeDir(true));
    var s3 := Apply(c, s2, p, CreatePid(created));
    var l3 := if created then [Step(p, FinishWrite(false))] + Undoing(p) else Undoing(p);
    var l2 := [Step(p, CreatePid(created))] + l3;
    var s4 := if created then Apply(c, s3, p, FinishWrite(false)) else s3;
    UndoingWorks(c, s4, p);
    assert s4.(dir := None, guard := None, pc := s4.pc[p := Outside]) == s;
    if created { ExecStep(c, s3, p, FinishWrite(false), Undoing(p)); }
    ExecStep(c, s2, p, CreatePid(created), l3);
    ExecStep(c, s1, p, MakeDir(true), l2);
    ExecStep(c, s, p, Enter, [Step(p, MakeDir(true))] + l2);
  }

  /** What an acquirer that finds a directory goes on to do: it gives up when the directory names a process that is
      alive, reclaims it when the named process is dead or the directory has no readable pid and is old, and else
      tries again. */
  lemma InspectionDecides(c: Config, s: State, p: Proc, k: nat, read: bool, stale: bool)
    requires p in s.live && p in s.pc && At(s, p) == Inspecting(k) && s.dir.Some?
    ensures var named := read && s.dir.value.Text? && s.dir.value.pid.Some?;
            var alive := named && exists q :: q in s.live && c.pid(q) == s.dir.value.pid.value;
            var next := At(Apply(c, s, p, Inspect(read, stale)), p);
            && (next == Failed <==> alive)
            && (next == Reclaim(k) <==> (named && !alive) || (!named && stale))
            && (next == Try(k + 1) <==> !named && !stale)
  {
  }

  // ---------------------------------------------------------------- a misread gives the lock two owners

  function Born(s: State, p: Proc): State { s.(live := s.live + {p}, pc := s.pc[p := Outside]) }

  function FirstOwner(p: Proc): seq<Step> {
    [Step(p, Spawn)] + Acquisition(p)
  }

  lemma FirstOwnerWorks(c: Config, s: State, p: Proc)
    requires Init(s) && c.attempts > 0
    ensures Exec(c, s, FirstOwner(p)) == Some(OwnedBy(c, Born(s, p), p))
  {
    var s1 := Apply(c, s, p, Spawn);
    ExecStep(c, s, p, Spawn, Acquisition(p));
    FreeLockAcquired(c, s1, p);
    assert s1 == Born(s, p);
  }

  /** Process q fails to read the pid file of p, whose directory is old: both end up owning the lock. */
  lemma MisreadBreaksExclusion(c: Config, s: State, p: Proc, q: Proc) returns (steps: seq<Step>, t: State)
    requires Init(s) && c.attempts >= 2 && c.pid(p) != c.pid(q)
    ensures Run(c, s, steps, t) && Holder(t, p) && Holder(t, q) && p != q
  {
    var first, rest := FirstOwner(p), Clearing(q, false, true) + Creation(q);
    FirstOwnerWorks(c, s, p);
    var one := OwnedBy(c, Born(s, p), p);
    var two := Apply(c, one, q, Spawn);
    TakeOver(c, two, q, false, true);
    ExecStep(c, one, q, Spawn, rest);
    ExecAppend(c, s, first, [Step(q, Spawn)] + rest);
    steps, t := first + ([Step(q, Spawn)] + rest), OwnedBy(c, two, q);
    ExecRun(c, s, steps);
  }
}
