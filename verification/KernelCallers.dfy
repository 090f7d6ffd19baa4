/** Calls are made by threads: an exited process has none, so runs of thread-table calls are admissible. */
module KernelCallers {
  import opened Prelude
  import opened Tables
  import opened Labels
  import Security
  import opened Descriptors
  import opened KernelSteps
  import opened KernelIds
  import opened KernelFrame
  import opened KernelCreate
  import opened KernelFiles
  import opened KernelFileSteps
  import opened KernelThreads
  import opened KernelThreadSteps
  import opened KernelIpc
  import opened KernelWait
  import opened KernelRuns
  import opened KernelTheorems

  /** A process that has exited, by its id. */
  ghost predicate ZombieIn(procs: Procs, pid: ProcessId) {
    exists i :: 0 <= i < |procs| && procs[i].Some? && procs[i].value.pid == pid && procs[i].value.state == Zombie
  }

  /** No thread entry names a process that has exited. */
  ghost predicate Unhaunted(k: KernelState) {
    forall t :: 0 <= t < |k.threads| && k.threads[t].Some? ==> !ZombieIn(k.procs, k.threads[t].value.process)
  }

  /** Every thread was there before, for the same process, or belongs to `pid`. */
  ghost predicate StaffOf(t: Threads, u: Threads, pid: Option<ProcessId>) {
    && |u| == |t|
    && forall i :: 0 <= i < |u| && u[i].Some? ==>
         || (t[i].Some? && t[i].value.process == u[i].value.process)
         || pid == Some(u[i].value.process)
  }

  /** Nobody exits. */
  ghost predicate NoneDies(p: Procs, q: Procs) {
    forall pid :: ZombieIn(q, pid) ==> ZombieIn(p, pid)
  }

  lemma StaffKeeps(k: KernelState, k2: KernelState, pid: Option<ProcessId>)
    requires Unhaunted(k) && StaffOf(k.threads, k2.threads, pid) && NoneDies(k.procs, k2.procs)
    requires pid.Some? ==> !ZombieIn(k2.procs, pid.value)
    ensures Unhaunted(k2)
  {
    hide ZombieIn;
  }

  lemma SameLifeNoneDies(p: Procs, q: Procs)
    requires SameLife(p, q)
    ensures NoneDies(p, q)
  {
    forall pid | ZombieIn(q, pid)
      ensures ZombieIn(p, pid)
    {
      var i :| 0 <= i < |q| && q[i].Some? && q[i].value.pid == pid && q[i].value.state == Zombie;
      assert SameSlot(p[i], q[i]);
    }
  }

  lemma FewerNoneDies(p: Procs, q: Procs)
    requires |p| == |q| && forall i :: 0 <= i < |p| ==> q[i] == p[i] || q[i].None? || q[i].value.state != Zombie
    ensures NoneDies(p, q)
  {
    forall pid | ZombieIn(q, pid)
      ensures ZombieIn(p, pid)
    {
      var i :| 0 <= i < |q| && q[i].Some? && q[i].value.pid == pid && q[i].value.state == Zombie;
      assert p[i] == q[i];
    }
  }

  lemma SameCrewStaff(t: Threads, u: Threads)
    requires SameCrew(t, u)
    ensures StaffOf(t, u, None)
  {
  }

  /** Steps that keep every process what it is, and every thread where it is. */
  lemma QuietStaff(k: KernelState, k2: KernelState)
    requires Unhaunted(k) && SameLife(k.procs, k2.procs) && SameCrew(k.threads, k2.threads)
    ensures Unhaunted(k2)
  {
    SameLifeNoneDies(k.procs, k2.procs);
    SameCrewStaff(k.threads, k2.threads);
    hide SameLife, SameCrew, Unhaunted, StaffOf, NoneDies;
    StaffKeeps(k, k2, None);
  }

  /** A located process that is live is no zombie. */
  lemma LiveIsNoZombie(procs: Procs, n: nat, pid: ProcessId)
    requires ProcIds(procs, n) && LiveAt(procs, Locate(procs, pid))
    ensures !ZombieIn(procs, pid)
  {
    if ZombieIn(procs, pid) {
      var i :| 0 <= i < |procs| && procs[i].Some? && procs[i].value.pid == pid && procs[i].value.state == Zombie;
      LocateIs(procs, n, i);
    }
  }

  lemma UnknownIsNoZombie(procs: Procs, n: nat, pid: ProcessId)
    requires ProcIds(procs, n) && n <= pid
    ensures !ZombieIn(procs, pid)
  {
  }

  /** Burying a process takes its threads. */
  lemma BuriedStaff(k: KernelState, i: nat, status: int)
    requires Unhaunted(k) && i < |k.procs| == |k.queues| && k.procs[i].Some?
    ensures Unhaunted(Buried(k, i, status))
  {
    hide Drop, Swept, RevokeTask;
    var b, pid := Buried(k, i, status), k.procs[i].value.pid;
    forall t | 0 <= t < |b.threads| && b.threads[t].Some?
      ensures !ZombieIn(b.procs, b.threads[t].value.process)
    {
      assert b.threads[t] == k.threads[t] && !ThreadOf(pid)(k.threads[t]);
      assert !ZombieIn(k.procs, b.threads[t].value.process);
    }
  }

  lemma ExitStaff(k: KernelState, pid: ProcessId, status: int, readyOk: bool, wakes: ThreadId -> bool)
    requires Unhaunted(k) && |k.queues| == |k.procs|
    ensures Unhaunted(Exit(k, pid, status, readyOk, wakes))
  {
    hide First, Unhaunted, Buried, ParentWoken, SameLife, SameFiles, SameCounts, SameCrew;
    var i := Locate(k.procs, pid);
    if i < |k.procs| && k.procs[i].value.state != Zombie {
      var b := Buried(k, i, status);
      BuriedStaff(k, i, status);
      BuriedSlot(k, i, status);
      ParentWokenFrame(b, i, readyOk, wakes);
      ParentWokenCrew(b, i, readyOk, wakes);
      QuietStaff(b, ParentWoken(b, i, readyOk, wakes));
    }
  }

  lemma WaitStaff(k: KernelState, parent: ProcessId, thread: Option<ThreadId>, selector: int,
                  writeOk: bool, noHang: bool, blockOk: bool)
    requires Unhaunted(k) && LiveCaller(k, parent)
    ensures Unhaunted(Wait(k, parent, thread, selector, writeOk, noHang, blockOk).0)
  {
    var (k2, r) := Wait(k, parent, thread, selector, writeOk, noHang, blockOk);
    WaitCrew(k, parent, thread, selector, writeOk, noHang, blockOk);
    WaitFrame(k, parent, thread, selector, writeOk, noHang, blockOk);
    hide Wait, First, Unhaunted, SameCrew, StaffOf, NoneDies;
    if r.Reaped? {
      ReapedTable(k, parent, thread, selector, writeOk, noHang, blockOk);
      var i := Locate(k.procs, parent);
      FewerNoneDies(k.procs, k2.procs);
      SameCrewStaff(k.threads, k2.threads);
      StaffKeeps(k, k2, None);
    } else {
      QuietStaff(k, k2);
    }
  }

  lemma CreateStaff(k: KernelState, prepared: Prepared, creds: Credentials, mtssOk: bool)
    requires Unhaunted(k) && FreeSlot(k) < |k.procs|
    requires ProcIds(k.procs, k.nextPid) && ThreadIds(k.threads, k.nextThread) && Security.Below(k.security, k.nextPid)
    requires prepared.pcb.Some? ==> var p := prepared.pcb.value;
             p.pid == k.nextPid && p.threadCount == 0 && p.state == Ready
    ensures Unhaunted(CreateFrom(k, prepared, creds, mtssOk).0)
  {
    CreateFromOutcome(k, prepared, creds, mtssOk);
    var (k2, created) := CreateFrom(k, prepared, creds, mtssOk);
    UnknownIsNoZombie(k.procs, k.nextPid, k.nextPid);
    hide CreateFrom, First, Joined, RegisterOk, Drop, ProcIds, ThreadIds, Security.Below, Unhaunted, NoneDies, ZombieIn;
    FewerNoneDies(k.procs, k2.procs);
    DeathlessStaff(k.procs, k2.procs, k.nextPid);
    StaffKeeps(k, k2, Some(k.nextPid));
  }

  lemma DeathlessStaff(p: Procs, q: Procs, pid: ProcessId)
    requires NoneDies(p, q) && !ZombieIn(p, pid)
    ensures !ZombieIn(q, pid)
  {
  }

  lemma SpawnStaff(k: KernelState, parent: Option<ProcessId>, creds: Credentials, cloned: Space, mtssOk: bool)
    requires Unhaunted(k) && TablesOk(k.procs)
    requires ProcIds(k.procs, k.nextPid) && ThreadIds(k.threads, k.nextThread) && Security.Below(k.security, k.nextPid)
    ensures Unhaunted(Spawn(k, parent, creds, cloned, mtssOk).0)
  {
    hide Unhaunted, Spawn, Prepare, CreateFrom, First, MaySpawn, TablesOk, ProcIds, ThreadIds, Security.Below;
    SpawnIs(k, parent, creds, cloned, mtssOk);
    if Spawn(k, parent, creds, cloned, mtssOk) != (k, None) {
      CreateStaff(k, Prepare(k, parent, cloned), creds, mtssOk);
    }
  }

  lemma CloneProcessStaff(k: KernelState, caller: ProcessId, creds: Credentials, cloned: Space, mtssOk: bool)
    requires Unhaunted(k) && TablesOk(k.procs)
    requires ProcIds(k.procs, k.nextPid) && ThreadIds(k.threads, k.nextThread) && Security.Below(k.security, k.nextPid)
    ensures Unhaunted(CloneProcess(k, caller, creds, cloned, mtssOk).0)
  {
    hide Unhaunted, CloneProcess, PrepareShell, CreateFrom, First, MaySpawn, TablesOk, ProcIds, ThreadIds,
      Security.Below;
    CloneProcessIs(k, caller, creds, cloned, mtssOk);
    if CloneProcess(k, caller, creds, cloned, mtssOk) != (k, None) {
      CreateStaff(k, PrepareShell(k, caller, cloned), creds, mtssOk);
    }
  }

  lemma RollbackStaff(k: KernelState, pid: ProcessId)
    requires Unhaunted(k)
    ensures Unhaunted(RollbackShell(k, pid))
  {
    hide First, Drop, RevokeTask, Unhaunted, NoneDies;
    var k2 := RollbackShell(k, pid);
    FewerNoneDies(k.procs, k2.procs);
    StaffKeeps(k, k2, None);
  }

  lemma SpawnLoadedStaff(k: KernelState, parent: ProcessId, creds: Credentials, cloned: Space, mtssOk: bool,
                         loadOk: bool)
    requires Unhaunted(k) && TablesOk(k.procs)
    requires ProcIds(k.procs, k.nextPid) && ThreadIds(k.threads, k.nextThread) && Security.Below(k.security, k.nextPid)
    ensures Unhaunted(SpawnLoaded(k, parent, creds, cloned, mtssOk, loadOk).0)
  {
    hide Unhaunted, Spawn, RollbackShell;
    SpawnStaff(k, Some(parent), creds, cloned, mtssOk);
    var (k1, child) := Spawn(k, Some(parent), creds, cloned, mtssOk);
    if child.Some? {
      RollbackStaff(k1, child.value);
    }
  }

  lemma ThreadStepStaff(k: KernelState, pid: ProcessId, id: ThreadId, mtssOk: bool)
    ensures StaffOf(k.threads, CloneThread(k, pid, mtssOk).0.threads, Some(pid))
    ensures StaffOf(k.threads, RemoveThread(k, id).threads, None)
  {
    hide First, Counted, LocateThread;
  }

  lemma CloneThreadStaff(k: KernelState, caller: ProcessId, mtssOk: bool)
    requires Unhaunted(k) && ProcIds(k.procs, k.nextPid) && LiveCaller(k, caller)
    ensures Unhaunted(CloneThread(k, caller, mtssOk).0)
  {
    var k2 := CloneThread(k, caller, mtssOk).0;
    ThreadStepStaff(k, caller, 0, mtssOk);
    ThreadStepFrame(k, caller, 0, mtssOk);
    hide First, SameLife, SameFiles, SameWaits, StaffOf, Unhaunted, NoneDies, ZombieIn;
    SameLifeNoneDies(k.procs, k2.procs);
    if Locate(k.procs, caller) < |k.procs| {
      LiveIsNoZombie(k.procs, k.nextPid, caller);
      DeathlessStaff(k.procs, k2.procs, caller);
      StaffKeeps(k, k2, Some(caller));
    }
  }

  lemma RemoveThreadStaff(k: KernelState, id: ThreadId)
    requires Unhaunted(k)
    ensures Unhaunted(RemoveThread(k, id))
  {
    ThreadStepStaff(k, 0, id, true);
    ThreadStepFrame(k, 0, id, true);
    hide RemoveThread, SameLife, SameFiles, SameWaits, StaffOf, Unhaunted, NoneDies;
    SameLifeNoneDies(k.procs, RemoveThread(k, id).procs);
    StaffKeeps(k, RemoveThread(k, id), None);
  }

  lemma ReimagedStaff(k: KernelState, i: nat, current: Option<ThreadId>, root: nat)
    requires i < |k.procs| && k.procs[i].Some?
    ensures StaffOf(k.threads, Reimaged(k, i, current, root).0.threads, Some(k.procs[i].value.pid))
  {
    hide First, Swept, KeptThread, LocateThread, Counted;
  }

  lemma ExecStaffOf(k: KernelState, request: Security.ExecRequest, current: Option<ThreadId>, root: nat, mtssOk: bool,
                    readyOk: bool)
    ensures StaffOf(k.threads, Exec(k, request, current, root, mtssOk, readyOk).0.threads, Some(request.caller))
  {
    hide First, Swept, Drop, KeptFiles, ClosedFiles, Reimaged, Security.Apply, Security.DomainOf, Security.ExecAllowed;
    var i := Locate(k.procs, request.caller);
    if i < |k.procs| {
      var files := k.procs[i].value.files;
      var k1 := k.(procs := WithFiles(k.procs, i, KeptFiles(files)), counts := Drop(k.counts, ClosedFiles(files)));
      ReimagedStaff(k1, i, current, root);
    }
  }

  lemma ExecStaff(k: KernelState, request: Security.ExecRequest, current: Option<ThreadId>, root: nat, mtssOk: bool,
                  readyOk: bool)
    requires Unhaunted(k) && IpcInvariant(k)
    ensures Unhaunted(Exec(k, request, current, root, mtssOk, readyOk).0)
  {
    var k2 := Exec(k, request, current, root, mtssOk, readyOk).0;
    ExecCallerIsLive(k, request);
    IpcIds(k);
    if Security.DomainOf(k.security.domains, request.caller).None? {
      ExecRefused(k, request, current, root, mtssOk, readyOk);
    } else if Locate(k.procs, request.caller) == |k.procs| {
      hide First, Security.DomainOf, Unhaunted, IpcInvariant;
      assert k2 == k;
    } else {
      hide Exec, First, SameLife, SameWaits, StaffOf, Unhaunted, NoneDies, ZombieIn, IpcInvariant, ProcIds,
        Security.DomainOf;
      ExecFrame(k, request, current, root, mtssOk, readyOk);
      ExecStaffOf(k, request, current, root, mtssOk, readyOk);
      SameLifeNoneDies(k.procs, k2.procs);
      LiveIsNoZombie(k.procs, k.nextPid, request.caller);
      DeathlessStaff(k.procs, k2.procs, request.caller);
      StaffKeeps(k, k2, Some(request.caller));
    }
  }

  // ---------------------------------------------------------------------
  // Steps taken by threads
  // ---------------------------------------------------------------------

  /** Some thread of the process is in the table. */
  predicate Manned(k: KernelState, pid: ProcessId) {
    First(k.threads, ThreadOf(pid)) < |k.threads|
  }

  /** The call comes from a thread in the table, and an exec names no thread but one of the caller's own. */
  predicate ByThread(k: KernelState, step: Step) {
    match step
    case ReceiveOrBlockStep(caller, _) => Manned(k, caller)
    case WaitStep(caller, _, _, _, _, _) => Manned(k, caller)
    case OpenStep(caller, _) => Manned(k, caller)
    case CloneThreadStep(caller, _) => Manned(k, caller)
    case ExecStep(request, thread, _, _, _) => thread.Some? ==> OwnThread(k.threads, request.caller, thread)
    case _ => true
  }

  lemma MannedIsLive(k: KernelState, pid: ProcessId)
    requires Unhaunted(k) && Manned(k, pid)
    ensures LiveCaller(k, pid)
  {
    hide First;
    var t, i := First(k.threads, ThreadOf(pid)), Locate(k.procs, pid);
    assert !ZombieIn(k.procs, k.threads[t].value.process);
  }

  /** In a state without ghosts a thread's call is admissible. */
  lemma ByThreadIsAdmissible(k: KernelState, step: Step)
    requires Unhaunted(k) && ByThread(k, step)
    ensures Admissible(k, step) && (step.CloneThreadStep? ==> LiveCaller(k, step.caller))
  {
    hide Unhaunted, First, LiveCaller, Security.DomainOf, Manned, LocateThread;
    match step
    case ReceiveOrBlockStep(caller, _) => MannedIsLive(k, caller);
    case WaitStep(caller, _, _, _, _, _) => MannedIsLive(k, caller);
    case OpenStep(caller, _) => MannedIsLive(k, caller);
    case CloneThreadStep(caller, _) => MannedIsLive(k, caller);
    case _ =>
  }

  /** A step by a thread leaves no thread of an exited process. */
  lemma StepLeavesNoGhost(k: KernelState, step: Step)
    requires Unhaunted(k) && ByThread(k, step) && Shaped(k) && IpcInvariant(k)
    requires ThreadIds(k.threads, k.nextThread) && Security.Below(k.security, k.nextPid)
    ensures Unhaunted(Next(k, step))
  {
    ByThreadIsAdmissible(k, step);
    IpcIds(k);
    SelfFrame(k.procs);
    SelfCrew(k.threads);
    hide Unhaunted, SameLife, SameFiles, SameWaits, SameCounts, SameCrew, Locate, First, IpcInvariant, ProcIds,
      ThreadIds, Security.Below, Send, Receive, ReceiveOrBlock, Exit, Wait, Open, Close, Duplicate, DuplicateTo, Spawn,
      SpawnLoaded, CloneThread, CloneProcess, Exec, RemoveThread, Regrouped, Security.Apply, Security.DomainOf,
      LiveCaller, ForeignThread, OwnThread, Manned;
    if Still(step) {
      hide Next;
      StillFrame(k, step);
      QuietStaff(k, Next(k, step));
      return;
    }
    match step
    case ExitStep(pid, status, readyOk, wakes) => ExitStaff(k, pid, status, readyOk, wakes);
    case WaitStep(pid, thread, selector, writeOk, noHang, blockOk) =>
      WaitStaff(k, pid, thread, selector, writeOk, noHang, blockOk);
    case SpawnStep(parent, creds, cloned, mtssOk) => SpawnStaff(k, parent, creds, cloned, mtssOk);
    case SpawnLoadedStep(parent, creds, cloned, mtssOk, loadOk) =>
      SpawnLoadedStaff(k, parent, creds, cloned, mtssOk, loadOk);
    case CloneThreadStep(pid, mtssOk) => CloneThreadStaff(k, pid, mtssOk);
    case CloneProcessStep(pid, creds, cloned, mtssOk) => CloneProcessStaff(k, pid, creds, cloned, mtssOk);
    case ExecStep(request, thread, root, mtssOk, readyOk) => ExecStaff(k, request, thread, root, mtssOk, readyOk);
    case TerminateThreadStep(id) => RemoveThreadStaff(k, id);
  }

  // ---------------------------------------------------------------------
  // Runs
  // ---------------------------------------------------------------------

  /** A run whose calls all come from threads in the table; nothing is demanded of the callers' processes. */
  ghost predicate IsThreadRun(states: seq<KernelState>, steps: seq<Step>) {
    && |states| == |steps| + 1
    && forall i :: 0 <= i < |steps| ==>
         Shaped(states[i]) && ByThread(states[i], steps[i]) && states[i + 1] == Next(states[i], steps[i])
  }

  lemma InvariantWeakens(k: KernelState, claim: Claim)
    requires Invariant(k, claim)
    ensures Invariant(k, AtLeast)
  {
    hide FilesInvariant, ThreadInvariant, IpcInvariant, NoneMissed, Security.Below;
    Weakened(k, claim, AtLeast);
  }

  lemma SoundParts(k: KernelState, claim: Claim)
    requires Invariant(k, claim)
    ensures IpcInvariant(k) && ThreadIds(k.threads, k.nextThread) && Security.Below(k.security, k.nextPid)
  {
  }

  lemma {:induction false} ThreadRunHasNoGhost(states: seq<KernelState>, steps: seq<Step>, claim: Claim, n: nat)
    requires IsThreadRun(states, steps) && Invariant(states[0], claim) && Unhaunted(states[0]) && n <= |steps|
    ensures Invariant(states[n], AtLeast) && Unhaunted(states[n])
    decreases n
  {
    hide Invariant, Unhaunted, Next, ByThread, Admissible, IpcInvariant, ThreadIds, Security.Below, Leaks;
    if n == 0 {
      InvariantWeakens(states[0], claim);
    } else {
      var k, step := states[n - 1], steps[n - 1];
      ThreadRunHasNoGhost(states, steps, claim, n - 1);
      assert Shaped(k) && ByThread(k, step) && states[n - 1 + 1] == Next(k, step);
      ByThreadIsAdmissible(k, step);
      StepKeepsInvariant(k, step, AtLeast);
      SoundParts(k, AtLeast);
      StepLeavesNoGhost(k, step);
    }
  }

  /**
   * Every run of calls by threads is a run of admissible steps, so whatever
   * holds in all of those holds in it; and no exited process has a thread.
   */
  lemma ThreadRunIsRun(states: seq<KernelState>, steps: seq<Step>, claim: Claim)
    requires IsThreadRun(states, steps) && Invariant(states[0], claim) && Unhaunted(states[0])
    ensures IsRun(states, steps) && forall i :: 0 <= i < |states| ==> Unhaunted(states[i])
  {
    hide Invariant, Unhaunted, Next, ByThread, Admissible;
    forall i | 0 <= i < |states|
      ensures Unhaunted(states[i]) && (i < |steps| ==> Admissible(states[i], steps[i]))
    {
      ThreadRunHasNoGhost(states, steps, claim, i);
      if i < |steps| {
        ByThreadIsAdmissible(states[i], steps[i]);
      }
    }
  }

  lemma InitialIsUnhaunted(maxProcs: nat, depth: nat, maxFiles: nat)
    ensures Unhaunted(InitialState(maxProcs, depth, maxFiles))
  {
  }

  /** A thread cloned for an exited process haunts it, exactly when the clone succeeds. */
  lemma CloningHaunts(k: KernelState, caller: ProcessId, mtssOk: bool)
    requires Unhaunted(k) && ProcIds(k.procs, k.nextPid) && ThreadIds(k.threads, k.nextThread)
    ensures Unhaunted(CloneThread(k, caller, mtssOk).0)
            <==> LiveCaller(k, caller) || !mtssOk || FreeThreadSlot(k) == |k.threads|
  {
    if LiveCaller(k, caller) {
      CloneThreadStaff(k, caller, mtssOk);
    } else {
      hide First, Counted, Unhaunted, ZombieIn, SameFiles, SameWaits;
      var slot := FreeThreadSlot(k);
      var k2 := CloneThread(k, caller, mtssOk).0;
      ThreadStepFrame(k, caller, 0, mtssOk);
      CloneOfZombie(k, k2, caller, slot);
      if slot < |k.threads| && !mtssOk {
        FirstIs(CreateThread(k, caller).0.threads, HasThread(k.nextThread), slot);
        assert k2.threads == k.threads;
        SelfCrew(k.threads);
        QuietStaff(k, k2);
      } else if slot == |k.threads| {
        assert k2 == k;
      }
    }
  }

  lemma CloneOfZombie(k: KernelState, k2: KernelState, caller: ProcessId, slot: nat)
    requires !LiveCaller(k, caller) && SameLife(k.procs, k2.procs)
    ensures slot < |k2.threads| && ThreadOf(caller)(k2.threads[slot]) ==> !Unhaunted(k2)
  {
    hide First;
    var i := Locate(k.procs, caller);
    assert SameSlot(k.procs[i], k2.procs[i]);
    assert ZombieIn(k2.procs, caller);
  }
}
