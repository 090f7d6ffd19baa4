/** Runs of the kernel: what holds in every reachable state. */
module KernelRuns {
  import opened Prelude
  import opened Tables
  import opened Labels
  import Security
  import opened Descriptors
  import opened KernelSteps
  import opened KernelIds
  import opened KernelFrame
  import opened KernelCreate
  import opened KernelFiles
  import opened KernelFileSteps
  import opened KernelThreads
  import opened KernelThreadSteps
  import opened KernelIpc
  import opened KernelWait

  // ---------------------------------------------------------------------
  // The invariant
  // ---------------------------------------------------------------------

  ghost predicate Invariant(k: KernelState, claim: Claim) {
    && FilesInvariant(k, claim) && ThreadInvariant(k) && IpcInvariant(k) && NoneMissed(k.procs, false)
    && Security.Below(k.security, k.nextPid)
  }

  /** The step is taken by a live process, and an exec names no thread of another process. */
  predicate Admissible(k: KernelState, step: Step) {
    && CallerIsLive(k, step)
    && (step.ExecStep? && Security.DomainOf(k.security.domains, step.request.caller).Some? ==>
          !ForeignThread(k.threads, step.request.caller, step.thread))
  }

  ghost predicate Shaped(k: KernelState) {
    |k.queues| == |k.procs| && TablesOk(k.procs)
  }

  lemma InvariantShape(k: KernelState, claim: Claim)
    requires Invariant(k, claim)
    ensures Shaped(k) && ProcIds(k.procs, k.nextPid) && ThreadIds(k.threads, k.nextThread)
            && Security.Below(k.security, k.nextPid)
  {
  }

  lemma EnrollStaysBelow(k: KernelState, slot: nat, prepared: Prepared, creds: Credentials)
    requires slot < |k.procs| && Security.Below(k.security, k.nextPid)
    requires prepared.pcb.Some? ==> prepared.pcb.value.pid == k.nextPid
    ensures var k1 := Enroll(k, slot, prepared, creds).0; Security.Below(k1.security, k1.nextPid)
  {
    hide Security.Apply, Drop;
    var n := k.nextPid + 1;
    if prepared.pcb.Some? {
      var p := prepared.pcb.value;
      Security.OperationStaysBelow(k.security, Security.Register(p.pid, creds), n);
      var s1 := Security.Apply(k.security, Security.Register(p.pid, creds)).0;
      if p.parent.Some? {
        Security.OperationStaysBelow(s1, Security.Derive(p.parent.value, p.pid), n);
        var s2 := Security.Apply(s1, Security.Derive(p.parent.value, p.pid)).0;
        Security.OperationStaysBelow(s2, Security.Operation.RevokeTask(p.pid), n);
      }
    }
  }

  lemma RollbackStaysBelow(k: KernelState, pid: ProcessId)
    requires Security.Below(k.security, k.nextPid)
    ensures Security.Below(RollbackShell(k, pid).security, RollbackShell(k, pid).nextPid)
  {
    hide Security.Apply, Drop, First, Security.Below;
    Security.OperationStaysBelow(k.security, Security.Operation.RevokeTask(pid), k.nextPid);
  }

  lemma StartedStaysBelow(k: KernelState, pid: ProcessId, mtssOk: bool)
    requires Security.Below(k.security, k.nextPid)
    ensures Security.Below(Started(k, pid, mtssOk).0.security, Started(k, pid, mtssOk).0.nextPid)
  {
    hide RollbackShell, First, Counted, Security.Below, LocateThread;
    var (k1, thread) := CreateThread(k, pid);
    RollbackStaysBelow(k1, pid);
    if thread.Some? {
      RollbackStaysBelow(RemoveThread(k1, thread.value), pid);
    }
  }

  lemma CreateStaysBelow(k: KernelState, prepared: Prepared, creds: Credentials, mtssOk: bool)
    requires FreeSlot(k) < |k.procs| && Security.Below(k.security, k.nextPid)
    requires prepared.pcb.Some? ==> prepared.pcb.value.pid == k.nextPid
    ensures var k2 := CreateFrom(k, prepared, creds, mtssOk).0; Security.Below(k2.security, k2.nextPid)
  {
    hide Enroll, Started, First, Security.Below;
    EnrollStaysBelow(k, FreeSlot(k), prepared, creds);
    StartedStaysBelow(Enroll(k, FreeSlot(k), prepared, creds).0, k.nextPid, mtssOk);
  }

  lemma SpawnStaysBelow(k: KernelState, parent: Option<ProcessId>, creds: Credentials, cloned: Space, mtssOk: bool)
    requires TablesOk(k.procs) && Security.Below(k.security, k.nextPid)
    ensures var k2 := Spawn(k, parent, creds, cloned, mtssOk).0; Security.Below(k2.security, k2.nextPid)
  {
    hide Spawn, Prepare, CreateFrom, First, MaySpawn, TablesOk, Security.Below;
    SpawnIs(k, parent, creds, cloned, mtssOk);
    if Spawn(k, parent, creds, cloned, mtssOk) != (k, None) {
      CreateStaysBelow(k, Prepare(k, parent, cloned), creds, mtssOk);
    }
  }

  lemma CloneProcessStaysBelow(k: KernelState, caller: ProcessId, creds: Credentials, cloned: Space, mtssOk: bool)
    requires TablesOk(k.procs) && Security.Below(k.security, k.nextPid)
    ensures var k2 := CloneProcess(k, caller, creds, cloned, mtssOk).0; Security.Below(k2.security, k2.nextPid)
  {
    hide CloneProcess, PrepareShell, CreateFrom, First, MaySpawn, TablesOk, Security.Below;
    CloneProcessIs(k, caller, creds, cloned, mtssOk);
    if CloneProcess(k, caller, creds, cloned, mtssOk) != (k, None) {
      CreateStaysBelow(k, PrepareShell(k, caller, cloned), creds, mtssOk);
    }
  }

  /** No step mentions a task id that has not been given out. */
  lemma StepStaysBelow(k: KernelState, step: Step)
    requires Shaped(k) && Security.Below(k.security, k.nextPid)
    ensures Security.Below(Next(k, step).security, Next(k, step).nextPid)
  {
    hide Security.Below, Security.Apply, Locate, First, TablesOk, Send, Receive, ReceiveOrBlock, Exit, Wait, Open,
      Close, Duplicate, DuplicateTo, Spawn, CloneThread, CloneProcess, Exec, RemoveThread, Regrouped, Buried,
      ParentWoken, Security.DomainOf;
    if Quiet(step) {
      hide Next;
      QuietFrame(k, step);
      return;
    }
    match step
    case SendStep(s, r, payload, readyOk, wakes, blockOk) => SendRest(k, s, r, payload, readyOk, wakes, blockOk);
    case ReceiveStep(pid) => ReceiveRest(k, pid);
    case ReceiveOrBlockStep(pid, blockOk) => ReceiveOrBlockRest(k, pid, blockOk);
    case ExitStep(pid, status, readyOk, wakes) => ExitStaysBelow(k, pid, status, readyOk, wakes);
    case WaitStep(pid, thread, selector, writeOk, noHang, blockOk) =>
      WaitRest(k, pid, thread, selector, writeOk, noHang, blockOk);
      WaitKeepsSecurity(k, pid, thread, selector, writeOk, noHang, blockOk);
      if Wait(k, pid, thread, selector, writeOk, noHang, blockOk).1.Reaped? {
        ReapedTable(k, pid, thread, selector, writeOk, noHang, blockOk);
        var z := First(k.procs,
                       ZombieMatching(pid, DecodeSelector(selector, k.procs[Locate(k.procs, pid)].value.group)));
        Security.OperationStaysBelow(k.security, Security.Operation.RevokeTask(k.procs[z].value.pid), k.nextPid);
      }
    case SpawnStep(parent, creds, cloned, mtssOk) => SpawnStaysBelow(k, parent, creds, cloned, mtssOk);
    case SpawnLoadedStep(parent, creds, cloned, mtssOk, loadOk) =>
      SpawnStaysBelow(k, Some(parent), creds, cloned, mtssOk);
      var (k1, child) := Spawn(k, Some(parent), creds, cloned, mtssOk);
      if child.Some? {
        RollbackStaysBelow(k1, child.value);
      }
    case CloneProcessStep(pid, creds, cloned, mtssOk) => CloneProcessStaysBelow(k, pid, creds, cloned, mtssOk);
    case ExecStep(request, thread, root, mtssOk, readyOk) =>
      ExecRest(k, request, thread, root, mtssOk, readyOk);
      if Security.DomainOf(k.security.domains, request.caller).Some? {
        Security.KnownIsBelow(k.security, request.caller, k.nextPid);
        Security.OperationStaysBelow(k.security, Security.Register(request.caller, request.requested), k.nextPid);
      }
    case SecurityStep(op) =>
      if !op.Register? {
        Security.OperationStaysBelow(k.security, op, k.nextPid);
      }
  }

  lemma ReceiveOrBlockRest(k: KernelState, pid: ProcessId, blockOk: bool)
    requires |k.queues| == |k.procs|
    ensures var k2 := ReceiveOrBlock(k, pid, blockOk).0;
            k2 == k.(procs := k2.procs, threads := k2.threads, queues := k2.queues)
  {
    hide First, Swept;
  }

  lemma ExitStaysBelow(k: KernelState, pid: ProcessId, status: int, readyOk: bool, wakes: ThreadId -> bool)
    requires |k.queues| == |k.procs| && Security.Below(k.security, k.nextPid)
    ensures Security.Below(Exit(k, pid, status, readyOk, wakes).security, Exit(k, pid, status, readyOk, wakes).nextPid)
  {
    hide Security.Below, Security.Apply, First, Drop, Swept, ParentWoken;
    var i := Locate(k.procs, pid);
    Security.OperationStaysBelow(k.security, Security.Operation.RevokeTask(pid), k.nextPid);
    if i < |k.procs| && k.procs[i].value.state != Zombie {
      ParentWokenRest(Buried(k, i, status), i, readyOk, wakes);
    }
  }

  /** Every admissible step keeps the invariant; counts stay exact unless cloning an address space fails. */
  lemma StepKeepsInvariant(k: KernelState, step: Step, claim: Claim)
    requires Invariant(k, claim) && Admissible(k, step)
    ensures Shaped(k) && Invariant(Next(k, step), Unless(claim, Leaks(k, step)))
  {
    InvariantShape(k, claim);
    if step.ExecStep? && Security.DomainOf(k.security.domains, step.request.caller).None? {
      hide FilesInvariant, ThreadInvariant, IpcInvariant, NoneMissed, Security.Below;
      ExecRefused(k, step.request, step.thread, step.root, step.mtssOk, step.readyOk);
    } else {
      if step.ExecStep? {
        ExecCallerIsLive(k, step.request);
      }
      hide FilesInvariant, ThreadInvariant, IpcInvariant, NoneMissed, Security.Below, Next, ForeignThread,
        Security.DomainOf, ProcIds, ThreadIds, CallerIsLive, TablesOk;
      StepKeepsFiles(k, step, claim);
      StepKeepsThreads(k, step);
      StepKeepsIpc(k, step);
      StepMissesNone(k, step, false);
      StepStaysBelow(k, step);
    }
  }

  // ---------------------------------------------------------------------
  // What can become of a process slot
  // ---------------------------------------------------------------------

  /** The child a step reports, when it is a wait that finds one. */
  function ReapedBy(k: KernelState, step: Step): Option<ProcessId> {
    if !step.WaitStep? then None
    else
      var r := Wait(k, step.caller, step.thread, step.selector, step.writeOk, step.noHang, step.blockOk).1;
      if r.Reaped? then Some(r.pid) else None
  }

  /** A slot keeps its process, takes a new one, sees it exit, or loses it to a wait. */
  ghost predicate SlotProgress(a: Option<Pcb>, b: Option<Pcb>, nextPid: ProcessId, reaped: Option<ProcessId>) {
    || SameSlot(a, b)
    || (a.None? && b.Some? && b.value.pid == nextPid && b.value.state != Zombie)
    || (a.Some? && a.value.state != Zombie && b.Some? && b.value.state == Zombie
        && b.value.pid == a.value.pid && b.value.parent == a.value.parent && b.value.exitStatus.Some?)
    || (a.Some? && a.value.state == Zombie && b.None? && reaped == Some(a.value.pid))
  }

  ghost predicate Progress(k: KernelState, k2: KernelState, reaped: Option<ProcessId>) {
    && |k2.procs| == |k.procs| && k.nextPid <= k2.nextPid
    && (forall i :: 0 <= i < |k.procs| ==> SlotProgress(k.procs[i], k2.procs[i], k.nextPid, reaped))
    && (forall i :: 0 <= i < |k.procs| && k.procs[i].None? && k2.procs[i].Some? ==> k2.nextPid == k.nextPid + 1)
  }

  lemma SameLifeProgress(k: KernelState, k2: KernelState, reaped: Option<ProcessId>)
    requires SameLife(k.procs, k2.procs) && k2.nextPid == k.nextPid
    ensures Progress(k, k2, reaped)
  {
  }

  lemma ExitProgress(k: KernelState, pid: ProcessId, status: int, readyOk: bool, wakes: ThreadId -> bool)
    requires |k.queues| == |k.procs|
    ensures Progress(k, Exit(k, pid, status, readyOk, wakes), None)
  {
    hide First, Buried, ParentWoken;
    var i := Locate(k.procs, pid);
    if i < |k.procs| && k.procs[i].value.state != Zombie {
      var b := Buried(k, i, status);
      BuriedSlot(k, i, status);
      BuriedPid(k, i, status);
      ParentWokenFrame(b, i, readyOk, wakes);
      ParentWokenRest(b, i, readyOk, wakes);
      var k2 := ParentWoken(b, i, readyOk, wakes);
      hide SameFiles, SameCounts;
      forall j | 0 <= j < |k.procs|
        ensures SlotProgress(k.procs[j], k2.procs[j], k.nextPid, None)
      {
        assert SameSlot(b.procs[j], k2.procs[j]);
      }
    }
  }

  lemma BuriedPid(k: KernelState, i: nat, status: int)
    requires i < |k.procs| == |k.queues| && k.procs[i].Some?
    ensures Buried(k, i, status).nextPid == k.nextPid
  {
  }

  lemma WaitProgress(k: KernelState, parent: ProcessId, thread: Option<ThreadId>, selector: int,
                     writeOk: bool, noHang: bool, blockOk: bool)
    requires LiveCaller(k, parent) && ProcIds(k.procs, k.nextPid)
    ensures var (k2, r) := Wait(k, parent, thread, selector, writeOk, noHang, blockOk);
            Progress(k, k2, if r.Reaped? then Some(r.pid) else None)
  {
    hide Wait, First;
    var (k2, r) := Wait(k, parent, thread, selector, writeOk, noHang, blockOk);
    WaitRest(k, parent, thread, selector, writeOk, noHang, blockOk);
    if r.Reaped? {
      ReapedTable(k, parent, thread, selector, writeOk, noHang, blockOk);
    } else {
      WaitFrame(k, parent, thread, selector, writeOk, noHang, blockOk);
      hide SameLife;
      SameLifeProgress(k, k2, None);
    }
  }

  lemma EnteredProgress(k: KernelState, k2: KernelState, slot: nat, p: Pcb)
    requires slot < |k.procs| && k.procs[slot].None? && p.pid == k.nextPid && p.state == Ready
    requires k2.procs == k.procs[slot := Some(p)] && k2.nextPid == k.nextPid + 1 && ProcIds(k.procs, k.nextPid)
    ensures Progress(k, k2, None) && Locate(k2.procs, p.pid) == slot && k2.procs[slot := None] == k.procs
  {
    assert ProcIds(k2.procs, k2.nextPid);
    LocateIs(k2.procs, k2.nextPid, slot);
    hide ProcIds, Locate;
  }

  lemma RefusedProgress(k: KernelState, k2: KernelState)
    requires k2.procs == k.procs && k.nextPid <= k2.nextPid
    ensures Progress(k, k2, None)
  {
  }

  lemma CreateProgress(k: KernelState, prepared: Prepared, creds: Credentials, mtssOk: bool)
    requires FreeSlot(k) < |k.procs|
    requires ProcIds(k.procs, k.nextPid) && ThreadIds(k.threads, k.nextThread) && Security.Below(k.security, k.nextPid)
    requires prepared.pcb.Some? ==> var p := prepared.pcb.value;
             p.pid == k.nextPid && p.threadCount == 0 && p.state == Ready
    ensures var (k2, created) := CreateFrom(k, prepared, creds, mtssOk);
            && Progress(k, k2, None) && |k2.procs| == |k.procs| && k.nextPid <= k2.nextPid
            && (created.Some? ==> created.value == k.nextPid && Locate(k2.procs, created.value) == FreeSlot(k)
                                  && k2.procs[FreeSlot(k) := None] == k.procs)
            && (created.None? ==> k2.procs == k.procs)
  {
    CreateFromOutcome(k, prepared, creds, mtssOk);
    hide CreateFrom, First, Joined, RegisterOk, Drop, ProcIds, ThreadIds, Security.Below, Progress, Locate;
    var (k2, created) := CreateFrom(k, prepared, creds, mtssOk);
    if created.Some? {
      EnteredProgress(k, k2, FreeSlot(k), prepared.pcb.value.(threadCount := 1));
    } else {
      RefusedProgress(k, k2);
    }
  }

  lemma SpawnProgress(k: KernelState, parent: Option<ProcessId>, creds: Credentials, cloned: Space, mtssOk: bool)
    requires TablesOk(k.procs) && ProcIds(k.procs, k.nextPid) && ThreadIds(k.threads, k.nextThread)
    requires Security.Below(k.security, k.nextPid)
    ensures var (k2, created) := Spawn(k, parent, creds, cloned, mtssOk);
            && Progress(k, k2, None)
            && (created.Some? ==> Progress(k, RollbackShell(k2, created.value), None))
  {
    hide Spawn, Prepare, CreateFrom, First, MaySpawn, TablesOk, ProcIds, ThreadIds, Security.Below, Progress,
      RollbackShell, SameLife;
    SelfFrame(k.procs);
    SameLifeProgress(k, k, None);
    SpawnIs(k, parent, creds, cloned, mtssOk);
    var (k2, created) := Spawn(k, parent, creds, cloned, mtssOk);
    if (k2, created) != (k, None) {
      CreateProgress(k, Prepare(k, parent, cloned), creds, mtssOk);
      if created.Some? {
        RollbackProgress(k, k2, created.value);
      }
    }
  }

  lemma RollbackProgress(k: KernelState, k2: KernelState, pid: ProcessId)
    requires FreeSlot(k) < |k.procs| == |k2.procs| && k.nextPid <= k2.nextPid
    requires Locate(k2.procs, pid) == FreeSlot(k) && k2.procs[FreeSlot(k) := None] == k.procs
    ensures Progress(k, RollbackShell(k2, pid), None)
  {
    hide First, Drop, RevokeTask;
  }

  lemma CloneProcessProgress(k: KernelState, caller: ProcessId, creds: Credentials, cloned: Space, mtssOk: bool)
    requires TablesOk(k.procs) && ProcIds(k.procs, k.nextPid) && ThreadIds(k.threads, k.nextThread)
    requires Security.Below(k.security, k.nextPid)
    ensures Progress(k, CloneProcess(k, caller, creds, cloned, mtssOk).0, None)
  {
    hide CloneProcess, PrepareShell, CreateFrom, First, MaySpawn, TablesOk, ProcIds, ThreadIds, Security.Below,
      Progress, SameLife;
    SelfFrame(k.procs);
    SameLifeProgress(k, k, None);
    CloneProcessIs(k, caller, creds, cloned, mtssOk);
    if CloneProcess(k, caller, creds, cloned, mtssOk) != (k, None) {
      CreateProgress(k, PrepareShell(k, caller, cloned), creds, mtssOk);
    }
  }

  /** Every step moves each slot along its life cycle. */
  lemma StepProgress(k: KernelState, step: Step)
    requires Shaped(k) && CallerIsLive(k, step)
    requires ProcIds(k.procs, k.nextPid) && ThreadIds(k.threads, k.nextThread) && Security.Below(k.security, k.nextPid)
    requires step.ExecStep? ==> LiveCaller(k, step.request.caller)
    ensures Progress(k, Next(k, step), ReapedBy(k, step))
  {
    hide Progress, SameLife, SameFiles, SameWaits, SameCounts, Locate, ThreadIds, ProcIds, TablesOk, Security.Below,
      Send, Receive, ReceiveOrBlock, Exit, Wait, Open, Close, Duplicate, DuplicateTo, Spawn, CloneThread, CloneProcess,
      Exec, RemoveThread, Regrouped, RollbackShell, Security.Apply, Security.DomainOf;
    SelfFrame(k.procs);
    if Quiet(step) {
      hide Next;
      QuietFrame(k, step);
      SameLifeProgress(k, Next(k, step), None);
      return;
    }
    match step
    case SendStep(s, r, payload, readyOk, wakes, blockOk) =>
      SendFrame(k, s, r, payload, readyOk, wakes, blockOk);
      SendRest(k, s, r, payload, readyOk, wakes, blockOk);
      SameLifeProgress(k, Next(k, step), None);
    case ReceiveStep(pid) =>
      ReceiveRest(k, pid);
      SameLifeProgress(k, Next(k, step), None);
    case ReceiveOrBlockStep(pid, blockOk) =>
      ReceiveOrBlockFrame(k, pid, blockOk);
      SameLifeProgress(k, Next(k, step), None);
    case ExitStep(pid, status, readyOk, wakes) => ExitProgress(k, pid, status, readyOk, wakes);
    case WaitStep(pid, thread, selector, writeOk, noHang, blockOk) =>
      WaitProgress(k, pid, thread, selector, writeOk, noHang, blockOk);
    case SpawnStep(parent, creds, cloned, mtssOk) => SpawnProgress(k, parent, creds, cloned, mtssOk);
    case SpawnLoadedStep(parent, creds, cloned, mtssOk, loadOk) =>
      SpawnProgress(k, Some(parent), creds, cloned, mtssOk);
    case CloneProcessStep(pid, creds, cloned, mtssOk) => CloneProcessProgress(k, pid, creds, cloned, mtssOk);
    case ExecStep(request, thread, root, mtssOk, readyOk) =>
      ExecFrame(k, request, thread, root, mtssOk, readyOk);
      ExecRest(k, request, thread, root, mtssOk, readyOk);
      SameLifeProgress(k, Next(k, step), None);
    case SecurityStep(op) => SameLifeProgress(k, Next(k, step), None);
  }
}
