/** Every step keeps thread counts, and exec does exactly when its thread is its own. */
module KernelThreadSteps {
  import opened Prelude
  import opened Tables
  import opened Labels
  import Security
  import opened Descriptors
  import opened KernelSteps
  import opened KernelIds
  import opened KernelFrame
  import opened KernelCreate
  import opened KernelFileSteps
  import opened KernelThreads

  lemma GoneThreadIds(threads: Threads, p: Option<Tcb> -> bool, n: nat, nextPid: nat)
    requires ThreadIds(threads, n) && CrewBelow(threads, nextPid)
    ensures ThreadIds(Swept(threads, p, GoneThread), n) && CrewBelow(Swept(threads, p, GoneThread), nextPid)
  {
    hide Swept;
  }

  /** A change of processes that leaves the live ones and the threads that count for them alone. */
  lemma FewerKeeps(k: KernelState, k2: KernelState)
    requires ThreadInvariant(k) && NoneNew(k.procs, k2.procs)
    requires |k2.threads| == |k.threads| && ThreadIds(k2.threads, k2.nextThread) && CrewBelow(k2.threads, k2.nextPid)
    requires k2.nextPid == k.nextPid
    requires forall i :: 0 <= i < |k2.procs| && LiveAt(k2.procs, i) ==>
               LiveAt(k.procs, i) && k2.procs[i].value.threadCount == k.procs[i].value.threadCount
               && Crew(k2.threads, k2.procs[i].value.pid) == Crew(k.threads, k2.procs[i].value.pid)
    ensures ThreadInvariant(k2)
  {
    hide Crew, ThreadIds;
    NoneNewKeepsIds(k.procs, k2.procs, k.nextPid);
  }

  lemma BuriedKeepsThreads(k: KernelState, i: nat, status: int)
    requires ThreadInvariant(k) && i < |k.procs| == |k.queues| && k.procs[i].Some?
    ensures ThreadInvariant(Buried(k, i, status))
  {
    hide Crew, ThreadIds, Swept, RevokeTask, Drop;
    var k2 := Buried(k, i, status);
    var pid := k.procs[i].value.pid;
    GoneThreadIds(k.threads, ThreadOf(pid), k.nextThread, k.nextPid);
    forall j | 0 <= j < |k2.procs| && LiveAt(k2.procs, j)
      ensures LiveAt(k.procs, j) && k2.procs[j].value.threadCount == k.procs[j].value.threadCount
      ensures Crew(k2.threads, k2.procs[j].value.pid) == Crew(k.threads, k2.procs[j].value.pid)
    {
      assert j != i && k.procs[j].value.pid != pid;
      CrewPointwise(k.threads, k2.threads, k2.procs[j].value.pid);
    }
    FewerKeeps(k, k2);
  }

  lemma ExitKeepsThreads(k: KernelState, pid: ProcessId, status: int, readyOk: bool, wakes: ThreadId -> bool)
    requires ThreadInvariant(k) && |k.queues| == |k.procs|
    ensures ThreadInvariant(Exit(k, pid, status, readyOk, wakes))
  {
    hide First, ThreadInvariant, Buried, ParentWoken, SameLife, SameCrew, SameCounts, SameFiles;
    var i := Locate(k.procs, pid);
    if i < |k.procs| && k.procs[i].value.state != Zombie {
      var b := Buried(k, i, status);
      BuriedKeepsThreads(k, i, status);
      BuriedSlot(k, i, status);
      ParentWokenFrame(b, i, readyOk, wakes);
      ParentWokenCrew(b, i, readyOk, wakes);
      ParentWokenRest(b, i, readyOk, wakes);
      SameCrewKeeps(b, ParentWoken(b, i, readyOk, wakes));
    }
  }

  lemma WaitKeepsThreads(k: KernelState, parent: ProcessId, thread: Option<ThreadId>, selector: int,
                         writeOk: bool, noHang: bool, blockOk: bool)
    requires ThreadInvariant(k) && LiveCaller(k, parent)
    ensures ThreadInvariant(Wait(k, parent, thread, selector, writeOk, noHang, blockOk).0)
  {
    hide Wait, First, ThreadInvariant, SameLife, SameFiles, SameCounts, SameCrew;
    var (k2, r) := Wait(k, parent, thread, selector, writeOk, noHang, blockOk);
    WaitCrew(k, parent, thread, selector, writeOk, noHang, blockOk);
    WaitRest(k, parent, thread, selector, writeOk, noHang, blockOk);
    if r.Reaped? {
      ReapedTable(k, parent, thread, selector, writeOk, noHang, blockOk);
      var i := Locate(k.procs, parent);
      ReapedKeepsThreads(k, k2, i,
                         First(k.procs, ZombieMatching(parent, DecodeSelector(selector, k.procs[i].value.group))));
    } else {
      WaitFrame(k, parent, thread, selector, writeOk, noHang, blockOk);
      SameCrewKeeps(k, k2);
    }
  }

  lemma ReapedKeepsThreads(k: KernelState, k2: KernelState, i: nat, z: nat)
    requires ThreadInvariant(k) && i < |k.procs| && k.procs[i].Some? && z < |k.procs| && SameCrew(k.threads, k2.threads)
    requires k2.procs == k.procs[i := Some(k.procs[i].value.(childWait := None))][z := None]
    requires k2.nextPid == k.nextPid && k2.nextThread == k.nextThread
    ensures ThreadInvariant(k2)
  {
    hide Crew, ThreadIds, SameCrew;
    SameCrewIds(k.threads, k2.threads, k.nextThread, k.nextPid);
    SameCrewLength(k.threads, k2.threads);
    forall j | 0 <= j < |k2.procs| && LiveAt(k2.procs, j)
      ensures LiveAt(k.procs, j) && k2.procs[j].value.threadCount == k.procs[j].value.threadCount
      ensures Crew(k2.threads, k2.procs[j].value.pid) == Crew(k.threads, k2.procs[j].value.pid)
    {
      SameCrewCount(k.threads, k2.threads, k2.procs[j].value.pid);
    }
    FewerKeeps(k, k2);
  }

  lemma SameCrewLength(t: Threads, u: Threads)
    requires SameCrew(t, u)
    ensures |t| == |u|
  {
  }

  // ---------------------------------------------------------------------
  // Creating tasks
  // ---------------------------------------------------------------------

  lemma EnteredKeepsThreads(k: KernelState, k2: KernelState, slot: nat, t: nat, p: Pcb)
    requires ThreadInvariant(k) && slot < |k.procs| && k.procs[slot].None? && t < |k.threads| && k.threads[t].None?
    requires p.pid == k.nextPid && p.threadCount == 1
    requires k2.procs == k.procs[slot := Some(p)] && k2.nextPid == k.nextPid + 1 && k2.nextThread == k.nextThread + 1
    requires k2.threads == k.threads[t := Some(Tcb(k.nextThread, p.pid, ThreadReady, None))]
    ensures ThreadInvariant(k2)
  {
    hide Crew, ThreadIds;
    AddedThreadIds(k.threads, t, k.nextThread, p.pid, k.nextPid + 1);
    CrewNone(k.threads, p.pid);
    forall i | 0 <= i < |k2.procs| && LiveAt(k2.procs, i)
      ensures k2.procs[i].value.threadCount == Crew(k2.threads, k2.procs[i].value.pid)
    {
      CrewUpdate(k.threads, t, Some(Tcb(k.nextThread, p.pid, ThreadReady, None)), k2.procs[i].value.pid);
      assert i != slot ==> LiveAt(k.procs, i);
    }
  }

  lemma IdsOnly(k: KernelState, k2: KernelState)
    requires ThreadInvariant(k) && k2.procs == k.procs && k2.threads == k.threads
    requires k2.nextPid >= k.nextPid && k2.nextThread >= k.nextThread
    ensures ThreadInvariant(k2)
  {
    hide Crew;
  }

  lemma CreateKeepsThreads(k: KernelState, prepared: Prepared, creds: Credentials, mtssOk: bool)
    requires ThreadInvariant(k) && FreeSlot(k) < |k.procs| && Security.Below(k.security, k.nextPid)
    requires prepared.pcb.Some? ==> prepared.pcb.value.pid == k.nextPid && prepared.pcb.value.threadCount == 0
    ensures ThreadInvariant(CreateFrom(k, prepared, creds, mtssOk).0)
  {
    var (k2, created) := CreateFrom(k, prepared, creds, mtssOk);
    CreateFromOutcome(k, prepared, creds, mtssOk);
    hide CreateFrom, ThreadInvariant, First, Joined, RegisterOk, Drop, ThreadIds, ProcIds, Security.Below;
    if created.Some? {
      EnteredKeepsThreads(k, k2, FreeSlot(k), FreeThreadSlot(k), prepared.pcb.value.(threadCount := 1));
    } else {
      IdsOnly(k, k2);
    }
  }

  /** What is known of a new process before any table is touched. */
  ghost predicate Named(k: KernelState, parent: Option<ProcessId>, prepared: Prepared) {
    prepared.pcb.Some? ==>
      var p := prepared.pcb.value;
      && p.pid == k.nextPid && p.threadCount == 0 && p.parent == parent && p.state == Ready
      && p.childWait.None? && p.exitStatus.None?
  }

  lemma PrepareNames(k: KernelState, parent: Option<ProcessId>, cloned: Space)
    requires TablesOk(k.procs)
    ensures Named(k, parent, Prepare(k, parent, cloned))
  {
    hide First, Inherit, Consoles, Drop;
  }

  lemma PrepareShellNames(k: KernelState, caller: ProcessId, cloned: Space)
    requires TablesOk(k.procs)
    ensures Named(k, Some(caller), PrepareShell(k, caller, cloned))
  {
    hide First, Inherit, Consoles, Drop;
  }

  /** A spawn is refused, or it creates a task from what it prepared. */
  lemma SpawnIs(k: KernelState, parent: Option<ProcessId>, creds: Credentials, cloned: Space, mtssOk: bool)
    requires TablesOk(k.procs)
    ensures var r, prepared := Spawn(k, parent, creds, cloned, mtssOk), Prepare(k, parent, cloned);
            && Named(k, parent, prepared)
            && (|| r == (k, None)
                || (&& FreeSlot(k) < |k.procs| && (parent.Some? ==> MaySpawn(k, parent.value, creds))
                    && r == CreateFrom(k, prepared, creds, mtssOk)))
  {
    hide Prepare, CreateFrom, First, MaySpawn, Named;
    PrepareNames(k, parent, cloned);
  }

  lemma CloneProcessIs(k: KernelState, caller: ProcessId, creds: Credentials, cloned: Space, mtssOk: bool)
    requires TablesOk(k.procs)
    ensures var r, prepared := CloneProcess(k, caller, creds, cloned, mtssOk), PrepareShell(k, caller, cloned);
            && Named(k, Some(caller), prepared)
            && (|| r == (k, None)
                || (&& FreeSlot(k) < |k.procs| && MaySpawn(k, caller, creds)
                    && r == CreateFrom(k, prepared, creds, mtssOk)))
  {
    hide PrepareShell, CreateFrom, First, MaySpawn, Named;
    PrepareShellNames(k, caller, cloned);
  }

  lemma SpawnKeepsThreads(k: KernelState, parent: Option<ProcessId>, creds: Credentials, cloned: Space, mtssOk: bool)
    requires ThreadInvariant(k) && TablesOk(k.procs) && Security.Below(k.security, k.nextPid)
    ensures ThreadInvariant(Spawn(k, parent, creds, cloned, mtssOk).0)
  {
    hide ThreadInvariant, Spawn, Prepare, CreateFrom, First, MaySpawn, TablesOk, Security.Below;
    SpawnIs(k, parent, creds, cloned, mtssOk);
    if Spawn(k, parent, creds, cloned, mtssOk) != (k, None) {
      CreateKeepsThreads(k, Prepare(k, parent, cloned), creds, mtssOk);
    }
  }

  lemma CloneProcessKeepsThreads(k: KernelState, caller: ProcessId, creds: Credentials, cloned: Space, mtssOk: bool)
    requires ThreadInvariant(k) && TablesOk(k.procs) && Security.Below(k.security, k.nextPid)
    ensures ThreadInvariant(CloneProcess(k, caller, creds, cloned, mtssOk).0)
  {
    hide ThreadInvariant, CloneProcess, PrepareShell, CreateFrom, First, MaySpawn, TablesOk, Security.Below;
    CloneProcessIs(k, caller, creds, cloned, mtssOk);
    if CloneProcess(k, caller, creds, cloned, mtssOk) != (k, None) {
      CreateKeepsThreads(k, PrepareShell(k, caller, cloned), creds, mtssOk);
    }
  }

  lemma RollbackShellKeepsThreads(k: KernelState, pid: ProcessId)
    requires ThreadInvariant(k)
    ensures ThreadInvariant(RollbackShell(k, pid))
  {
    hide Crew, ThreadIds, First, Drop, RevokeTask;
    FewerKeeps(k, RollbackShell(k, pid));
  }

  lemma SpawnLoadedKeepsThreads(k: KernelState, parent: ProcessId, creds: Credentials, cloned: Space, mtssOk: bool,
                                loadOk: bool)
    requires ThreadInvariant(k) && TablesOk(k.procs) && Security.Below(k.security, k.nextPid)
    ensures ThreadInvariant(SpawnLoaded(k, parent, creds, cloned, mtssOk, loadOk).0)
  {
    hide ThreadInvariant, Spawn, RollbackShell;
    SpawnKeepsThreads(k, Some(parent), creds, cloned, mtssOk);
    var (k1, child) := Spawn(k, Some(parent), creds, cloned, mtssOk);
    if child.Some? {
      RollbackShellKeepsThreads(k1, child.value);
    }
  }

  lemma CloneThreadKeepsThreads(k: KernelState, caller: ProcessId, mtssOk: bool)
    requires ThreadInvariant(k)
    ensures ThreadInvariant(CloneThread(k, caller, mtssOk).0)
  {
    hide Crew, ThreadIds, First, CreateThread, RemoveThread, ThreadsCounted;
    var i := Locate(k.procs, caller);
    if i < |k.procs| {
      assert caller < k.nextPid;
      hide ThreadInvariant;
      CreateThreadKeeps(k, caller);
      var (k1, thread) := CreateThread(k, caller);
      if thread.Some? {
        RemoveThreadKeeps(k1, thread.value);
      }
    }
  }

  // ---------------------------------------------------------------------
  // Exec
  // ---------------------------------------------------------------------

  /** The thread exec is told to keep belongs to another process. */
  predicate ForeignThread(threads: Threads, pid: ProcessId, current: Option<ThreadId>) {
    current.Some? && LocateThread(threads, current.value) < |threads|
    && threads[LocateThread(threads, current.value)].value.process != pid
  }

  predicate OwnThread(threads: Threads, pid: ProcessId, id: Option<ThreadId>) {
    id.Some? && LocateThread(threads, id.value) < |threads|
    && threads[LocateThread(threads, id.value)].value.process == pid
  }

  /** What is left of a process's crew: the kept thread, if it is one of its own. */
  lemma CrewOfKept(threads: Threads, n: nat, pid: ProcessId, kept: Option<ThreadId>)
    requires ThreadIds(threads, n)
    ensures Crew(Swept(threads, OtherThreadOf(pid, kept), GoneThread), pid) == if OwnThread(threads, pid, kept) then 1
            else 0
  {
    hide Swept, Crew, First;
    var left := Swept(threads, OtherThreadOf(pid, kept), GoneThread);
    if OwnThread(threads, pid, kept) {
      var t := LocateThread(threads, kept.value);
      CrewNone(left[t := None], pid);
      CrewUpdate(left, t, None, pid);
    } else {
      forall i | 0 <= i < |left| && left[i].Some?
        ensures left[i].value.process != pid
      {
        assert left[i] == threads[i];
        if threads[i].value.process == pid {
          LocateThreadIs(threads, n, i);
        }
      }
      CrewNone(left, pid);
    }
  }

  lemma KeptThreadIs(threads: Threads, n: nat, pid: ProcessId, current: Option<ThreadId>)
    requires ThreadIds(threads, n)
    ensures var kept := KeptThread(threads, pid, current);
            && (kept.None? ==> current.None? && Crew(threads, pid) == 0)
            && (kept.Some? && current.None? ==> OwnThread(threads, pid, kept))
  {
    hide Crew, First;
    var first := First(threads, ThreadOf(pid));
    if first == |threads| {
      assert forall i :: 0 <= i < |threads| ==> !ThreadOf(pid)(threads[i]);
      CrewNone(threads, pid);
    } else {
      LocateThreadIs(threads, n, first);
    }
  }

  /** The kept thread survives the purge where it stood. */
  lemma KeptSurvives(threads: Threads, pid: ProcessId, kept: ThreadId)
    ensures LocateThread(Swept(threads, OtherThreadOf(pid, Some(kept)), GoneThread), kept)
              == LocateThread(threads, kept)
    ensures var t := LocateThread(threads, kept);
            t < |threads| ==> Swept(threads, OtherThreadOf(pid, Some(kept)), GoneThread)[t] == threads[t]
  {
    hide Swept, First;
    var left := Swept(threads, OtherThreadOf(pid, Some(kept)), GoneThread);
    FirstIs(left, HasThread(kept), LocateThread(threads, kept));
  }

  /** The table once a process has lost all threads but `kept`, with its count set to match. */
  lemma PurgedKeeps(k: KernelState, i: nat, p: Pcb, kept: Option<ThreadId>)
    requires ThreadInvariant(k) && i < |k.procs| && k.procs[i].Some? && SameSlot(k.procs[i], Some(p))
    requires p.threadCount == Crew(Swept(k.threads, OtherThreadOf(p.pid, kept), GoneThread), p.pid)
    ensures ThreadInvariant(k.(procs := k.procs[i := Some(p)],
                               threads := Swept(k.threads, OtherThreadOf(p.pid, kept), GoneThread)))
  {
    hide Crew, ThreadIds, Swept;
    var k2 := k.(procs := k.procs[i := Some(p)], threads := Swept(k.threads, OtherThreadOf(p.pid, kept), GoneThread));
    GoneThreadIds(k.threads, OtherThreadOf(p.pid, kept), k.nextThread, k.nextPid);
    forall j | 0 <= j < |k2.procs| && LiveAt(k2.procs, j)
      ensures k2.procs[j].value.threadCount == Crew(k2.threads, k2.procs[j].value.pid)
    {
      if j != i {
        assert LiveAt(k.procs, j);
        CrewPointwise(k.threads, k2.threads, k2.procs[j].value.pid);
      }
    }
  }

  lemma RestateKeeps(k: KernelState, t: nat, a: Tcb)
    requires ThreadInvariant(k) && t < |k.threads| && k.threads[t].Some?
    requires k.threads[t].value.id == a.id && k.threads[t].value.process == a.process
    ensures ThreadInvariant(k.(threads := k.threads[t := Some(a)]))
  {
    hide ThreadInvariant;
    SelfFrame(k.procs);
    SlotCrew(k.threads, t, a);
    SameCrewKeeps(k, k.(threads := k.threads[t := Some(a)]));
  }

  /** Replacing an image with no thread to keep makes one. */
  lemma ReimagedFresh(k: KernelState, i: nat, current: Option<ThreadId>, root: nat)
    requires ThreadInvariant(k) && i < |k.procs| && k.procs[i].Some?
    requires KeptThread(k.threads, k.procs[i].value.pid, current).None?
    ensures ThreadInvariant(Reimaged(k, i, current, root).0)
  {
    var p := k.procs[i].value.(root := root, threadCount := 0);
    var threads := Swept(k.threads, OtherThreadOf(p.pid, None), GoneThread);
    var k1 := k.(procs := k.procs[i := Some(p)], threads := threads);
    CrewOfKept(k.threads, k.nextThread, p.pid, None);
    PurgedKeeps(k, i, p, None);
    assert p.pid < k.nextPid;
    LocateIs(k1.procs, k.nextPid, i);
    hide ThreadInvariant, Crew, First, Swept;
    CreateThreadKeeps(k1, p.pid);
    var (k2, thread) := CreateThread(k1, p.pid);
    if thread.Some? {
      assert k2.procs == k.procs[i := Some(p.(threadCount := 1))];
    }
  }

  /** Replacing an image keeps the counts exactly when the thread it keeps is not another process's. */
  lemma ReimagedCounts(k: KernelState, i: nat, current: Option<ThreadId>, root: nat)
    requires ThreadInvariant(k) && i < |k.procs| && k.procs[i].Some?
    ensures var k2, pid := Reimaged(k, i, current, root).0, k.procs[i].value.pid;
            && (!ForeignThread(k.threads, pid, current) ==> ThreadInvariant(k2))
            && (ForeignThread(k.threads, pid, current) ==>
                  i < |k2.procs| && k2.procs[i].Some? && k2.procs[i].value.threadCount == 1
                    && Crew(k2.threads, pid) == 0)
  {
    var p := k.procs[i].value.(root := root, threadCount := 0);
    var kept := KeptThread(k.threads, p.pid, current);
    KeptThreadIs(k.threads, k.nextThread, p.pid, current);
    if kept.None? {
      ReimagedFresh(k, i, current, root);
    } else {
      CrewOfKept(k.threads, k.nextThread, p.pid, kept);
      KeptSurvives(k.threads, p.pid, kept.value);
      hide Crew, First, Swept, KeptThread, ThreadInvariant;
      var left := Swept(k.threads, OtherThreadOf(p.pid, kept), GoneThread);
      var t := LocateThread(k.threads, kept.value);
      if t == |k.threads| {
        PurgedKeeps(k, i, p, kept);
      } else {
        var a := left[t].value.(state := ThreadReady);
        SlotCrew(left, t, a);
        SameCrewCount(left, left[t := Some(a)], p.pid);
        if OwnThread(k.threads, p.pid, kept) {
          PurgedKeeps(k, i, p.(threadCount := 1), kept);
          RestateKeeps(k.(procs := k.procs[i := Some(p.(threadCount := 1))], threads := left), t, a);
        }
      }
    }
  }

  lemma ExecKeepsThreads(k: KernelState, request: Security.ExecRequest, current: Option<ThreadId>, root: nat,
                         mtssOk: bool, readyOk: bool)
    requires ThreadInvariant(k) && LiveCaller(k, request.caller) && !ForeignThread(k.threads, request.caller, current)
    ensures ThreadInvariant(Exec(k, request, current, root, mtssOk, readyOk).0)
  {
    hide ThreadInvariant, First, Swept, Drop, KeptFiles, ClosedFiles, Reimaged, SameLife, SameCounts, SameCrew,
      Security.Apply, Security.DomainOf, Security.ExecAllowed, ForeignThread, Crew;
    var i := Locate(k.procs, request.caller);
    if i < |k.procs| {
      var files := k.procs[i].value.files;
      var k1 := k.(procs := WithFiles(k.procs, i, KeptFiles(files)), counts := Drop(k.counts, ClosedFiles(files)));
      WithFilesFrame(k.procs, i, KeptFiles(files));
      SelfCrew(k.threads);
      SameCrewKeeps(k, k1);
      ReimagedCounts(k1, i, current, root);
      ReimagedFrame(k1, i, current, root);
      SameLength(k1.procs, Reimaged(k1, i, current, root).0.procs);
      var k2 := Reimaged(k1, i, current, root).0;
      var s := Security.Apply(k.security, Security.Register(request.caller, request.requested)).0;
      var k3 := k2.(procs := WithState(k2.procs, i, Ready), security := s);
      SlotFrame(k2.procs, i, k2.procs[i].value.(state := Ready));
      SelfCrew(k2.threads);
      SameCrewKeeps(k2, k3);
    }
  }

  // ---------------------------------------------------------------------
  // Every step
  // ---------------------------------------------------------------------

  lemma StepKeepsThreads(k: KernelState, step: Step)
    requires ThreadInvariant(k) && |k.queues| == |k.procs| && TablesOk(k.procs) && CallerIsLive(k, step)
    requires Security.Below(k.security, k.nextPid)
    requires step.ExecStep? ==>
               LiveCaller(k, step.request.caller) && !ForeignThread(k.threads, step.request.caller, step.thread)
    ensures ThreadInvariant(Next(k, step))
  {
    hide ThreadInvariant, SameLife, SameFiles, SameWaits, SameCounts, SameCrew, Locate, ForeignThread, Send, Receive,
      ReceiveOrBlock, Exit, Wait, Open, Close, Duplicate, DuplicateTo, Spawn, SpawnLoaded, CloneThread, CloneProcess,
      Exec, RemoveThread, Regrouped;
    SelfCrew(k.threads);
    SelfFrame(k.procs);
    if Still(step) {
      hide Next;
      StillFrame(k, step);
      SameCrewKeeps(k, Next(k, step));
      return;
    }
    match step
    case ExitStep(pid, status, readyOk, wakes) => ExitKeepsThreads(k, pid, status, readyOk, wakes);
    case WaitStep(pid, thread, selector, writeOk, noHang, blockOk) =>
      WaitKeepsThreads(k, pid, thread, selector, writeOk, noHang, blockOk);
    case SpawnStep(parent, creds, cloned, mtssOk) => SpawnKeepsThreads(k, parent, creds, cloned, mtssOk);
    case SpawnLoadedStep(parent, creds, cloned, mtssOk, loadOk) =>
      SpawnLoadedKeepsThreads(k, parent, creds, cloned, mtssOk, loadOk);
    case CloneThreadStep(pid, mtssOk) => CloneThreadKeepsThreads(k, pid, mtssOk);
    case CloneProcessStep(pid, creds, cloned, mtssOk) => CloneProcessKeepsThreads(k, pid, creds, cloned, mtssOk);
    case ExecStep(request, thread, root, mtssOk, readyOk) =>
      ExecKeepsThreads(k, request, thread, root, mtssOk, readyOk);
    case TerminateThreadStep(id) => RemoveThreadKeeps(k, id);
  }
}
