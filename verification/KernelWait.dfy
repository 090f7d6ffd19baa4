/** Waiting for children: no exit is missed, and each is reported once. */
module KernelWait {
  import opened Prelude
  import opened Tables
  import opened Labels
  import Security
  import opened Descriptors
  import opened KernelSteps
  import opened KernelIds
  import opened KernelFrame
  import opened KernelCreate
  import opened KernelFileSteps
  import opened KernelThreadSteps

  /**
   * `child` is a zombie child of `p` that the wait `p` has recorded would return; `grouped` counts waits for groups.
   */
  ghost predicate Missed(p: Pcb, child: Pcb, grouped: bool) {
    && p.childWait.Some? && (grouped || !p.childWait.value.Group?)
    && child.state == Zombie && child.parent == Some(p.pid) && p.childWait.value.Matches(child.pid, child.group)
  }

  /** Nobody waits for a child that has already exited. */
  ghost predicate NoneMissed(procs: Procs, grouped: bool) {
    forall i, c :: 0 <= i < |procs| && 0 <= c < |procs| && procs[i].Some? && procs[c].Some? ==>
      !Missed(procs[i].value, procs[c].value, grouped)
  }

  /** The same process, perhaps no longer waiting, and no zombie unless it was one. */
  ghost predicate Calmer(a: Option<Pcb>, b: Option<Pcb>) {
    b.Some? ==> && a.Some? && a.value.pid == b.value.pid && a.value.parent == b.value.parent
                && (b.value.state == Zombie ==> a.value.state == Zombie) && a.value.group == b.value.group
                && (b.value.childWait == a.value.childWait || b.value.childWait.None?)
  }

  lemma CalmerKeeps(p: Procs, q: Procs, grouped: bool)
    requires NoneMissed(p, grouped) && |p| == |q| && forall i :: 0 <= i < |p| ==> Calmer(p[i], q[i])
    ensures NoneMissed(q, grouped)
  {
    forall i, c | 0 <= i < |q| && 0 <= c < |q| && q[i].Some? && q[c].Some?
      ensures !Missed(q[i].value, q[c].value, grouped)
    {
      assert Calmer(p[i], q[i]) && Calmer(p[c], q[c]);
      assert !Missed(p[i].value, p[c].value, grouped);
    }
  }

  lemma SameWaitsKeep(p: Procs, q: Procs, grouped: bool)
    requires NoneMissed(p, grouped) && SameLife(p, q) && SameWaits(p, q)
    ensures NoneMissed(q, grouped)
  {
    hide NoneMissed;
    forall i | 0 <= i < |p|
      ensures Calmer(p[i], q[i])
    {
      assert SameSlot(p[i], q[i]);
    }
    CalmerKeeps(p, q, grouped);
  }

  /** A new process waits for nobody and has not exited. */
  lemma NewcomerKeeps(procs: Procs, slot: nat, p: Pcb, grouped: bool)
    requires NoneMissed(procs, grouped) && slot < |procs| && p.state != Zombie && p.childWait.None?
    ensures NoneMissed(procs[slot := Some(p)], grouped)
  {
    var q := procs[slot := Some(p)];
    forall i, c | 0 <= i < |q| && 0 <= c < |q| && q[i].Some? && q[c].Some?
      ensures !Missed(q[i].value, q[c].value, grouped)
    {
      if i != slot && c != slot {
        assert !Missed(procs[i].value, procs[c].value, grouped);
      }
    }
  }

  // ---------------------------------------------------------------------
  // Exit
  // ---------------------------------------------------------------------

  /** Nobody waits for a child that has exited, except perhaps for the one in slot `i`. */
  ghost predicate OnlyMisses(procs: Procs, i: nat, grouped: bool) {
    forall j, c :: 0 <= j < |procs| && 0 <= c < |procs| && c != i && procs[j].Some? && procs[c].Some? ==>
      !Missed(procs[j].value, procs[c].value, grouped)
  }

  /** After the burial only the buried child can have been missed. */
  lemma BuriedMissesOne(procs: Procs, i: nat, status: int, grouped: bool)
    requires NoneMissed(procs, grouped) && i < |procs| && procs[i].Some?
    ensures OnlyMisses(procs[i := Some(Dead(procs[i].value, status))], i, grouped)
  {
    var q := procs[i := Some(Dead(procs[i].value, status))];
    forall j, c | 0 <= j < |q| && 0 <= c < |q| && c != i && q[j].Some? && q[c].Some?
      ensures !Missed(q[j].value, q[c].value, grouped)
    {
      assert !Missed(procs[j].value, procs[c].value, grouped);
    }
  }

  /** Telling the parent clears the one wait that the exit could have missed, whatever the scheduler answers. */
  lemma ParentWokenMissesNone(b: KernelState, n: nat, i: nat, readyOk: bool, wakes: ThreadId -> bool, grouped: bool)
    requires i < |b.procs| && b.procs[i].Some? && ProcIds(b.procs, n) && OnlyMisses(b.procs, i, grouped)
    ensures NoneMissed(ParentWoken(b, i, readyOk, wakes).procs, grouped)
  {
    hide First, Swept, Woken;
    var q := ParentWoken(b, i, readyOk, wakes).procs;
    ParentWokenFrame(b, i, readyOk, wakes);
    hide SameFiles, SameCounts;
    forall j, c | 0 <= j < |q| && 0 <= c < |q| && q[j].Some? && q[c].Some?
      ensures !Missed(q[j].value, q[c].value, grouped)
    {
      assert SameSlot(b.procs[j], q[j]) && SameSlot(b.procs[c], q[c]);
      LocateIs(b.procs, n, j);
      assert c != i ==> !Missed(b.procs[j].value, b.procs[c].value, grouped);
    }
  }

  lemma ExitMissesNone(k: KernelState, pid: ProcessId, status: int, readyOk: bool, wakes: ThreadId -> bool,
                       grouped: bool)
    requires NoneMissed(k.procs, grouped) && ProcIds(k.procs, k.nextPid) && |k.queues| == |k.procs|
    ensures NoneMissed(Exit(k, pid, status, readyOk, wakes).procs, grouped)
  {
    hide First, ParentWoken, Buried, NoneMissed, OnlyMisses;
    var i := Locate(k.procs, pid);
    if i < |k.procs| && k.procs[i].value.state != Zombie {
      var b := Buried(k, i, status);
      BuriedSlot(k, i, status);
      BuriedMissesOne(k.procs, i, status, grouped);
      assert NoneNew(k.procs, b.procs);
      NoneNewKeepsIds(k.procs, b.procs, k.nextPid);
      ParentWokenMissesNone(b, k.nextPid, i, readyOk, wakes, grouped);
    }
  }

  // ---------------------------------------------------------------------
  // Wait
  // ---------------------------------------------------------------------

  /** A wait is recorded only when no matching child has exited. */
  lemma RecordedMissesNone(procs: Procs, i: nat, selector: Selector, state: ProcessState, grouped: bool)
    requires NoneMissed(procs, grouped) && i < |procs| && procs[i].Some? && procs[i].value.state != Zombie
             && state != Zombie
    requires forall c :: 0 <= c < |procs| ==> !ZombieMatching(procs[i].value.pid, selector)(procs[c])
    ensures NoneMissed(procs[i := Some(procs[i].value.(childWait := Some(selector), state := state))], grouped)
  {
    var q := procs[i := Some(procs[i].value.(childWait := Some(selector), state := state))];
    forall j, c | 0 <= j < |q| && 0 <= c < |q| && q[j].Some? && q[c].Some?
      ensures !Missed(q[j].value, q[c].value, grouped)
    {
      if j == i {
        assert !ZombieMatching(procs[i].value.pid, selector)(procs[c]);
      } else {
        assert !Missed(procs[j].value, procs[c].value, grouped);
      }
    }
  }

  lemma WaitMissesNone(k: KernelState, parent: ProcessId, thread: Option<ThreadId>, selector: int,
                       writeOk: bool, noHang: bool, blockOk: bool, grouped: bool)
    requires NoneMissed(k.procs, grouped) && LiveCaller(k, parent)
    ensures NoneMissed(Wait(k, parent, thread, selector, writeOk, noHang, blockOk).0.procs, grouped)
  {
    hide First, NoneMissed, Swept, LocateThread, RevokeTask;
    var (k2, r) := Wait(k, parent, thread, selector, writeOk, noHang, blockOk);
    var i := Locate(k.procs, parent);
    if r.Reaped? {
      ReapedTable(k, parent, thread, selector, writeOk, noHang, blockOk);
      assert forall j :: 0 <= j < |k.procs| ==> Calmer(k.procs[j], k2.procs[j]);
      CalmerKeeps(k.procs, k2.procs, grouped);
    } else if r.Waiting? {
      var sel := DecodeSelector(selector, k.procs[i].value.group);
      var p := k.procs[i].value.(childWait := Some(sel));
      assert forall c :: 0 <= c < |k.procs| ==> !ZombieMatching(parent, sel)(k.procs[c]);
      RecordedMissesNone(k.procs, i, sel, p.state, grouped);
      RecordedMissesNone(k.procs, i, sel, Blocked, grouped);
      assert k2.procs == k.procs[i := Some(p.(state := if blockOk then Blocked else p.state))];
    }
  }

  // ---------------------------------------------------------------------
  // Every step
  // ---------------------------------------------------------------------

  lemma CreateMissesNone(k: KernelState, prepared: Prepared, creds: Credentials, mtssOk: bool, grouped: bool)
    requires NoneMissed(k.procs, grouped) && FreeSlot(k) < |k.procs|
    requires ProcIds(k.procs, k.nextPid) && ThreadIds(k.threads, k.nextThread) && Security.Below(k.security, k.nextPid)
    requires prepared.pcb.Some? ==> var p := prepared.pcb.value;
                                    && p.pid == k.nextPid && p.threadCount == 0 && p.state == Ready && p.childWait.None?
    ensures NoneMissed(CreateFrom(k, prepared, creds, mtssOk).0.procs, grouped)
  {
    CreateFromOutcome(k, prepared, creds, mtssOk);
    hide CreateFrom, NoneMissed, First, Joined, RegisterOk, Drop, ProcIds, ThreadIds, Security.Below;
    if CreateFrom(k, prepared, creds, mtssOk).1.Some? {
      NewcomerKeeps(k.procs, FreeSlot(k), prepared.pcb.value.(threadCount := 1), grouped);
    }
  }

  lemma RollbackMissesNone(k: KernelState, pid: ProcessId, grouped: bool)
    requires NoneMissed(k.procs, grouped)
    ensures NoneMissed(RollbackShell(k, pid).procs, grouped)
  {
    hide First, NoneMissed, Drop, RevokeTask;
    var q := RollbackShell(k, pid).procs;
    assert forall i :: 0 <= i < |k.procs| ==> Calmer(k.procs[i], q[i]);
    CalmerKeeps(k.procs, q, grouped);
  }

  lemma SpawnMissesNone(k: KernelState, parent: Option<ProcessId>, creds: Credentials, cloned: Space, mtssOk: bool,
                        grouped: bool)
    requires NoneMissed(k.procs, grouped) && TablesOk(k.procs)
    requires ProcIds(k.procs, k.nextPid) && ThreadIds(k.threads, k.nextThread) && Security.Below(k.security, k.nextPid)
    ensures NoneMissed(Spawn(k, parent, creds, cloned, mtssOk).0.procs, grouped)
  {
    hide NoneMissed, Spawn, Prepare, CreateFrom, First, MaySpawn, TablesOk, ProcIds, ThreadIds, Security.Below;
    SpawnIs(k, parent, creds, cloned, mtssOk);
    if Spawn(k, parent, creds, cloned, mtssOk) != (k, None) {
      CreateMissesNone(k, Prepare(k, parent, cloned), creds, mtssOk, grouped);
    }
  }

  lemma CloneProcessMissesNone(k: KernelState, caller: ProcessId, creds: Credentials, cloned: Space, mtssOk: bool,
                               grouped: bool)
    requires NoneMissed(k.procs, grouped) && TablesOk(k.procs)
    requires ProcIds(k.procs, k.nextPid) && ThreadIds(k.threads, k.nextThread) && Security.Below(k.security, k.nextPid)
    ensures NoneMissed(CloneProcess(k, caller, creds, cloned, mtssOk).0.procs, grouped)
  {
    hide NoneMissed, CloneProcess, PrepareShell, CreateFrom, First, MaySpawn, TablesOk, ProcIds, ThreadIds,
      Security.Below;
    CloneProcessIs(k, caller, creds, cloned, mtssOk);
    if CloneProcess(k, caller, creds, cloned, mtssOk) != (k, None) {
      CreateMissesNone(k, PrepareShell(k, caller, cloned), creds, mtssOk, grouped);
    }
  }

  /** Process `i` has exited, and its parent waits for the group it is to be moved to. */
  predicate Reveals(procs: Procs, i: nat, group: nat) {
    && i < |procs| && procs[i].Some? && procs[i].value.state == Zombie && procs[i].value.parent.Some?
    && var j := Locate(procs, procs[i].value.parent.value);
    j < |procs| && procs[j].value.childWait == Some(Group(group))
  }

  /** The step moves a process that has exited into the group its parent waits for. */
  predicate RevealsZombie(k: KernelState, step: Step) {
    step.RegroupStep? && step.sameSession && Locate(k.procs, step.regrouper) < |k.procs| &&
    var i := Locate(k.procs, step.pid);
    && i < |k.procs| && (step.pid == step.regrouper || k.procs[i].value.parent == Some(step.regrouper))
    && Reveals(k.procs, i, step.group)
  }

  lemma RegroupedMisses(procs: Procs, n: nat, i: nat, group: nat, grouped: bool)
    requires NoneMissed(procs, grouped) && ProcIds(procs, n) && i < |procs| && procs[i].Some?
    ensures NoneMissed(procs[i := Some(procs[i].value.(group := group))], grouped)
            <==> !(grouped && Reveals(procs, i, group))
  {
    hide First;
    var q := procs[i := Some(procs[i].value.(group := group))];
    if grouped && Reveals(procs, i, group) {
      var j := Locate(procs, procs[i].value.parent.value);
      assert Missed(q[j].value, q[i].value, grouped);
    } else {
      forall j, c | 0 <= j < |q| && 0 <= c < |q| && q[j].Some? && q[c].Some?
        ensures !Missed(q[j].value, q[c].value, grouped)
      {
        assert !Missed(procs[j].value, procs[c].value, grouped);
        LocateIs(procs, n, j);
      }
    }
  }

  lemma RegroupMissesNone(k: KernelState, caller: ProcessId, pid: ProcessId, group: nat, sameSession: bool,
                          grouped: bool)
    requires NoneMissed(k.procs, grouped) && ProcIds(k.procs, k.nextPid)
    ensures NoneMissed(Regrouped(k, caller, pid, group, sameSession).procs, grouped)
       <==> !(grouped && RevealsZombie(k, RegroupStep(caller, pid, group, sameSession)))
  {
    hide First, NoneMissed, Reveals, ProcIds;
    var i := Locate(k.procs, pid);
    if i < |k.procs| {
      RegroupedMisses(k.procs, k.nextPid, i, group, grouped);
    }
  }

  lemma OnlyRegroupReveals(k: KernelState, step: Step)
    ensures RevealsZombie(k, step) ==> step.RegroupStep?
  {
  }

  /** Every step that leaves no zombie revealed leaves no wait missed; of waits for groups exactly those steps. */
  lemma StepMissesNone(k: KernelState, step: Step, grouped: bool)
    requires NoneMissed(k.procs, grouped) && |k.queues| == |k.procs| && TablesOk(k.procs) && CallerIsLive(k, step)
    requires ProcIds(k.procs, k.nextPid) && ThreadIds(k.threads, k.nextThread) && Security.Below(k.security, k.nextPid)
    requires step.ExecStep? ==> LiveCaller(k, step.request.caller)
    ensures NoneMissed(Next(k, step).procs, grouped) <==> !(grouped && RevealsZombie(k, step))
  {
    hide NoneMissed, RevealsZombie, SameLife, SameFiles, SameWaits, SameCounts, Locate, ThreadIds, ProcIds, TablesOk,
      Security.Below, Send, Receive, ReceiveOrBlock, Exit, Wait, Open, Close, Duplicate, DuplicateTo, Spawn,
      CloneThread, CloneProcess, Exec, RemoveThread, Regrouped;
    OnlyRegroupReveals(k, step);
    if step.RegroupStep? {
      RegroupMissesNone(k, step.regrouper, step.pid, step.group, step.sameSession, grouped);
      return;
    }
    if Quiet(step) {
      hide Next;
      QuietFrame(k, step);
      SameWaitsKeep(k.procs, Next(k, step).procs, grouped);
      return;
    }
    match step
    case SendStep(s, r, payload, readyOk, wakes, blockOk) =>
      SendFrame(k, s, r, payload, readyOk, wakes, blockOk);
      SameWaitsKeep(k.procs, Next(k, step).procs, grouped);
    case ReceiveStep(pid) => ReceiveRest(k, pid);
    case ReceiveOrBlockStep(pid, blockOk) =>
      ReceiveOrBlockFrame(k, pid, blockOk);
      SameWaitsKeep(k.procs, Next(k, step).procs, grouped);
    case ExitStep(pid, status, readyOk, wakes) => ExitMissesNone(k, pid, status, readyOk, wakes, grouped);
    case WaitStep(pid, thread, selector, writeOk, noHang, blockOk) =>
      WaitMissesNone(k, pid, thread, selector, writeOk, noHang, blockOk, grouped);
    case SpawnStep(parent, creds, cloned, mtssOk) => SpawnMissesNone(k, parent, creds, cloned, mtssOk, grouped);
    case SpawnLoadedStep(parent, creds, cloned, mtssOk, loadOk) =>
      SpawnMissesNone(k, Some(parent), creds, cloned, mtssOk, grouped);
      var (k1, child) := Spawn(k, Some(parent), creds, cloned, mtssOk);
      if child.Some? {
        RollbackMissesNone(k1, child.value, grouped);
      }
    case CloneProcessStep(pid, creds, cloned, mtssOk) => CloneProcessMissesNone(k, pid, creds, cloned, mtssOk, grouped);
    case ExecStep(request, thread, root, mtssOk, readyOk) =>
      ExecFrame(k, request, thread, root, mtssOk, readyOk);
      SameWaitsKeep(k.procs, Next(k, step).procs, grouped);
    case SecurityStep(op) =>
  }
}
