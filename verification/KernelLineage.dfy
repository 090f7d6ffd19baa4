/** Runs of the kernel as runs of authorised task steps. */
module KernelLineage {
  import opened Prelude
  import opened Tables
  import opened Labels
  import Security
  import Lineage
  import opened Descriptors
  import opened KernelSteps
  import opened KernelIds
  import opened KernelFrame
  import opened KernelCreate
  import opened KernelFiles
  import opened KernelFileSteps
  import opened KernelThreads
  import opened KernelThreadSteps
  import opened KernelIpc
  import opened KernelRuns
  import opened KernelTheorems

  /** A step that gives out no process id and changes no domain. */
  const IDLE: Lineage.TaskStep := Lineage.CloneThread(0)

  /** What a kernel step is to the domain table. */
  function TaskStepOf(k: KernelState, step: Step): Lineage.TaskStep
    requires |k.queues| == |k.procs| && TablesOk(k.procs)
  {
    match step
    case ExitStep(pid, _, _, _) => Lineage.Exit(pid)
    case WaitStep(_, _, _, _, _, _) => if ReapedBy(k, step).Some? then Lineage.Exit(ReapedBy(k, step).value) else IDLE
    case SpawnStep(parent, creds, _, _) =>
      if Next(k, step).nextPid == k.nextPid then IDLE
      else if parent.Some? then Lineage.Spawn(parent.value, k.nextPid, creds)
      else Lineage.Boot(k.nextPid, creds)
    case SpawnLoadedStep(parent, creds, _, _, _) =>
      if Next(k, step).nextPid == k.nextPid then IDLE else Lineage.Spawn(parent, k.nextPid, creds)
    case CloneProcessStep(caller, creds, _, _) =>
      if Next(k, step).nextPid == k.nextPid then IDLE else Lineage.Spawn(caller, k.nextPid, creds)
    case ExecStep(request, _, _, _, _) => Lineage.Exec(request)
    case SecurityStep(op) => if op.RevokeTask? then Lineage.Exit(op.pid) else IDLE
    case _ => IDLE
  }

  lemma CreateDomains(k: KernelState, prepared: Prepared, creds: Credentials, mtssOk: bool)
    requires FreeSlot(k) < |k.procs|
    requires ProcIds(k.procs, k.nextPid) && ThreadIds(k.threads, k.nextThread) && Security.Below(k.security, k.nextPid)
    requires prepared.pcb.Some? ==> prepared.pcb.value.pid == k.nextPid && prepared.pcb.value.threadCount == 0
    ensures var (k2, created) := CreateFrom(k, prepared, creds, mtssOk);
            && k2.nextPid == k.nextPid + 1
            && (created.None? ==> k2.security.domains == k.security.domains)
            && (created.Some? ==>
                  && k2.security.domains
                       == Security.Registered(k.security.domains, k.security.ledger, k.nextPid, creds).domains
                  && created.value == k.nextPid
                  && RevokeTask(k2.security, k.nextPid).domains == k.security.domains)
  {
    CreateFromOutcome(k, prepared, creds, mtssOk);
    hide CreateFrom, First, Drop, ProcIds, ThreadIds, Security.Below, Joined, RegisterOk, Security.Registered,
      RevokeTask;
    var (k2, created) := CreateFrom(k, prepared, creds, mtssOk);
    if created.Some? {
      JoinedDomains(k.security, prepared.pcb.value, creds);
      RevocationUndoesJoining(k.security, prepared.pcb.value, creds);
    }
  }

  lemma NewTaskHasNoDomain(s: Security.SecurityState, n: nat)
    requires Security.Below(s, n)
    ensures Security.DomainOf(s.domains, n).None?
  {
  }

  /** The security state of `k2` is that of `k`, or one authorised task step further and one id later. */
  ghost predicate TaskStepOrNone(k: KernelState, k2: KernelState, t: Lineage.TaskStep) {
    if k2.nextPid == k.nextPid then k2.security == k.security
    else k2.nextPid == k.nextPid + 1 && Lineage.Steps(k.security, t, k2.security)
  }

  lemma RegisteredStep(s: Security.SecurityState, s2: Security.SecurityState, parent: Option<ProcessId>, pid: ProcessId,
                       creds: Credentials)
    requires Security.DomainOf(s.domains, pid).None?
    requires parent.Some? ==> var d := Security.DomainOf(s.domains, parent.value);
                              d.Some? && Security.SpawnAllowed(d.value.creds, creds)
    requires s2.domains == s.domains || s2.domains == Security.Registered(s.domains, s.ledger, pid, creds).domains
    ensures Lineage.Steps(s, if parent.Some? then Lineage.Spawn(parent.value, pid, creds)
                          else Lineage.Boot(pid, creds), s2)
  {
    hide Security.Registered, Security.DomainOf, Security.SpawnAllowed;
  }

  lemma CreateIsTaskStep(k: KernelState, parent: Option<ProcessId>, prepared: Prepared, creds: Credentials,
                         mtssOk: bool)
    requires FreeSlot(k) < |k.procs| && Named(k, parent, prepared)
             && (parent.Some? ==> MaySpawn(k, parent.value, creds))
    requires ProcIds(k.procs, k.nextPid) && ThreadIds(k.threads, k.nextThread) && Security.Below(k.security, k.nextPid)
    ensures var t := if parent.Some? then Lineage.Spawn(parent.value, k.nextPid, creds)
            else Lineage.Boot(k.nextPid, creds);
            var (k2, created) := CreateFrom(k, prepared, creds, mtssOk);
            && TaskStepOrNone(k, k2, t)
            && (created.Some? ==> TaskStepOrNone(k, RollbackShell(k2, created.value), t))
  {
    CreateDomains(k, prepared, creds, mtssOk);
    NewTaskHasNoDomain(k.security, k.nextPid);
    hide CreateFrom, First, ProcIds, ThreadIds, Security.Below, Security.Registered, RevokeTask, Security.DomainOf,
      Security.SpawnAllowed, RollbackShell, Lineage.Steps;
    var (k2, created) := CreateFrom(k, prepared, creds, mtssOk);
    RegisteredStep(k.security, k2.security, parent, k.nextPid, creds);
    if created.Some? {
      RolledBackDomains(k2, created.value);
      RegisteredStep(k.security, RollbackShell(k2, created.value).security, parent, k.nextPid, creds);
    }
  }

  lemma SpawnIsTaskStep(k: KernelState, parent: Option<ProcessId>, creds: Credentials, cloned: Space, mtssOk: bool)
    requires TablesOk(k.procs)
    requires ProcIds(k.procs, k.nextPid) && ThreadIds(k.threads, k.nextThread) && Security.Below(k.security, k.nextPid)
    ensures var t := if parent.Some? then Lineage.Spawn(parent.value, k.nextPid, creds)
            else Lineage.Boot(k.nextPid, creds);
            var (k2, created) := Spawn(k, parent, creds, cloned, mtssOk);
            && TaskStepOrNone(k, k2, t)
            && (created.Some? ==> TaskStepOrNone(k, RollbackShell(k2, created.value), t))
  {
    hide Spawn, Prepare, CreateFrom, First, MaySpawn, TablesOk, ProcIds, ThreadIds, Security.Below, RollbackShell,
      Lineage.Steps, Named;
    SpawnIs(k, parent, creds, cloned, mtssOk);
    if Spawn(k, parent, creds, cloned, mtssOk) != (k, None) {
      CreateIsTaskStep(k, parent, Prepare(k, parent, cloned), creds, mtssOk);
    }
  }

  lemma RolledBackDomains(k: KernelState, pid: ProcessId)
    ensures var k2 := RollbackShell(k, pid);
            k2.nextPid == k.nextPid && (k2.security == k.security || k2.security == RevokeTask(k.security, pid))
  {
    hide First, Drop, RevokeTask;
  }

  lemma CloneIsTaskStep(k: KernelState, caller: ProcessId, creds: Credentials, cloned: Space, mtssOk: bool)
    requires TablesOk(k.procs)
    requires ProcIds(k.procs, k.nextPid) && ThreadIds(k.threads, k.nextThread) && Security.Below(k.security, k.nextPid)
    ensures TaskStepOrNone(k, CloneProcess(k, caller, creds, cloned, mtssOk).0, Lineage.Spawn(caller, k.nextPid, creds))
  {
    hide CloneProcess, PrepareShell, CreateFrom, First, MaySpawn, TablesOk, ProcIds, ThreadIds, Security.Below,
      Lineage.Steps, Named;
    CloneProcessIs(k, caller, creds, cloned, mtssOk);
    if CloneProcess(k, caller, creds, cloned, mtssOk) != (k, None) {
      CreateIsTaskStep(k, Some(caller), PrepareShell(k, caller, cloned), creds, mtssOk);
    }
  }

  lemma ExitIsTaskStep(k: KernelState, pid: ProcessId, status: int, readyOk: bool, wakes: ThreadId -> bool)
    requires |k.queues| == |k.procs|
    ensures Lineage.Steps(k.security, Lineage.Exit(pid), Exit(k, pid, status, readyOk, wakes).security)
    ensures Exit(k, pid, status, readyOk, wakes).nextPid == k.nextPid
  {
    hide First, Drop, Swept, ParentWoken, RevokeTask;
    var i := Locate(k.procs, pid);
    RevokedDomains(k.security, pid);
    if i < |k.procs| && k.procs[i].value.state != Zombie {
      ParentWokenRest(Buried(k, i, status), i, readyOk, wakes);
    }
  }

  lemma ExecIsTaskStep(k: KernelState, request: Security.ExecRequest, current: Option<ThreadId>, root: nat,
                       mtssOk: bool, readyOk: bool)
    ensures var k2 := Exec(k, request, current, root, mtssOk, readyOk).0;
            k2.nextPid == k.nextPid && Lineage.Steps(k.security, Lineage.Exec(request), k2.security)
  {
    hide First, Swept, Drop, KeptFiles, ClosedFiles, Reimaged, Security.DomainOf, Security.ExecAllowed,
      Security.Registered;
    var i := Locate(k.procs, request.caller);
    if i < |k.procs| {
      var files := k.procs[i].value.files;
      var k1 := k.(procs := WithFiles(k.procs, i, KeptFiles(files)), counts := Drop(k.counts, ClosedFiles(files)));
      ReimagedRest(k1, i, current, root);
    }
  }

  lemma SameDomainsStep(s: Security.SecurityState, t: Security.SecurityState)
    requires t.domains == s.domains
    ensures Lineage.Steps(s, IDLE, t)
  {
  }

  /** Every kernel step is an authorised task step on the domains, and gives out at most the next id. */
  lemma KernelStepIsTaskStep(k: KernelState, step: Step)
    requires Shaped(k) && ProcIds(k.procs, k.nextPid) && ThreadIds(k.threads, k.nextThread)
             && Security.Below(k.security, k.nextPid)
    ensures var t := TaskStepOf(k, step);
            && Lineage.Steps(k.security, t, Next(k, step).security)
            && (Lineage.Child(t).Some? ==>
                Lineage.Child(t).value == k.nextPid && Next(k, step).nextPid == k.nextPid + 1)
            && k.nextPid <= Next(k, step).nextPid
  {
    hide Lineage.Steps, Locate, ThreadIds, ProcIds, TablesOk, Security.Below, First, Send, Receive, ReceiveOrBlock,
      Exit, Wait, Open, Close, Duplicate, DuplicateTo, Spawn, CloneThread, CloneProcess, Exec, RemoveThread, Regrouped,
      RollbackShell, Security.Apply, Security.DomainOf, RevokeTask;
    var k2 := Next(k, step);
    if Quiet(step) {
      hide Next;
      QuietFrame(k, step);
      SameDomainsStep(k.security, k2.security);
      return;
    }
    match step
    case SendStep(s, r, payload, readyOk, wakes, blockOk) =>
      SendRest(k, s, r, payload, readyOk, wakes, blockOk);
      SameDomainsStep(k.security, k2.security);
    case ReceiveStep(pid) =>
      ReceiveRest(k, pid);
      SameDomainsStep(k.security, k2.security);
    case ReceiveOrBlockStep(pid, blockOk) =>
      ReceiveOrBlockRest(k, pid, blockOk);
      SameDomainsStep(k.security, k2.security);
    case ExitStep(pid, status, readyOk, wakes) => ExitIsTaskStep(k, pid, status, readyOk, wakes);
    case WaitStep(pid, thread, selector, writeOk, noHang, blockOk) => WaitIsTaskStep(k, step);
    case SpawnStep(parent, creds, cloned, mtssOk) =>
      SpawnIsTaskStep(k, parent, creds, cloned, mtssOk);
      SameDomainsStep(k.security, k.security);
    case SpawnLoadedStep(parent, creds, cloned, mtssOk, loadOk) =>
      SpawnIsTaskStep(k, Some(parent), creds, cloned, mtssOk);
      SameDomainsStep(k.security, k.security);
    case CloneProcessStep(pid, creds, cloned, mtssOk) =>
      CloneIsTaskStep(k, pid, creds, cloned, mtssOk);
      SameDomainsStep(k.security, k.security);
    case ExecStep(request, thread, root, mtssOk, readyOk) => ExecIsTaskStep(k, request, thread, root, mtssOk, readyOk);
    case SecurityStep(op) => OperationIsTaskStep(k.security, op);
  }

  lemma OperationIsTaskStep(s: Security.SecurityState, op: Security.Operation)
    ensures var t := if op.RevokeTask? then Lineage.Exit(op.pid) else IDLE;
            !op.Register? && !op.Derive? ==> Lineage.Steps(s, t, Security.Apply(s, op).0)
    ensures Lineage.Steps(s, IDLE, s)
  {
    Security.DomainsKept(s, op);
  }

  lemma WaitIsTaskStep(k: KernelState, step: Step)
    requires Shaped(k) && step.WaitStep?
    ensures Lineage.Steps(k.security, TaskStepOf(k, step), Next(k, step).security) && Next(k, step).nextPid == k.nextPid
  {
    hide Wait, First, RevokeTask, Security.DomainRevoked;
    WaitRest(k, step.caller, step.thread, step.selector, step.writeOk, step.noHang, step.blockOk);
    WaitKeepsSecurity(k, step.caller, step.thread, step.selector, step.writeOk, step.noHang, step.blockOk);
    if ReapedBy(k, step).Some? {
      ReapedTable(k, step.caller, step.thread, step.selector, step.writeOk, step.noHang, step.blockOk);
      RevokedDomains(k.security, ReapedBy(k, step).value);
    }
  }

  // ---------------------------------------------------------------------
  // Whole runs
  // ---------------------------------------------------------------------

  ghost predicate AllShaped(states: seq<KernelState>, steps: seq<Step>) {
    |states| == |steps| + 1 && forall i :: 0 <= i < |steps| ==> Shaped(states[i])
  }

  ghost function TaskSteps(states: seq<KernelState>, steps: seq<Step>): (r: seq<Lineage.TaskStep>)
    requires AllShaped(states, steps)
    ensures |r| == |steps|
    ensures forall i :: 0 <= i < |r| ==> Shaped(states[i]) && r[i] == TaskStepOf(states[i], steps[i])
  {
    seq(|steps|, i requires 0 <= i < |steps| => assert Shaped(states[i]); TaskStepOf(states[i], steps[i]))
  }

  ghost function SecurityStates(states: seq<KernelState>): (r: seq<Security.SecurityState>)
    ensures |r| == |states| && forall i :: 0 <= i < |r| ==> r[i] == states[i].security
  {
    seq(|states|, i requires 0 <= i < |states| => states[i].security)
  }

  /** No exec of the run is that of a signed service daemon. */
  ghost predicate NoSignedExec(steps: seq<Step>) {
    forall i :: 0 <= i < |steps| && steps[i].ExecStep? ==> !steps[i].request.signedDaemon
  }

  lemma RunIsShaped(states: seq<KernelState>, steps: seq<Step>)
    requires IsRun(states, steps)
    ensures AllShaped(states, steps)
  {
  }

  lemma RunTaskStep(states: seq<KernelState>, steps: seq<Step>, claim: Claim, n: nat)
    requires IsRun(states, steps) && Invariant(states[0], claim) && n < |steps|
    ensures Shaped(states[n])
    ensures var t := TaskStepOf(states[n], steps[n]);
            && Lineage.Steps(states[n].security, t, states[n + 1].security)
            && (Lineage.Child(t).Some? ==>
                Lineage.Child(t).value == states[n].nextPid && states[n + 1].nextPid == states[n].nextPid + 1)
            && states[n].nextPid <= states[n + 1].nextPid
  {
    hide Invariant, Next, TaskStepOf, Lineage.Steps;
    EveryStateIsSound(states, steps, claim, n);
    InvariantShape(states[n], Unless(claim, !NoLeak(states, steps, n)));
    KernelStepIsTaskStep(states[n], steps[n]);
  }

  /** Everybody in the family has an id that was given out. */
  lemma {:induction false} FamilyIsBelow(states: seq<KernelState>, steps: seq<Step>, claim: Claim, root: ProcessId,
                                         n: nat)
    requires IsRun(states, steps) && Invariant(states[0], claim) && AllShaped(states, steps) && n <= |steps|
    requires root < states[0].nextPid
    ensures forall pid :: pid in Lineage.Family(root, TaskSteps(states, steps)[..n]) ==> pid < states[n].nextPid
    decreases n
  {
    hide Invariant, IsRun, TaskSteps, TaskStepOf;
    var tasks := TaskSteps(states, steps);
    if n > 0 {
      FamilyIsBelow(states, steps, claim, root, n - 1);
      RunTaskStep(states, steps, claim, n - 1);
      assert tasks[..n][..n - 1] == tasks[..n - 1] && tasks[..n][n - 1] == tasks[n - 1];
    }
  }

  lemma RunIsLineage(states: seq<KernelState>, steps: seq<Step>, claim: Claim, root: ProcessId)
    requires IsRun(states, steps) && Invariant(states[0], claim) && AllShaped(states, steps) && NoSignedExec(steps)
    requires root < states[0].nextPid
    ensures var tasks := TaskSteps(states, steps);
            Lineage.IsRun(SecurityStates(states), tasks) && Lineage.FreshChildren(root, tasks)
              && Lineage.Unsigned(tasks)
  {
    hide Invariant, IsRun, TaskSteps, SecurityStates, Lineage.Steps, Lineage.Family, Lineage.Child;
    var tasks := TaskSteps(states, steps);
    forall i | 0 <= i < |steps|
      ensures Lineage.Steps(states[i].security, tasks[i], states[i + 1].security)
      ensures Lineage.Child(tasks[i]).Some? ==> Lineage.Child(tasks[i]).value !in Lineage.Family(root, tasks[..i])
      ensures tasks[i].Exec? ==> !tasks[i].request.signedDaemon
    {
      RunTaskStep(states, steps, claim, i);
      FamilyIsBelow(states, steps, claim, root, i);
      ExecOnly(states[i], steps[i]);
    }
  }

  lemma ExecOnly(k: KernelState, step: Step)
    requires Shaped(k)
    ensures TaskStepOf(k, step).Exec? ==> step.ExecStep? && TaskStepOf(k, step).request == step.request
  {
  }

  /**
   * Over a whole run of the kernel, every task that an unprivileged task has
   * brought forth stays unprivileged and within the label and capabilities
   * that task had at the start.
   */
  lemma KernelConfinement(states: seq<KernelState>, steps: seq<Step>, claim: Claim, root: ProcessId)
    requires IsRun(states, steps) && Invariant(states[0], claim) && NoSignedExec(steps)
    requires Security.DomainOf(states[0].security.domains, root).Some?
    requires !SystemPrivileged(Security.DomainOf(states[0].security.domains, root).value.creds)
    ensures AllShaped(states, steps)
    ensures Lineage.AllConfined(Security.DomainOf(states[0].security.domains, root).value.creds,
                                Lineage.Family(root, TaskSteps(states, steps)), states[|steps|].security.domains)
  {
    RunIsShaped(states, steps);
    SoundDomains(states[0], claim, root);
    hide Invariant, IsRun, TaskSteps, SecurityStates, Security.DomainOf, SystemPrivileged, Lineage.AllConfined,
      Lineage.IsRun, Lineage.FreshChildren, Lineage.Unsigned, Lineage.Family, Security.DistinctDomains;
    RunIsLineage(states, steps, claim, root);
    Lineage.LineageIsConfined(SecurityStates(states), TaskSteps(states, steps), root);
  }

  lemma SoundDomains(k: KernelState, claim: Claim, pid: ProcessId)
    requires Invariant(k, claim)
    ensures Security.DistinctDomains(k.security.domains)
    ensures Security.DomainOf(k.security.domains, pid).Some? ==> pid < k.nextPid
  {
    hide FilesInvariant, ThreadInvariant, DomainsLive, Addressed;
    if Security.DomainOf(k.security.domains, pid).Some? {
      Security.KnownIsBelow(k.security, pid, k.nextPid);
    }
  }
}
