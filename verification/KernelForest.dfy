/** Runs of the kernel as runs of security operations: the capability forest in every state. */
module KernelForest {
  import opened Prelude
  import opened Tables
  import opened Labels
  import opened Capabilities
  import Security
  import opened Descriptors
  import opened KernelSteps
  import opened KernelIds
  import opened KernelFrame
  import opened KernelCreate
  import opened KernelFileSteps
  import opened KernelIpc
  import opened KernelRuns
  import opened KernelTheorems

  /** No kernel step applies more security operations than this. */
  const MAX_OPERATIONS: nat := 5

  type Operations = seq<Security.Operation>

  lemma EnrollOperations(k: KernelState, slot: nat, prepared: Prepared, creds: Credentials) returns (ops: Operations)
    requires slot < |k.procs|
    ensures |ops| <= 3 && Enroll(k, slot, prepared, creds).0.security == Security.After(k.security, ops)
  {
    hide Security.Apply, Security.After, Drop;
    Security.AfterOne(k.security, Security.RevokeTask(0));
    if prepared.pcb.None? {
      return [];
    }
    var p := prepared.pcb.value;
    var register, revoke := Security.Register(p.pid, creds), Security.Operation.RevokeTask(p.pid);
    var (s1, r1) := Security.Apply(k.security, register);
    Security.AfterOne(k.security, register);
    if r1.Err? || p.parent.None? {
      return [register];
    }
    var derive := Security.Derive(p.parent.value, p.pid);
    var (s2, r2) := Security.Apply(s1, derive);
    Security.AfterAppend(k.security, [register], [derive]);
    Security.AfterOne(s1, derive);
    if r2.Ok? {
      return [register] + [derive];
    }
    Security.AfterAppend(k.security, [register] + [derive], [revoke]);
    Security.AfterOne(s2, revoke);
    return [register] + [derive] + [revoke];
  }

  lemma RollbackOperations(k: KernelState, pid: ProcessId) returns (ops: Operations)
    ensures |ops| <= 1 && RollbackShell(k, pid).security == Security.After(k.security, ops)
  {
    hide Security.Apply, Security.After, Drop, First;
    Security.AfterOne(k.security, Security.RevokeTask(pid));
    return if Locate(k.procs, pid) == |k.procs| then [] else [Security.RevokeTask(pid)];
  }

  lemma StartedOperations(k: KernelState, pid: ProcessId, mtssOk: bool) returns (ops: Operations)
    ensures |ops| <= 1 && Started(k, pid, mtssOk).0.security == Security.After(k.security, ops)
  {
    hide RollbackShell, First, Counted, LocateThread, Security.After, Security.Apply;
    Security.AfterOne(k.security, Security.RevokeTask(0));
    var (k1, thread) := CreateThread(k, pid);
    if thread.None? {
      ops := RollbackOperations(k1, pid);
    } else if !mtssOk {
      ops := RollbackOperations(RemoveThread(k1, thread.value), pid);
    } else {
      ops := [];
    }
  }

  lemma CreateOperations(k: KernelState, prepared: Prepared, creds: Credentials, mtssOk: bool) returns (ops: Operations)
    requires FreeSlot(k) < |k.procs|
    ensures |ops| <= 4 && CreateFrom(k, prepared, creds, mtssOk).0.security == Security.After(k.security, ops)
  {
    hide Enroll, Started, First, Security.After;
    ops := EnrollOperations(k, FreeSlot(k), prepared, creds);
    var (k1, ok) := Enroll(k, FreeSlot(k), prepared, creds);
    if ok {
      var more := StartedOperations(k1, k.nextPid, mtssOk);
      Security.AfterAppend(k.security, ops, more);
      ops := ops + more;
    }
  }

  lemma SpawnOperations(k: KernelState, parent: Option<ProcessId>, creds: Credentials, cloned: Space, mtssOk: bool)
    returns (ops: Operations)
    requires TablesOk(k.procs)
    ensures |ops| <= 4 && Spawn(k, parent, creds, cloned, mtssOk).0.security == Security.After(k.security, ops)
  {
    hide Prepare, CreateFrom, First, MaySpawn, Security.After, Security.Apply;
    Security.AfterOne(k.security, Security.RevokeTask(0));
    ops := [];
    if FreeSlot(k) < |k.procs| && !(parent.Some? && !MaySpawn(k, parent.value, creds)) {
      ops := CreateOperations(k, Prepare(k, parent, cloned), creds, mtssOk);
    }
  }

  lemma SpawnLoadedOperations(k: KernelState, parent: ProcessId, creds: Credentials, cloned: Space, mtssOk: bool,
                              loadOk: bool)
    returns (ops: Operations)
    requires TablesOk(k.procs)
    ensures |ops| <= 5
            && SpawnLoaded(k, parent, creds, cloned, mtssOk, loadOk).0.security == Security.After(k.security, ops)
  {
    hide Spawn, RollbackShell, Security.After;
    ops := SpawnOperations(k, Some(parent), creds, cloned, mtssOk);
    var (k1, child) := Spawn(k, Some(parent), creds, cloned, mtssOk);
    if child.Some? && !loadOk {
      var more := RollbackOperations(k1, child.value);
      Security.AfterAppend(k.security, ops, more);
      ops := ops + more;
    }
  }

  lemma CloneOperations(k: KernelState, caller: ProcessId, creds: Credentials, cloned: Space, mtssOk: bool)
    returns (ops: Operations)
    requires TablesOk(k.procs)
    ensures |ops| <= 4 && CloneProcess(k, caller, creds, cloned, mtssOk).0.security == Security.After(k.security, ops)
  {
    hide PrepareShell, CreateFrom, First, MaySpawn, Security.After, Security.Apply;
    Security.AfterOne(k.security, Security.RevokeTask(0));
    ops := [];
    if FreeSlot(k) < |k.procs| && MaySpawn(k, caller, creds) {
      ops := CreateOperations(k, PrepareShell(k, caller, cloned), creds, mtssOk);
    }
  }

  lemma ExitOperations(k: KernelState, pid: ProcessId, status: int, readyOk: bool, wakes: ThreadId -> bool)
    returns (ops: Operations)
    requires |k.queues| == |k.procs|
    ensures |ops| <= 1 && Exit(k, pid, status, readyOk, wakes).security == Security.After(k.security, ops)
  {
    hide Security.Apply, Security.After, First, Drop, Swept, ParentWoken;
    Security.AfterOne(k.security, Security.RevokeTask(pid));
    var i := Locate(k.procs, pid);
    ops := [];
    if i < |k.procs| && k.procs[i].value.state != Zombie {
      ParentWokenRest(Buried(k, i, status), i, readyOk, wakes);
      ops := [Security.RevokeTask(pid)];
    }
  }

  lemma WaitOperations(k: KernelState, step: Step) returns (ops: Operations)
    requires Shaped(k) && step.WaitStep?
    ensures |ops| <= 1 && Next(k, step).security == Security.After(k.security, ops)
  {
    hide Wait, First, Security.Apply, Security.After;
    WaitKeepsSecurity(k, step.caller, step.thread, step.selector, step.writeOk, step.noHang, step.blockOk);
    var r := Wait(k, step.caller, step.thread, step.selector, step.writeOk, step.noHang, step.blockOk).1;
    ops := [];
    if r.Reaped? {
      ReapedTable(k, step.caller, step.thread, step.selector, step.writeOk, step.noHang, step.blockOk);
      ops := [Security.RevokeTask(r.pid)];
    }
    Security.AfterOne(k.security, Security.RevokeTask(if r.Reaped? then r.pid else 0));
  }

  lemma ExecOperations(k: KernelState, request: Security.ExecRequest, current: Option<ThreadId>, root: nat,
                       mtssOk: bool, readyOk: bool) returns (ops: Operations)
    ensures |ops| <= 1 && Exec(k, request, current, root, mtssOk, readyOk).0.security == Security.After(k.security, ops)
  {
    hide Exec, Security.Apply, Security.After, Security.DomainOf;
    ExecRest(k, request, current, root, mtssOk, readyOk);
    var register := Security.Register(request.caller, request.requested);
    Security.AfterOne(k.security, register);
    return if Exec(k, request, current, root, mtssOk, readyOk).0.security == k.security then [] else [register];
  }

  /** A step that touches neither domains nor capabilities. */
  predicate Harmless(step: Step) {
    !step.ExitStep? && !step.WaitStep? && !step.SpawnStep? && !step.SpawnLoadedStep? && !step.CloneProcessStep?
    && !step.ExecStep? && !step.SecurityStep?
  }

  lemma HarmlessKeepsSecurity(k: KernelState, step: Step)
    requires Shaped(k) && Harmless(step)
    ensures Next(k, step).security == k.security
  {
    hide Locate, TablesOk, Send, Receive, ReceiveOrBlock, SameLife, SameWaits;
    if Quiet(step) {
      hide Next;
      QuietFrame(k, step);
      return;
    }
    match step
    case SendStep(s, r, payload, readyOk, wakes, blockOk) => SendRest(k, s, r, payload, readyOk, wakes, blockOk);
    case ReceiveStep(pid) => ReceiveRest(k, pid);
    case ReceiveOrBlockStep(pid, blockOk) => ReceiveOrBlockRest(k, pid, blockOk);
  }

  /** To the domains and capabilities every kernel step is a short run of security operations. */
  lemma StepIsOperations(k: KernelState, step: Step) returns (ops: Operations)
    requires Shaped(k)
    ensures |ops| <= MAX_OPERATIONS && Next(k, step).security == Security.After(k.security, ops)
  {
    hide Security.After, Security.Apply, TablesOk, Exit, Wait, Spawn, SpawnLoaded, CloneProcess, Exec;
    Security.AfterOne(k.security, if step.SecurityStep? then step.op else Security.RevokeTask(0));
    if Harmless(step) {
      hide Next;
      HarmlessKeepsSecurity(k, step);
      return [];
    }
    match step
    case ExitStep(pid, status, readyOk, wakes) => ops := ExitOperations(k, pid, status, readyOk, wakes);
    case WaitStep(_, _, _, _, _, _) => ops := WaitOperations(k, step);
    case SpawnStep(parent, creds, cloned, mtssOk) => ops := SpawnOperations(k, parent, creds, cloned, mtssOk);
    case SpawnLoadedStep(parent, creds, cloned, mtssOk, loadOk) =>
      ops := SpawnLoadedOperations(k, parent, creds, cloned, mtssOk, loadOk);
    case CloneProcessStep(pid, creds, cloned, mtssOk) => ops := CloneOperations(k, pid, creds, cloned, mtssOk);
    case ExecStep(request, thread, root, mtssOk, readyOk) =>
      ops := ExecOperations(k, request, thread, root, mtssOk, readyOk);
    case SecurityStep(op) => ops := if op.Register? || op.Derive? then [] else [op];
  }

  /** The capability table is full-sized and its live records form a forest. */
  ghost predicate Rooted(k: KernelState) {
    Forest(k.security.ledger) && |k.security.ledger.records| == MAX_CAPABILITY_RECORDS
  }

  /** A step keeps the forest unless it wraps the capability id counter. */
  lemma StepKeepsForest(k: KernelState, step: Step)
    requires Shaped(k) && Rooted(k) && Next(k, step).security.ledger.nextId >= k.security.ledger.nextId
    ensures Rooted(Next(k, step))
  {
    hide Forest, Next, Security.After;
    var ops := StepIsOperations(k, step);
    Security.ShortRunKeepsForest(k.security, ops);
  }

  /** No step up to `n` wraps the capability id counter. */
  ghost predicate NoIdWrap(states: seq<KernelState>, n: nat)
    requires n < |states|
  {
    forall i :: 0 <= i < n ==> states[i].security.ledger.nextId <= states[i + 1].security.ledger.nextId
  }

  /**
   * In every state of every run of the kernel, before id wrap-around, the capabilities form a forest of shrinking
   * authority.
   */
  lemma {:induction false} EveryStateIsRooted(states: seq<KernelState>, steps: seq<Step>, n: nat)
    requires IsRun(states, steps) && Rooted(states[0]) && n <= |steps| && NoIdWrap(states, n)
    ensures Rooted(states[n])
    decreases n
  {
    hide Rooted, Next, Admissible;
    if n > 0 {
      EveryStateIsRooted(states, steps, n - 1);
      assert Shaped(states[n - 1]) && states[n - 1 + 1] == Next(states[n - 1], steps[n - 1]);
      StepKeepsForest(states[n - 1], steps[n - 1]);
    }
  }

  lemma InitialIsRooted(maxProcs: nat, depth: nat, maxFiles: nat)
    ensures Rooted(InitialState(maxProcs, depth, maxFiles))
  {
  }
}
