/** Process and thread ids: distinct in every state and never given out twice. */
module KernelIds {
  import opened Prelude
  import opened Tables
  import opened Labels
  import Security
  import opened Ipc
  import opened KernelSteps

  // ---------------------------------------------------------------------
  // Steps and runs
  // ---------------------------------------------------------------------

  datatype Step =
    | SendStep(sender: ProcessId, receiver: ProcessId, payload: MessagePayload, readyOk: bool, wakes: ThreadId -> bool,
               blockOk: bool)
    | ReceiveStep(caller: ProcessId)
    | ReceiveOrBlockStep(caller: ProcessId, blockOk: bool)
    | ExitStep(pid: ProcessId, status: int, readyOk: bool, wakes: ThreadId -> bool)
    | WaitStep(caller: ProcessId, thread: Option<ThreadId>, selector: int, writeOk: bool, noHang: bool, blockOk: bool)
    | OpenStep(caller: ProcessId, closeOnExec: bool)
    | CloseStep(caller: ProcessId, fd: nat)
    | DuplicateStep(caller: ProcessId, fd: nat, low: nat, closeOnExec: bool)
    | DuplicateToStep(caller: ProcessId, fd: nat, to: nat, closeOnExec: bool, rejectSame: bool)
    | SpawnStep(parent: Option<ProcessId>, creds: Credentials, cloned: Space, mtssOk: bool)
    | SpawnLoadedStep(spawner: ProcessId, creds: Credentials, cloned: Space, mtssOk: bool, loadOk: bool)
    | CloneThreadStep(caller: ProcessId, mtssOk: bool)
    | CloneProcessStep(cloner: ProcessId, creds: Credentials, cloned: Space, mtssOk: bool)
    | ExecStep(request: Security.ExecRequest, thread: Option<ThreadId>, root: nat, mtssOk: bool, readyOk: bool)
    | TerminateThreadStep(id: ThreadId)
    | SecurityStep(op: Security.Operation)
    | RegroupStep(regrouper: ProcessId, pid: ProcessId, group: nat, sameSession: bool)

  /** `setpgid`, and `setsid` as far as groups go: a process moves itself or a child of its session. */
  function Regrouped(k: KernelState, caller: ProcessId, pid: ProcessId, group: nat, sameSession: bool): KernelState {
    var i := Locate(k.procs, pid);
    if Locate(k.procs, caller) == |k.procs| || i == |k.procs| || !sameSession
       || (pid != caller && k.procs[i].value.parent != Some(caller)) then k
    else k.(procs := k.procs[i := Some(k.procs[i].value.(group := group))])
  }

  function Next(k: KernelState, step: Step): KernelState
    requires |k.queues| == |k.procs| && TablesOk(k.procs)
  {
    match step
    case SendStep(s, r, payload, readyOk, wakes, blockOk) => Send(k, s, r, payload, readyOk, wakes, blockOk).0
    case ReceiveStep(pid) => Receive(k, pid).0
    case ReceiveOrBlockStep(pid, blockOk) => ReceiveOrBlock(k, pid, blockOk).0
    case ExitStep(pid, status, readyOk, wakes) => Exit(k, pid, status, readyOk, wakes)
    case WaitStep(pid, thread, selector, writeOk, noHang, blockOk) =>
      Wait(k, pid, thread, selector, writeOk, noHang, blockOk).0
    case OpenStep(pid, closeOnExec) => Open(k, pid, closeOnExec).0
    case CloseStep(pid, fd) => Close(k, pid, fd).0
    case DuplicateStep(pid, fd, low, closeOnExec) => Duplicate(k, pid, fd, low, closeOnExec).0
    case DuplicateToStep(pid, fd, to, closeOnExec, reject) => DuplicateTo(k, pid, fd, to, closeOnExec, reject).0
    case SpawnStep(parent, creds, cloned, mtssOk) => Spawn(k, parent, creds, cloned, mtssOk).0
    case SpawnLoadedStep(parent, creds, cloned, mtssOk, loadOk) =>
      SpawnLoaded(k, parent, creds, cloned, mtssOk, loadOk).0
    case CloneThreadStep(pid, mtssOk) => CloneThread(k, pid, mtssOk).0
    case CloneProcessStep(pid, creds, cloned, mtssOk) => CloneProcess(k, pid, creds, cloned, mtssOk).0
    case ExecStep(request, thread, root, mtssOk, readyOk) => Exec(k, request, thread, root, mtssOk, readyOk).0
    case TerminateThreadStep(id) => RemoveThread(k, id)
    case SecurityStep(op) => if op.Register? || op.Derive? then k else k.(security := Security.Apply(k.security, op).0)
    case RegroupStep(caller, pid, group, sameSession) => Regrouped(k, caller, pid, group, sameSession)
  }

  // ---------------------------------------------------------------------
  // Slots that keep their process
  // ---------------------------------------------------------------------

  /** The same process, as far as its id, its parent and whether it has exited go. */
  ghost predicate SameSlot(a: Option<Pcb>, b: Option<Pcb>) {
    && a.Some? == b.Some?
    && (a.Some? ==> a.value.pid == b.value.pid && a.value.parent == b.value.parent
                    && (a.value.state == Zombie <==> b.value.state == Zombie)
                    && a.value.exitStatus == b.value.exitStatus)
  }

  ghost predicate SameLife(p: Procs, q: Procs) {
    |p| == |q| && forall i :: 0 <= i < |p| ==> SameSlot(p[i], q[i])
  }

  ghost predicate ProcIds(procs: Procs, nextPid: nat) {
    && nextPid > 0
    && (forall i :: 0 <= i < |procs| && procs[i].Some? ==> 0 < procs[i].value.pid < nextPid)
    && (forall i, j :: 0 <= i < j < |procs| && procs[i].Some? && procs[j].Some? ==>
        procs[i].value.pid != procs[j].value.pid)
  }

  ghost predicate ThreadIds(threads: Threads, nextThread: nat) {
    && (forall i :: 0 <= i < |threads| && threads[i].Some? ==> threads[i].value.id < nextThread)
    && (forall i, j :: 0 <= i < j < |threads| && threads[i].Some? && threads[j].Some? ==>
        threads[i].value.id != threads[j].value.id)
  }

  /** No process of `q` is new. */
  ghost predicate NoneNew(p: Procs, q: Procs) {
    |q| == |p| && forall i :: 0 <= i < |q| && q[i].Some? ==> p[i].Some? && p[i].value.pid == q[i].value.pid
  }

  lemma NoneNewKeepsIds(p: Procs, q: Procs, n: nat)
    requires NoneNew(p, q) && ProcIds(p, n)
    ensures ProcIds(q, n) && ProcIds(q, n + 1)
  {
  }

  /** The slot of a process is where `locate_process` finds it. */
  lemma LocateIs(procs: Procs, n: nat, i: nat)
    requires ProcIds(procs, n) && i < |procs| && procs[i].Some?
    ensures Locate(procs, procs[i].value.pid) == i
  {
    FirstIs(procs, HasPid(procs[i].value.pid), i);
  }

  lemma SameIsNoneNew(p: Procs, q: Procs)
    requires SameLife(p, q)
    ensures NoneNew(p, q)
  {
  }
}
