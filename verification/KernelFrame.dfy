/** What each step leaves alone in the process table. */
module KernelFrame {
  import opened Prelude
  import opened Tables
  import Security
  import opened Ipc
  import opened Descriptors
  import opened KernelSteps
  import opened KernelIds

  /** The same processes with the same descriptors. */
  ghost predicate SameFiles(p: Procs, q: Procs) {
    && |p| == |q|
    && forall i :: 0 <= i < |p| ==> p[i].Some? == q[i].Some? && (p[i].Some? ==> p[i].value.files == q[i].value.files)
  }

  /** The same processes in the same groups, waiting for the same children. */
  ghost predicate SameWaits(p: Procs, q: Procs) {
    && |p| == |q|
    && forall i :: 0 <= i < |p| ==>
         && p[i].Some? == q[i].Some?
         && (p[i].Some? ==> p[i].value.childWait == q[i].value.childWait && p[i].value.group == q[i].value.group)
  }

  /** The same processes with the same thread counts. */
  ghost predicate SameCounts(p: Procs, q: Procs) {
    && |p| == |q|
    && forall i :: 0 <= i < |p| ==>
         p[i].Some? == q[i].Some? && (p[i].Some? ==> p[i].value.threadCount == q[i].value.threadCount)
  }

  /** The slot of a live process. */
  predicate LiveAt(procs: Procs, i: nat) {
    i < |procs| && procs[i].Some? && procs[i].value.state != Zombie
  }

  /** A step is taken by a process that has not exited; one that is not in the table counts as live. */
  predicate LiveCaller(k: KernelState, pid: ProcessId) {
    var i := Locate(k.procs, pid);
    i < |k.procs| ==> k.procs[i].value.state != Zombie
  }

  /** The calls that need it: an exited process that blocks, waits or opens a file disturbs the tables. */
  predicate CallerIsLive(k: KernelState, step: Step) {
    match step
    case ReceiveOrBlockStep(caller, _) => LiveCaller(k, caller)
    case WaitStep(caller, _, _, _, _, _) => LiveCaller(k, caller)
    case OpenStep(caller, _) => LiveCaller(k, caller)
    case _ => true
  }

  /** One slot is rewritten for the same process. */
  lemma SlotFrame(p: Procs, i: nat, a: Pcb)
    requires i < |p| && SameSlot(p[i], Some(a))
    ensures SameLife(p, p[i := Some(a)])
    ensures p[i].value.files == a.files ==> SameFiles(p, p[i := Some(a)])
    ensures p[i].value.childWait == a.childWait && p[i].value.group == a.group ==> SameWaits(p, p[i := Some(a)])
    ensures p[i].value.threadCount == a.threadCount ==> SameCounts(p, p[i := Some(a)])
  {
  }

  lemma SelfFrame(p: Procs)
    ensures SameLife(p, p) && SameFiles(p, p) && SameWaits(p, p) && SameCounts(p, p)
  {
  }

  lemma SendFrame(k: KernelState, sender: ProcessId, receiver: ProcessId, payload: MessagePayload,
                  readyOk: bool, wakes: ThreadId -> bool, blockOk: bool)
    requires |k.queues| == |k.procs|
    ensures var q := Send(k, sender, receiver, payload, readyOk, wakes, blockOk).0.procs;
            SameLife(k.procs, q) && SameFiles(k.procs, q) && SameWaits(k.procs, q) && SameCounts(k.procs, q)
  {
    hide First, IpcAuthorised, Woken, SameLife, SameFiles, SameWaits, SameCounts;
    SelfFrame(k.procs);
    var i := Locate(k.procs, receiver);
    if i < |k.procs| && k.procs[i].value.state == Blocked {
      SlotFrame(k.procs, i, k.procs[i].value.(state := Ready));
      SlotFrame(k.procs, i, k.procs[i].value.(state := Blocked));
    }
  }

  lemma CountedFrame(procs: Procs, pid: ProcessId, up: bool)
    ensures var q := Counted(procs, pid, up); SameLife(procs, q) && SameFiles(procs, q) && SameWaits(procs, q)
  {
    hide First;
  }

  lemma WaitFrame(k: KernelState, parent: ProcessId, thread: Option<ThreadId>, selector: int,
                  writeOk: bool, noHang: bool, blockOk: bool)
    requires LiveCaller(k, parent)
    ensures var (k2, r) := Wait(k, parent, thread, selector, writeOk, noHang, blockOk);
            !r.Reaped? ==> SameLife(k.procs, k2.procs) && SameFiles(k.procs, k2.procs) && SameCounts(k.procs, k2.procs)
  {
    hide First, Swept, LocateThread, SameLife, SameFiles, SameCounts;
    SelfFrame(k.procs);
    var i := Locate(k.procs, parent);
    if i < |k.procs| {
      var p := k.procs[i].value;
      var waiting := p.(childWait := Some(DecodeSelector(selector, p.group)));
      SlotFrame(k.procs, i, waiting);
      SlotFrame(k.procs, i, waiting.(state := Blocked));
      assert k.procs[i := Some(waiting)][i := Some(waiting.(state := Blocked))]
               == k.procs[i := Some(waiting.(state := Blocked))];
    }
  }

  lemma ParentWokenFrame(k: KernelState, i: nat, readyOk: bool, wakes: ThreadId -> bool)
    requires i < |k.procs| && k.procs[i].Some?
    ensures var q := ParentWoken(k, i, readyOk, wakes).procs;
            SameLife(k.procs, q) && SameFiles(k.procs, q) && SameCounts(k.procs, q)
  {
    hide First, Swept, Woken;
  }

  lemma RegroupFrame(k: KernelState, caller: ProcessId, pid: ProcessId, group: nat, sameSession: bool)
    ensures var q := Regrouped(k, caller, pid, group, sameSession).procs;
            SameLife(k.procs, q) && SameFiles(k.procs, q) && SameCounts(k.procs, q)
  {
    hide First;
  }

  lemma WithFilesFrame(procs: Procs, i: nat, files: Files)
    requires i < |procs| && procs[i].Some?
    ensures var q := WithFiles(procs, i, files); SameLife(procs, q) && SameWaits(procs, q) && SameCounts(procs, q)
  {
  }

  lemma OpenFrame(k: KernelState, pid: ProcessId, closeOnExec: bool)
    ensures var q := Open(k, pid, closeOnExec).0.procs;
            SameLife(k.procs, q) && SameWaits(k.procs, q) && SameCounts(k.procs, q)
  {
    hide First, FreeFrom, CloseOne;
  }

  lemma CloseFrame(k: KernelState, pid: ProcessId, fd: nat)
    ensures var q := Close(k, pid, fd).0.procs; SameLife(k.procs, q) && SameWaits(k.procs, q) && SameCounts(k.procs, q)
  {
    hide First, CloseOne;
  }

  lemma DuplicateFrame(k: KernelState, pid: ProcessId, fd: nat, low: nat, closeOnExec: bool)
    ensures var q := Duplicate(k, pid, fd, low, closeOnExec).0.procs;
            SameLife(k.procs, q) && SameWaits(k.procs, q) && SameCounts(k.procs, q)
  {
    hide First, FreeFrom, CloseOne, Increment;
  }

  lemma DuplicateToFrame(k: KernelState, pid: ProcessId, fd: nat, to: nat, closeOnExec: bool, reject: bool)
    ensures var q := DuplicateTo(k, pid, fd, to, closeOnExec, reject).0.procs;
            SameLife(k.procs, q) && SameWaits(k.procs, q) && SameCounts(k.procs, q)
  {
    hide First, CloseOne, Increment;
  }

  lemma ReimagedFrame(k: KernelState, i: nat, current: Option<ThreadId>, root: nat)
    requires i < |k.procs| && k.procs[i].Some?
    ensures var q := Reimaged(k, i, current, root).0.procs;
            && SameLife(k.procs, q) && SameFiles(k.procs, q) && SameWaits(k.procs, q)
            && q[i].Some? && q[i].value.pid == k.procs[i].value.pid && q[i].value.state == k.procs[i].value.state
  {
    hide First, Swept, KeptThread, LocateThread, Counted, SameLife, SameFiles, SameWaits;
    var p := k.procs[i].value.(root := root, threadCount := 0);
    SlotFrame(k.procs, i, p);
    SlotFrame(k.procs, i, p.(threadCount := 1));
  }

  lemma ExecFrame(k: KernelState, request: Security.ExecRequest, current: Option<ThreadId>, root: nat, mtssOk: bool,
                  readyOk: bool)
    requires LiveCaller(k, request.caller)
    ensures var q := Exec(k, request, current, root, mtssOk, readyOk).0.procs;
            SameLife(k.procs, q) && SameWaits(k.procs, q)
  {
    hide First, Swept, Drop, KeptFiles, ClosedFiles, Reimaged, Security.Apply, Security.DomainOf, Security.ExecAllowed;
    var i := Locate(k.procs, request.caller);
    if i < |k.procs| {
      var files := k.procs[i].value.files;
      var k1 := k.(procs := WithFiles(k.procs, i, KeptFiles(files)), counts := Drop(k.counts, ClosedFiles(files)));
      WithFilesFrame(k.procs, i, KeptFiles(files));
      ReimagedFrame(k1, i, current, root);
    }
  }

  lemma ThreadStepFrame(k: KernelState, pid: ProcessId, id: ThreadId, mtssOk: bool)
    ensures SameLife(k.procs, CloneThread(k, pid, mtssOk).0.procs)
            && SameFiles(k.procs, CloneThread(k, pid, mtssOk).0.procs)
            && SameWaits(k.procs, CloneThread(k, pid, mtssOk).0.procs)
    ensures SameLife(k.procs, RemoveThread(k, id).procs) && SameFiles(k.procs, RemoveThread(k, id).procs)
            && SameWaits(k.procs, RemoveThread(k, id).procs)
  {
    hide First, Counted, LocateThread;
    var k1 := CreateThread(k, pid).0;
    CountedFrame(k.procs, pid, true);
    var t := LocateThread(k1.threads, k.nextThread);
    if t < |k1.threads| {
      CountedFrame(k1.procs, k1.threads[t].value.process, false);
    }
    var u := LocateThread(k.threads, id);
    if u < |k.threads| {
      CountedFrame(k.procs, k.threads[u].value.process, false);
    }
  }

  // ---------------------------------------------------------------------
  // The other tables
  // ---------------------------------------------------------------------

  lemma SendRest(k: KernelState, sender: ProcessId, receiver: ProcessId, payload: MessagePayload,
                 readyOk: bool, wakes: ThreadId -> bool, blockOk: bool)
    requires |k.queues| == |k.procs|
    ensures var k2 := Send(k, sender, receiver, payload, readyOk, wakes, blockOk).0;
            && k2 == k.(procs := k2.procs, threads := k2.threads, queues := k2.queues, sequence := k2.sequence)
            && |k2.procs| == |k2.queues| == |k.procs|
  {
    hide First, IpcAuthorised, Woken;
  }

  lemma ReceiveRest(k: KernelState, pid: ProcessId)
    requires |k.queues| == |k.procs|
    ensures var k2 := Receive(k, pid).0; k2 == k.(queues := k2.queues) && |k2.queues| == |k.queues|
  {
    hide First;
  }

  lemma ReceiveOrBlockFrame(k: KernelState, pid: ProcessId, blockOk: bool)
    requires |k.queues| == |k.procs| && LiveCaller(k, pid)
    ensures var k2 := ReceiveOrBlock(k, pid, blockOk).0;
            && SameLife(k.procs, k2.procs) && SameFiles(k.procs, k2.procs) && SameWaits(k.procs, k2.procs)
            && SameCounts(k.procs, k2.procs)
            && k2 == k.(procs := k2.procs, threads := k2.threads, queues := k2.queues)
            && |k2.queues| == |k2.procs| == |k.procs|
  {
    hide First, Swept, SameLife, SameFiles, SameWaits, SameCounts;
    SelfFrame(k.procs);
    var i := Locate(k.procs, pid);
    if i < |k.procs| {
      SlotFrame(k.procs, i, k.procs[i].value.(state := Blocked));
    }
  }

  lemma ThreadStepRest(k: KernelState, pid: ProcessId, id: ThreadId, mtssOk: bool)
    ensures var k2 := CloneThread(k, pid, mtssOk).0;
            k2 == k.(procs := k2.procs, threads := k2.threads, nextThread := k2.nextThread) && |k2.procs| == |k.procs|
    ensures var k2 := RemoveThread(k, id);
            k2 == k.(procs := k2.procs, threads := k2.threads) && |k2.procs| == |k.procs|
  {
    hide First, LocateThread;
  }

  lemma RegroupRest(k: KernelState, caller: ProcessId, pid: ProcessId, group: nat, sameSession: bool)
    ensures var k2 := Regrouped(k, caller, pid, group, sameSession);
            k2 == k.(procs := k2.procs) && |k2.procs| == |k.procs|
  {
    hide First;
  }

  lemma FileStepRest(k: KernelState, step: Step)
    requires |k.queues| == |k.procs| && TablesOk(k.procs) && FileStep(step)
    ensures var k2 := Next(k, step); k2 == k.(procs := k2.procs, counts := k2.counts)
  {
    hide First, FreeFrom, CloseOne, Increment;
  }

  // ---------------------------------------------------------------------
  // Steps that leave processes, messages and domains where they are
  // ---------------------------------------------------------------------

  predicate FileStep(step: Step) {
    step.OpenStep? || step.CloseStep? || step.DuplicateStep? || step.DuplicateToStep?
  }

  predicate Quiet(step: Step) {
    FileStep(step) || step.CloneThreadStep? || step.TerminateThreadStep? || step.RegroupStep?
  }

  lemma FileStepFrame(k: KernelState, step: Step)
    requires |k.queues| == |k.procs| && TablesOk(k.procs) && FileStep(step)
    ensures var k2 := Next(k, step);
            && k2 == k.(procs := k2.procs, counts := k2.counts) && |k2.procs| == |k.procs|
            && SameLife(k.procs, k2.procs) && SameWaits(k.procs, k2.procs) && SameCounts(k.procs, k2.procs)
  {
    FileStepRest(k, step);
    hide SameLife, SameWaits, SameCounts, Open, Close, Duplicate, DuplicateTo;
    match step
    case OpenStep(pid, closeOnExec) => OpenFrame(k, pid, closeOnExec);
    case CloseStep(pid, fd) => CloseFrame(k, pid, fd);
    case DuplicateStep(pid, fd, low, closeOnExec) => DuplicateFrame(k, pid, fd, low, closeOnExec);
    case DuplicateToStep(pid, fd, to, closeOnExec, reject) => DuplicateToFrame(k, pid, fd, to, closeOnExec, reject);
    LengthKept(k.procs, Next(k, step).procs);
  }

  lemma LengthKept(p: Procs, q: Procs)
    requires SameLife(p, q)
    ensures |p| == |q|
  {
  }

  lemma QuietFrame(k: KernelState, step: Step)
    requires |k.queues| == |k.procs| && TablesOk(k.procs) && Quiet(step)
    ensures var k2 := Next(k, step);
            && k2 == k.(procs := k2.procs, threads := k2.threads, counts := k2.counts, nextThread := k2.nextThread)
            && |k2.procs| == |k.procs| && SameLife(k.procs, k2.procs)
            && (!step.RegroupStep? ==> SameWaits(k.procs, k2.procs))
  {
    hide SameLife, SameWaits, SameFiles, SameCounts, CloneThread, RemoveThread, Regrouped;
    if FileStep(step) {
      hide Next;
      FileStepFrame(k, step);
    } else {
      match step
      case CloneThreadStep(pid, mtssOk) =>
        ThreadStepFrame(k, pid, 0, mtssOk);
        ThreadStepRest(k, pid, 0, mtssOk);
      case TerminateThreadStep(id) =>
        ThreadStepFrame(k, 0, id, true);
        ThreadStepRest(k, 0, id, true);
      case RegroupStep(caller, pid, group, sameSession) =>
        RegroupFrame(k, caller, pid, group, sameSession);
        RegroupRest(k, caller, pid, group, sameSession);
    }
  }
}
