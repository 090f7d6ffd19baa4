/** The order of messages and of thread ids over runs. */
module KernelOrder {
  import opened Prelude
  import opened Tables
  import opened Labels
  import Security
  import opened Ipc
  import opened Descriptors
  import opened KernelSteps
  import opened KernelIds
  import opened KernelFrame
  import opened KernelCreate
  import opened KernelFiles
  import opened KernelFileSteps
  import opened KernelThreads
  import opened KernelThreadSteps
  import opened KernelIpc
  import opened KernelRuns
  import opened KernelTheorems

  // ---------------------------------------------------------------------
  // Queues
  // ---------------------------------------------------------------------

  /** A queue stays, is emptied, loses its oldest message, or gains one numbered `sequence`. */
  ghost predicate QueueMove(a: seq<Message>, b: seq<Message>, sequence: nat) {
    || b == a
    || b == []
    || (a != [] && b == a[1..])
    || (|b| == |a| + 1 && b[..|a|] == a && b[|a|].sequence == sequence)
  }

  ghost predicate QueueMoves(k: KernelState, k2: KernelState) {
    && |k2.queues| == |k.queues|
    && (forall i :: 0 <= i < |k.queues| ==> QueueMove(k.queues[i], k2.queues[i], k.sequence))
    && (|| k2.sequence == NextSequence(k.sequence)
        || (k2.sequence == k.sequence && forall i :: 0 <= i < |k.queues| ==> |k2.queues[i]| <= |k.queues[i]|))
  }

  lemma SameQueues(k: KernelState, k2: KernelState)
    requires k2.queues == k.queues && k2.sequence == k.sequence
    ensures QueueMoves(k, k2)
  {
  }

  lemma SendMoves(k: KernelState, sender: ProcessId, receiver: ProcessId, payload: MessagePayload,
                  readyOk: bool, wakes: ThreadId -> bool, blockOk: bool)
    requires |k.queues| == |k.procs|
    ensures QueueMoves(k, Send(k, sender, receiver, payload, readyOk, wakes, blockOk).0)
  {
    hide Send, First, IpcAuthorised;
    SendQueues(k, sender, receiver, payload, readyOk, wakes, blockOk);
    var i := Locate(k.procs, receiver);
    if i < |k.procs| {
      var q := k.queues[i] + [Message(sender, receiver, k.sequence, payload)];
      assert q[..|k.queues[i]|] == k.queues[i];
    }
  }

  lemma ReceiveMoves(k: KernelState, pid: ProcessId, blockOk: bool)
    requires |k.queues| == |k.procs|
    ensures QueueMoves(k, Receive(k, pid).0) && QueueMoves(k, ReceiveOrBlock(k, pid, blockOk).0)
  {
    hide First, Swept;
  }

  lemma ExitMoves(k: KernelState, pid: ProcessId, status: int, readyOk: bool, wakes: ThreadId -> bool)
    requires |k.queues| == |k.procs|
    ensures QueueMoves(k, Exit(k, pid, status, readyOk, wakes))
  {
    hide First, ParentWoken, Drop, Swept, RevokeTask;
    var i := Locate(k.procs, pid);
    if i < |k.procs| && k.procs[i].value.state != Zombie {
      ParentWokenRest(Buried(k, i, status), i, readyOk, wakes);
    }
  }

  lemma CreateMoves(k: KernelState, prepared: Prepared, creds: Credentials, mtssOk: bool)
    requires FreeSlot(k) < |k.procs|
    requires ProcIds(k.procs, k.nextPid) && ThreadIds(k.threads, k.nextThread) && Security.Below(k.security, k.nextPid)
    requires prepared.pcb.Some? ==> prepared.pcb.value.pid == k.nextPid && prepared.pcb.value.threadCount == 0
    ensures QueueMoves(k, CreateFrom(k, prepared, creds, mtssOk).0)
  {
    CreateFromOutcome(k, prepared, creds, mtssOk);
    hide CreateFrom, First, Joined, RegisterOk, Drop, ProcIds, ThreadIds, Security.Below, QueueMoves;
    SameQueues(k, CreateFrom(k, prepared, creds, mtssOk).0);
  }

  lemma SpawnMoves(k: KernelState, parent: Option<ProcessId>, creds: Credentials, cloned: Space, mtssOk: bool)
    requires TablesOk(k.procs) && ProcIds(k.procs, k.nextPid) && ThreadIds(k.threads, k.nextThread)
    requires Security.Below(k.security, k.nextPid)
    ensures QueueMoves(k, Spawn(k, parent, creds, cloned, mtssOk).0)
  {
    hide Spawn, Prepare, CreateFrom, First, MaySpawn, TablesOk, ProcIds, ThreadIds, Security.Below, QueueMoves;
    SameQueues(k, k);
    SpawnIs(k, parent, creds, cloned, mtssOk);
    if Spawn(k, parent, creds, cloned, mtssOk) != (k, None) {
      CreateMoves(k, Prepare(k, parent, cloned), creds, mtssOk);
    }
  }

  lemma CloneProcessMoves(k: KernelState, caller: ProcessId, creds: Credentials, cloned: Space, mtssOk: bool)
    requires TablesOk(k.procs) && ProcIds(k.procs, k.nextPid) && ThreadIds(k.threads, k.nextThread)
    requires Security.Below(k.security, k.nextPid)
    ensures QueueMoves(k, CloneProcess(k, caller, creds, cloned, mtssOk).0)
  {
    hide CloneProcess, PrepareShell, CreateFrom, First, MaySpawn, TablesOk, ProcIds, ThreadIds, Security.Below,
      QueueMoves;
    SameQueues(k, k);
    CloneProcessIs(k, caller, creds, cloned, mtssOk);
    if CloneProcess(k, caller, creds, cloned, mtssOk) != (k, None) {
      CreateMoves(k, PrepareShell(k, caller, cloned), creds, mtssOk);
    }
  }

  lemma RollbackMoves(k: KernelState, k1: KernelState, pid: ProcessId)
    requires QueueMoves(k, k1)
    ensures QueueMoves(k, RollbackShell(k1, pid))
  {
    hide First, Drop, RevokeTask;
  }

  lemma StepMoves(k: KernelState, step: Step)
    requires Shaped(k) && ProcIds(k.procs, k.nextPid) && ThreadIds(k.threads, k.nextThread)
             && Security.Below(k.security, k.nextPid)
    ensures QueueMoves(k, Next(k, step))
  {
    hide QueueMoves, Locate, ThreadIds, ProcIds, TablesOk, Security.Below, Send, Receive, ReceiveOrBlock, Exit, Wait,
      Open, Close, Duplicate, DuplicateTo, Spawn, CloneThread, CloneProcess, Exec, RemoveThread, Regrouped,
      RollbackShell, Security.Apply, Security.DomainOf;
    if Quiet(step) {
      hide Next;
      QuietFrame(k, step);
      SameQueues(k, Next(k, step));
      return;
    }
    match step
    case SendStep(s, r, payload, readyOk, wakes, blockOk) => SendMoves(k, s, r, payload, readyOk, wakes, blockOk);
    case ReceiveStep(pid) => ReceiveMoves(k, pid, true);
    case ReceiveOrBlockStep(pid, blockOk) => ReceiveMoves(k, pid, blockOk);
    case ExitStep(pid, status, readyOk, wakes) => ExitMoves(k, pid, status, readyOk, wakes);
    case WaitStep(pid, thread, selector, writeOk, noHang, blockOk) =>
      WaitRest(k, pid, thread, selector, writeOk, noHang, blockOk);
      SameQueues(k, Next(k, step));
    case SpawnStep(parent, creds, cloned, mtssOk) => SpawnMoves(k, parent, creds, cloned, mtssOk);
    case SpawnLoadedStep(parent, creds, cloned, mtssOk, loadOk) =>
      SpawnMoves(k, Some(parent), creds, cloned, mtssOk);
      var (k1, child) := Spawn(k, Some(parent), creds, cloned, mtssOk);
      if child.Some? {
        RollbackMoves(k, k1, child.value);
      }
    case CloneProcessStep(pid, creds, cloned, mtssOk) => CloneProcessMoves(k, pid, creds, cloned, mtssOk);
    case ExecStep(request, thread, root, mtssOk, readyOk) =>
      ExecRest(k, request, thread, root, mtssOk, readyOk);
      SameQueues(k, Next(k, step));
    case SecurityStep(op) => SameQueues(k, Next(k, step));
  }

  // ---------------------------------------------------------------------
  // Order of delivery
  // ---------------------------------------------------------------------

  ghost predicate Increasing(q: seq<Message>, bound: nat) {
    && (forall a, b :: 0 <= a < b < |q| ==> q[a].sequence < q[b].sequence)
    && (forall a :: 0 <= a < |q| ==> q[a].sequence < bound)
  }

  /** Every queue is in the order its messages were numbered, below the next number. */
  ghost predicate Ordered(k: KernelState) {
    forall i :: 0 <= i < |k.queues| ==> Increasing(k.queues[i], k.sequence)
  }

  lemma QueueMoveKeepsOrder(a: seq<Message>, b: seq<Message>, sequence: nat, after: nat)
    requires Increasing(a, sequence) && QueueMove(a, b, sequence) && after >= sequence
             && (|b| > |a| ==> after > sequence)
    ensures Increasing(b, after)
  {
    if |b| == |a| + 1 {
      assert forall i :: 0 <= i < |a| ==> b[i] == b[..|a|][i] == a[i];
    }
  }

  /** Order is kept as long as the sequence counter does not wrap. */
  lemma MovesKeepOrder(k: KernelState, k2: KernelState)
    requires Ordered(k) && QueueMoves(k, k2) && k2.sequence >= k.sequence
    ensures Ordered(k2)
  {
    hide QueueMove, Increasing;
    forall i | 0 <= i < |k2.queues|
      ensures Increasing(k2.queues[i], k2.sequence)
    {
      assert QueueMove(k.queues[i], k2.queues[i], k.sequence) && Increasing(k.queues[i], k.sequence);
      QueueMoveKeepsOrder(k.queues[i], k2.queues[i], k.sequence, k2.sequence);
    }
  }

  /** The message a step hands to its caller. */
  function Delivered(k: KernelState, step: Step): Option<Message>
    requires |k.queues| == |k.procs|
  {
    if step.ReceiveStep? then Receive(k, step.caller).1
    else if step.ReceiveOrBlockStep? then ReceiveOrBlock(k, step.caller, step.blockOk).1
    else None
  }

  /** Whatever process `pid` may still receive is numbered above `floor`. */
  ghost predicate Above(k: KernelState, pid: ProcessId, floor: nat) {
    && floor < k.sequence && pid < k.nextPid && |k.queues| == |k.procs|
    && forall i :: 0 <= i < |k.procs| && k.procs[i].Some? && k.procs[i].value.pid == pid ==>
         QueueAbove(k.queues[i], floor)
  }

  ghost predicate QueueAbove(q: seq<Message>, floor: nat) {
    forall m :: 0 <= m < |q| ==> q[m].sequence > floor
  }

  /** A delivered message is the caller's own, and everything it may still receive comes later. */
  lemma DeliveryRaisesFloor(k: KernelState, step: Step)
    requires IpcInvariant(k) && Ordered(k) && TablesOk(k.procs)
    ensures |k.queues| == |k.procs|
    ensures Delivered(k, step).Some? ==>
              && Delivered(k, step).value.receiver == step.caller
              && Above(Next(k, step), step.caller, Delivered(k, step).value.sequence)
  {
    IpcShape(k);
    if Delivered(k, step).Some? {
      hide First, DomainsLive, Security.DistinctDomains;
      var pid := step.caller;
      var i := Locate(k.procs, pid);
      assert QueueFits(k.procs[i], k.queues[i]) && Increasing(k.queues[i], k.sequence);
      assert Next(k, step) == k.(queues := k.queues[i := k.queues[i][1..]]);
      forall j | 0 <= j < |k.procs| && k.procs[j].Some? && k.procs[j].value.pid == pid
        ensures j == i
      {
        LocateIs(k.procs, k.nextPid, j);
      }
    }
  }

  /** Nothing a step does lets a process receive something older. */
  lemma FloorIsKept(k: KernelState, k2: KernelState, reaped: Option<ProcessId>, pid: ProcessId, floor: nat)
    requires Above(k, pid, floor) && QueueMoves(k, k2) && Progress(k, k2, reaped) && k2.sequence >= k.sequence
    ensures Above(k2, pid, floor)
  {
    forall i | 0 <= i < |k2.procs| && k2.procs[i].Some? && k2.procs[i].value.pid == pid
      ensures QueueAbove(k2.queues[i], floor)
    {
      assert SlotProgress(k.procs[i], k2.procs[i], k.nextPid, reaped);
      assert QueueAbove(k.queues[i], floor);
      assert QueueMove(k.queues[i], k2.queues[i], k.sequence);
      var a, b := k.queues[i], k2.queues[i];
      if |b| == |a| + 1 {
        assert forall m :: 0 <= m < |a| ==> b[m] == b[..|a|][m] == a[m];
      }
    }
  }

  /** The sequence counter does not wrap during the run. */
  ghost predicate NoSequenceWrap(states: seq<KernelState>) {
    forall i :: 0 <= i < |states| - 1 ==> states[i].sequence <= states[i + 1].sequence
  }

  lemma RunMoves(states: seq<KernelState>, steps: seq<Step>, claim: Claim, n: nat)
    requires IsRun(states, steps) && Invariant(states[0], claim) && n < |steps|
    ensures QueueMoves(states[n], states[n + 1])
  {
    hide Invariant, QueueMoves, Next;
    EveryStateIsSound(states, steps, claim, n);
    InvariantShape(states[n], Unless(claim, !NoLeak(states, steps, n)));
    StepMoves(states[n], steps[n]);
  }

  lemma {:induction false} EveryStateIsOrdered(states: seq<KernelState>, steps: seq<Step>, claim: Claim, n: nat)
    requires IsRun(states, steps) && Invariant(states[0], claim) && Ordered(states[0]) && NoSequenceWrap(states)
             && n <= |steps|
    ensures Ordered(states[n])
    decreases n
  {
    hide Invariant, QueueMoves, Next, Ordered;
    if n > 0 {
      EveryStateIsOrdered(states, steps, claim, n - 1);
      RunMoves(states, steps, claim, n - 1);
      assert states[n - 1].sequence <= states[n - 1 + 1].sequence;
      MovesKeepOrder(states[n - 1], states[n]);
    }
  }

  lemma {:induction false} FloorLasts(states: seq<KernelState>, steps: seq<Step>, claim: Claim, pid: ProcessId,
                                      floor: nat, i: nat, j: nat)
    requires IsRun(states, steps) && Invariant(states[0], claim) && NoSequenceWrap(states) && i <= j <= |steps|
    requires Above(states[i], pid, floor)
    ensures Above(states[j], pid, floor)
    decreases j - i
  {
    hide Invariant, QueueMoves, Next, Above, Progress, ReapedBy;
    if i < j {
      RunMoves(states, steps, claim, i);
      RunProgress(states, steps, claim, i);
      assert states[i].sequence <= states[i + 1].sequence;
      FloorIsKept(states[i], states[i + 1], ReapedBy(states[i], steps[i]), pid, floor);
      FloorLasts(states, steps, claim, pid, floor, i + 1, j);
    }
  }

  /** Each receiver sees strictly increasing sequence numbers. */
  lemma DeliveryIsInOrder(states: seq<KernelState>, steps: seq<Step>, claim: Claim, i: nat, j: nat)
    requires IsRun(states, steps) && Invariant(states[0], claim) && Ordered(states[0]) && NoSequenceWrap(states)
    requires i < j < |steps| && Delivered(states[i], steps[i]).Some? && Delivered(states[j], steps[j]).Some?
    requires steps[i].caller == steps[j].caller
    ensures Delivered(states[i], steps[i]).value.sequence < Delivered(states[j], steps[j]).value.sequence
  {
    var pid, floor := steps[i].caller, Delivered(states[i], steps[i]).value.sequence;
    assert states[i + 1] == Next(states[i], steps[i]);
    EveryStateIsSound(states, steps, claim, i);
    EveryStateIsOrdered(states, steps, claim, i);
    SoundIpc(states[i], Unless(claim, !NoLeak(states, steps, i)));
    hide Next, Invariant, IpcInvariant, Ordered;
    DeliveryRaisesFloor(states[i], steps[i]);
    FloorLasts(states, steps, claim, pid, floor, i + 1, j);
    DeliveredIsQueued(states[j], steps[j]);
  }

  lemma SoundIpc(k: KernelState, claim: Claim)
    requires Invariant(k, claim)
    ensures IpcInvariant(k) && TablesOk(k.procs)
  {
  }

  lemma DeliveredIsQueued(k: KernelState, step: Step)
    requires |k.queues| == |k.procs| && Delivered(k, step).Some?
    ensures var i := Locate(k.procs, step.caller);
            && i < |k.procs| && k.procs[i].value.pid == step.caller
            && |k.queues[i]| > 0 && k.queues[i][0] == Delivered(k, step).value
  {
    hide First, Swept;
  }

  // ---------------------------------------------------------------------
  // The start
  // ---------------------------------------------------------------------

  /** A new kernel satisfies the invariant, with exact counts, and its queues are in order. */
  lemma InitialIsSound(maxProcs: nat, depth: nat, maxFiles: nat)
    requires maxProcs <= MAX_PROCESSES
    ensures Invariant(InitialState(maxProcs, depth, maxFiles), Exact)
            && Ordered(InitialState(maxProcs, depth, maxFiles))
  {
    hide RefsIn, Sum, Crew, First;
    var k := InitialState(maxProcs, depth, maxFiles);
    forall d | 0 <= d
      ensures Refs(k.procs, [], d) == 0
    {
      SumZero(k.procs, HeldBy(d));
      RefsInNone(d);
    }
    assert Balanced(k.procs, [], k.counts, Exact);
    assert FilesInvariant(k, Exact);
    assert ThreadInvariant(k);
    forall pid
      ensures Security.DomainOf(k.security.domains, pid).None?
    {
      FirstIs(k.security.domains, Security.DomainFor(pid), |k.security.domains|);
    }
    assert forall i :: 0 <= i < |k.procs| ==> QueueFits(k.procs[i], k.queues[i]);
  }

  // ---------------------------------------------------------------------
  // Thread ids
  // ---------------------------------------------------------------------

  /** Every thread was there before, in the same slot, or has an id not given out before. */
  ghost predicate Hires(k: KernelState, k2: KernelState) {
    && |k2.threads| == |k.threads| && k.nextThread <= k2.nextThread
    && forall i :: 0 <= i < |k2.threads| && k2.threads[i].Some? ==>
         || (k.threads[i].Some? && k.threads[i].value.id == k2.threads[i].value.id)
         || k2.threads[i].value.id >= k.nextThread
  }

  lemma SameCrewHires(k: KernelState, k2: KernelState)
    requires SameCrew(k.threads, k2.threads) && k.nextThread <= k2.nextThread
    ensures Hires(k, k2)
  {
  }

  lemma ExitHires(k: KernelState, pid: ProcessId, status: int, readyOk: bool, wakes: ThreadId -> bool)
    requires |k.queues| == |k.procs|
    ensures Hires(k, Exit(k, pid, status, readyOk, wakes))
  {
    hide First, ParentWoken, Drop, Swept, RevokeTask;
    var i := Locate(k.procs, pid);
    if i < |k.procs| && k.procs[i].value.state != Zombie {
      var b := Buried(k, i, status);
      ParentWokenRest(b, i, readyOk, wakes);
      ParentWokenCrew(b, i, readyOk, wakes);
    }
  }

  lemma SpawnHires(k: KernelState, parent: Option<ProcessId>, creds: Credentials, cloned: Space, mtssOk: bool)
    requires TablesOk(k.procs) && ProcIds(k.procs, k.nextPid) && ThreadIds(k.threads, k.nextThread)
    requires Security.Below(k.security, k.nextPid)
    ensures Hires(k, Spawn(k, parent, creds, cloned, mtssOk).0)
  {
    hide Spawn, Prepare, CreateFrom, First, MaySpawn, TablesOk, ProcIds, ThreadIds, Security.Below, Hires, SameCrew;
    SelfCrew(k.threads);
    SameCrewHires(k, k);
    SpawnIs(k, parent, creds, cloned, mtssOk);
    if Spawn(k, parent, creds, cloned, mtssOk) != (k, None) {
      CreateHires(k, Prepare(k, parent, cloned), creds, mtssOk);
    }
  }

  lemma CloneProcessHires(k: KernelState, caller: ProcessId, creds: Credentials, cloned: Space, mtssOk: bool)
    requires TablesOk(k.procs) && ProcIds(k.procs, k.nextPid) && ThreadIds(k.threads, k.nextThread)
    requires Security.Below(k.security, k.nextPid)
    ensures Hires(k, CloneProcess(k, caller, creds, cloned, mtssOk).0)
  {
    hide CloneProcess, PrepareShell, CreateFrom, First, MaySpawn, TablesOk, ProcIds, ThreadIds, Security.Below, Hires,
      SameCrew;
    SelfCrew(k.threads);
    SameCrewHires(k, k);
    CloneProcessIs(k, caller, creds, cloned, mtssOk);
    if CloneProcess(k, caller, creds, cloned, mtssOk) != (k, None) {
      CreateHires(k, PrepareShell(k, caller, cloned), creds, mtssOk);
    }
  }

  lemma CreateHires(k: KernelState, prepared: Prepared, creds: Credentials, mtssOk: bool)
    requires FreeSlot(k) < |k.procs|
    requires ProcIds(k.procs, k.nextPid) && ThreadIds(k.threads, k.nextThread) && Security.Below(k.security, k.nextPid)
    requires prepared.pcb.Some? ==> prepared.pcb.value.pid == k.nextPid && prepared.pcb.value.threadCount == 0
    ensures Hires(k, CreateFrom(k, prepared, creds, mtssOk).0)
  {
    CreateFromOutcome(k, prepared, creds, mtssOk);
    hide CreateFrom, First, Joined, RegisterOk, Drop, ProcIds, ThreadIds, Security.Below;
    if CreateFrom(k, prepared, creds, mtssOk).1.None? {
      assert CreateFrom(k, prepared, creds, mtssOk).0.threads == k.threads;
    }
  }

  lemma ThreadStepHires(k: KernelState, pid: ProcessId, id: ThreadId, mtssOk: bool)
    ensures Hires(k, CloneThread(k, pid, mtssOk).0) && Hires(k, RemoveThread(k, id))
  {
    hide First, Counted, LocateThread;
  }

  lemma ReimagedHires(k: KernelState, i: nat, current: Option<ThreadId>, root: nat)
    requires i < |k.procs| && k.procs[i].Some?
    ensures Hires(k, Reimaged(k, i, current, root).0)
  {
    hide First, Swept, KeptThread, LocateThread, Counted;
  }

  lemma ExecHires(k: KernelState, request: Security.ExecRequest, current: Option<ThreadId>, root: nat, mtssOk: bool,
                  readyOk: bool)
    ensures Hires(k, Exec(k, request, current, root, mtssOk, readyOk).0)
  {
    hide First, Swept, Drop, KeptFiles, ClosedFiles, Reimaged, Security.Apply, Security.DomainOf, Security.ExecAllowed;
    var i := Locate(k.procs, request.caller);
    if i < |k.procs| {
      var files := k.procs[i].value.files;
      var k1 := k.(procs := WithFiles(k.procs, i, KeptFiles(files)), counts := Drop(k.counts, ClosedFiles(files)));
      ReimagedHires(k1, i, current, root);
    }
  }

  lemma StepHires(k: KernelState, step: Step)
    requires Shaped(k) && ProcIds(k.procs, k.nextPid) && ThreadIds(k.threads, k.nextThread)
             && Security.Below(k.security, k.nextPid)
    ensures Hires(k, Next(k, step))
  {
    hide Hires, SameCrew, Locate, ThreadIds, ProcIds, TablesOk, Security.Below, Send, Receive, ReceiveOrBlock, Exit,
      Wait, Open, Close, Duplicate, DuplicateTo, Spawn, CloneThread, CloneProcess, Exec, RemoveThread, Regrouped,
      RollbackShell, Security.Apply, Security.DomainOf;
    SelfCrew(k.threads);
    if FileStep(step) {
      hide Next;
      FileStepRest(k, step);
      SameCrewHires(k, Next(k, step));
      return;
    }
    match step
    case SendStep(s, r, payload, readyOk, wakes, blockOk) =>
      SendCrew(k, s, r, payload, readyOk, wakes, blockOk);
      SendRest(k, s, r, payload, readyOk, wakes, blockOk);
      SameCrewHires(k, Next(k, step));
    case ReceiveStep(pid) =>
      ReceiveRest(k, pid);
      SameCrewHires(k, Next(k, step));
    case ReceiveOrBlockStep(pid, blockOk) =>
      ReceiveOrBlockCrew(k, pid, blockOk);
      ReceiveOrBlockRest(k, pid, blockOk);
      SameCrewHires(k, Next(k, step));
    case ExitStep(pid, status, readyOk, wakes) => ExitHires(k, pid, status, readyOk, wakes);
    case WaitStep(pid, thread, selector, writeOk, noHang, blockOk) =>
      WaitCrew(k, pid, thread, selector, writeOk, noHang, blockOk);
      WaitRest(k, pid, thread, selector, writeOk, noHang, blockOk);
      SameCrewHires(k, Next(k, step));
    case SpawnStep(parent, creds, cloned, mtssOk) => SpawnHires(k, parent, creds, cloned, mtssOk);
    case SpawnLoadedStep(parent, creds, cloned, mtssOk, loadOk) =>
      SpawnHires(k, Some(parent), creds, cloned, mtssOk);
      var (k1, child) := Spawn(k, Some(parent), creds, cloned, mtssOk);
      if child.Some? {
        RollbackHires(k, k1, child.value);
      }
    case CloneThreadStep(pid, mtssOk) => ThreadStepHires(k, pid, 0, mtssOk);
    case CloneProcessStep(pid, creds, cloned, mtssOk) => CloneProcessHires(k, pid, creds, cloned, mtssOk);
    case ExecStep(request, thread, root, mtssOk, readyOk) => ExecHires(k, request, thread, root, mtssOk, readyOk);
    case TerminateThreadStep(id) => ThreadStepHires(k, 0, id, true);
    case SecurityStep(op) => SameCrewHires(k, Next(k, step));
    case RegroupStep(caller, pid, group, sameSession) =>
      RegroupRest(k, caller, pid, group, sameSession);
      SameCrewHires(k, Next(k, step));
  }

  lemma RollbackHires(k: KernelState, k1: KernelState, pid: ProcessId)
    requires Hires(k, k1)
    ensures Hires(k, RollbackShell(k1, pid))
  {
    hide First, Drop, RevokeTask;
  }

  /** `id` was given out and names no thread. */
  ghost predicate ThreadGone(k: KernelState, id: ThreadId) {
    id < k.nextThread && forall i :: 0 <= i < |k.threads| && k.threads[i].Some? ==> k.threads[i].value.id != id
  }

  /** A thread id that has left the table never comes back. */
  lemma {:induction false} ThreadStaysGone(states: seq<KernelState>, steps: seq<Step>, claim: Claim, id: ThreadId,
                                           i: nat, j: nat)
    requires IsRun(states, steps) && Invariant(states[0], claim) && i <= j <= |steps| && ThreadGone(states[i], id)
    ensures ThreadGone(states[j], id)
    decreases j - i
  {
    hide Invariant, Next;
    if i < j {
      EveryStateIsSound(states, steps, claim, i);
      InvariantShape(states[i], Unless(claim, !NoLeak(states, steps, i)));
      StepHires(states[i], steps[i]);
      assert states[i + 1] == Next(states[i], steps[i]);
      ThreadStaysGone(states, steps, claim, id, i + 1, j);
    }
  }
}
