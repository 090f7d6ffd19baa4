/** Threads and the thread counts of live processes. */
module KernelThreads {
  import opened Prelude
  import opened Tables
  import opened Ipc
  import opened Descriptors
  import opened KernelSteps
  import opened KernelIds
  import opened KernelFrame

  /** The same threads of the same processes, whatever they are doing. */
  ghost predicate SameCrew(t: Threads, u: Threads) {
    && |t| == |u|
    && forall i :: 0 <= i < |t| ==> t[i].Some? == u[i].Some?
                                    && (t[i].Some? ==>
                                        t[i].value.id == u[i].value.id && t[i].value.process == u[i].value.process)
  }

  function InProcess(pid: ProcessId): Option<Tcb> -> nat {
    (slot: Option<Tcb>) => if slot.Some? && slot.value.process == pid then 1 else 0
  }

  /** How many thread-table entries name a process. */
  function Crew(threads: Threads, pid: ProcessId): (n: nat)
    ensures n <= |threads|
  {
    hide Sum;
    SumBound(threads, InProcess(pid), 1);
    Sum(threads, InProcess(pid))
  }

  /** Every thread belongs to a process id that has been given out. */
  ghost predicate CrewBelow(threads: Threads, nextPid: nat) {
    forall i :: 0 <= i < |threads| && threads[i].Some? ==> threads[i].value.process < nextPid
  }

  /** For every live process the count equals the entries that name it. */
  ghost predicate ThreadsCounted(procs: Procs, threads: Threads) {
    forall i :: 0 <= i < |procs| && LiveAt(procs, i) ==> procs[i].value.threadCount == Crew(threads, procs[i].value.pid)
  }

  ghost predicate ThreadInvariant(k: KernelState) {
    && |k.threads| == MAX_THREADS && ThreadIds(k.threads, k.nextThread) && CrewBelow(k.threads, k.nextPid)
    && ProcIds(k.procs, k.nextPid) && ThreadsCounted(k.procs, k.threads)
  }

  // ---------------------------------------------------------------------
  // Crews
  // ---------------------------------------------------------------------

  lemma SameCrewCount(t: Threads, u: Threads, pid: ProcessId)
    requires SameCrew(t, u)
    ensures Crew(t, pid) == Crew(u, pid)
  {
    hide Sum;
    SumPointwise(t, u, InProcess(pid));
  }

  lemma CrewUpdate(threads: Threads, i: nat, slot: Option<Tcb>, pid: ProcessId)
    requires i < |threads|
    ensures Crew(threads[i := slot], pid) + InProcess(pid)(threads[i]) == Crew(threads, pid) + InProcess(pid)(slot)
  {
    hide Sum;
    SumUpdate(threads, InProcess(pid), i, slot);
  }

  lemma CrewNone(threads: Threads, pid: ProcessId)
    requires forall i :: 0 <= i < |threads| && threads[i].Some? ==> threads[i].value.process != pid
    ensures Crew(threads, pid) == 0
  {
    hide Sum;
    SumZero(threads, InProcess(pid));
  }

  /** Tables in which the same slots belong to a process. */
  lemma CrewPointwise(t: Threads, u: Threads, pid: ProcessId)
    requires |t| == |u| && forall i :: 0 <= i < |t| ==> InProcess(pid)(t[i]) == InProcess(pid)(u[i])
    ensures Crew(t, pid) == Crew(u, pid)
  {
    hide Sum;
    SumPointwise(t, u, InProcess(pid));
  }

  lemma SameCrewTransitive(t: Threads, u: Threads, v: Threads)
    requires SameCrew(t, u) && SameCrew(u, v)
    ensures SameCrew(t, v)
  {
  }

  /** Waking, blocking and clearing waits keep the crew. */
  lemma WokenCrew(threads: Threads, pid: ProcessId, wakes: ThreadId -> bool)
    ensures SameCrew(threads, Woken(threads, pid, wakes).0)
  {
    hide First, Swept;
  }

  /**
   * Waking a process is all or nothing: on success no thread of it is left
   * blocked, and a failure leaves the table as it was exactly when no thread
   * before the one that stuck was ready already.
   */
  lemma WakingIsAllOrNothing(threads: Threads, pid: ProcessId, wakes: ThreadId -> bool)
    ensures var (after, ok) := Woken(threads, pid, wakes);
            && (ok ==> forall i :: 0 <= i < |after| ==> !BlockedThreadOf(pid)(after[i]))
            && (!ok ==> (after == threads <==>
                           var stuck := First(threads, StuckThreadOf(pid, wakes));
                           forall i :: 0 <= i < stuck && ThreadOf(pid)(threads[i]) ==>
                             !threads[i].value.state.ThreadReady?))
  {
    hide First, Swept;
    var (after, ok) := Woken(threads, pid, wakes);
    var stuck := First(threads, StuckThreadOf(pid, wakes));
    if !ok {
      assert forall i :: 0 <= i < |threads| ==>
          after[i] == if i < stuck && IdleThreadOf(pid)(threads[i]) then BlockedThread(threads[i]) else threads[i];
      assert (forall i :: 0 <= i < |threads| ==> after[i] == threads[i]) ==> after == threads;
    }
  }

  lemma SweptCrew(threads: Threads, pid: ProcessId)
    ensures SameCrew(threads, Swept(threads, ThreadOf(pid), BlockedThread))
    ensures SameCrew(threads, Swept(threads, ThreadOf(pid), UnwaitingThread))
  {
    hide Swept;
  }

  lemma SameCrewIds(t: Threads, u: Threads, nextThread: nat, nextPid: nat)
    requires SameCrew(t, u) && ThreadIds(t, nextThread) && CrewBelow(t, nextPid)
    ensures ThreadIds(u, nextThread) && CrewBelow(u, nextPid)
  {
  }

  /** Steps that neither add nor remove a process or a thread. */
  lemma SameCrewKeeps(k: KernelState, k2: KernelState)
    requires ThreadInvariant(k) && SameLife(k.procs, k2.procs) && SameCounts(k.procs, k2.procs)
             && SameCrew(k.threads, k2.threads)
    requires k2.nextPid == k.nextPid && k2.nextThread == k.nextThread
    ensures ThreadInvariant(k2)
  {
    hide ThreadIds, Crew;
    SameIsNoneNew(k.procs, k2.procs);
    NoneNewKeepsIds(k.procs, k2.procs, k.nextPid);
    SameCrewIds(k.threads, k2.threads, k.nextThread, k.nextPid);
    forall i | 0 <= i < |k2.procs| && LiveAt(k2.procs, i)
      ensures k2.procs[i].value.threadCount == Crew(k2.threads, k2.procs[i].value.pid)
    {
      SameCrewCount(k.threads, k2.threads, k2.procs[i].value.pid);
      assert LiveAt(k.procs, i);
    }
  }

  lemma SendCrew(k: KernelState, sender: ProcessId, receiver: ProcessId, payload: MessagePayload,
                 readyOk: bool, wakes: ThreadId -> bool, blockOk: bool)
    requires |k.queues| == |k.procs|
    ensures SameCrew(k.threads, Send(k, sender, receiver, payload, readyOk, wakes, blockOk).0.threads)
  {
    hide First, IpcAuthorised, Woken;
    WokenCrew(k.threads, receiver, wakes);
  }

  lemma ReceiveOrBlockCrew(k: KernelState, pid: ProcessId, blockOk: bool)
    requires |k.queues| == |k.procs|
    ensures SameCrew(k.threads, ReceiveOrBlock(k, pid, blockOk).0.threads)
  {
    hide First, Swept;
    SweptCrew(k.threads, pid);
  }

  lemma WaitCrew(k: KernelState, parent: ProcessId, thread: Option<ThreadId>, selector: int,
                 writeOk: bool, noHang: bool, blockOk: bool)
    ensures SameCrew(k.threads, Wait(k, parent, thread, selector, writeOk, noHang, blockOk).0.threads)
  {
    hide First, Swept, SameCrew, RevokeTask;
    var t := if thread.Some? then LocateThread(k.threads, thread.value) else |k.threads|;
    var k2 := Wait(k, parent, thread, selector, writeOk, noHang, blockOk).0;
    SelfCrew(k.threads);
    SweptCrew(k.threads, parent);
    var i := Locate(k.procs, parent);
    if i < |k.procs| {
      var sel := DecodeSelector(selector, k.procs[i].value.group);
      var noted := if thread.None? then Swept(k.threads, ThreadOf(parent), BlockedThread)
                   else if t == |k.threads| then k.threads
                   else k.threads[t := Some(k.threads[t].value.(childWait := Some(sel), state := ThreadBlocked))];
      if t < |k.threads| {
        SlotCrew(k.threads, t, k.threads[t].value.(childWait := Some(sel), state := ThreadBlocked));
        SlotCrew(k.threads, t, k.threads[t].value.(childWait := None));
      }
      SweptCrew(noted, parent);
      SameCrewTransitive(k.threads, noted, Swept(noted, ThreadOf(parent), BlockedThread));
    }
  }

  lemma SelfCrew(t: Threads)
    ensures SameCrew(t, t)
  {
  }

  lemma SlotCrew(t: Threads, i: nat, a: Tcb)
    requires i < |t| && t[i].Some? && t[i].value.id == a.id && t[i].value.process == a.process
    ensures SameCrew(t, t[i := Some(a)])
  {
  }

  lemma ParentWokenCrew(k: KernelState, i: nat, readyOk: bool, wakes: ThreadId -> bool)
    requires i < |k.procs| && k.procs[i].Some?
    ensures SameCrew(k.threads, ParentWoken(k, i, readyOk, wakes).threads)
  {
    hide First, Swept, SameCrew, Woken;
    SelfCrew(k.threads);
    var child := k.procs[i].value;
    if child.parent.Some? {
      var threads := Swept(k.threads, ThreadOf(child.parent.value), UnwaitingThread);
      SweptCrew(k.threads, child.parent.value);
      WokenCrew(threads, child.parent.value, wakes);
      SameCrewTransitive(k.threads, threads, Woken(threads, child.parent.value, wakes).0);
    }
  }

  // ---------------------------------------------------------------------
  // Threads that come and go
  // ---------------------------------------------------------------------

  lemma LocateThreadIs(threads: Threads, n: nat, i: nat)
    requires ThreadIds(threads, n) && i < |threads| && threads[i].Some?
    ensures LocateThread(threads, threads[i].value.id) == i
  {
    FirstIs(threads, HasThread(threads[i].value.id), i);
  }

  lemma AddedThreadIds(threads: Threads, slot: nat, id: ThreadId, pid: ProcessId, nextPid: nat)
    requires ThreadIds(threads, id) && CrewBelow(threads, nextPid) && slot < |threads| && pid < nextPid
    ensures var u := threads[slot := Some(Tcb(id, pid, ThreadReady, None))];
            ThreadIds(u, id + 1) && CrewBelow(u, nextPid)
  {
  }

  lemma RemovedThreadIds(threads: Threads, slot: nat, n: nat, nextPid: nat)
    requires ThreadIds(threads, n) && CrewBelow(threads, nextPid) && slot < |threads|
    ensures ThreadIds(threads[slot := None], n) && CrewBelow(threads[slot := None], nextPid)
  {
  }

  lemma CountedSlot(procs: Procs, n: nat, pid: ProcessId, up: bool, i: nat)
    requires ProcIds(procs, n) && i < |procs| && procs[i].Some?
    ensures var q := Counted(procs, pid, up);
            && |q| == |procs| && SameSlot(procs[i], q[i])
            && q[i].value.threadCount == if procs[i].value.pid != pid then procs[i].value.threadCount
                                         else if up then SaturatingInc(procs[i].value.threadCount)
                                         else SaturatingSub(procs[i].value.threadCount, 1)
  {
    LocateIs(procs, n, i);
  }

  lemma CreateThreadKeeps(k: KernelState, pid: ProcessId)
    requires ThreadInvariant(k) && pid < k.nextPid
    ensures ThreadInvariant(CreateThread(k, pid).0)
  {
    hide First, Crew, ThreadIds, ProcIds, Counted;
    var slot := First(k.threads, FreeThread);
    if slot < |k.threads| {
      var k2 := CreateThread(k, pid).0;
      AddedThreadIds(k.threads, slot, k.nextThread, pid, k.nextPid);
      CountedFrame(k.procs, pid, true);
      SameIsNoneNew(k.procs, k2.procs);
      NoneNewKeepsIds(k.procs, k2.procs, k.nextPid);
      forall i | 0 <= i < |k2.procs| && LiveAt(k2.procs, i)
        ensures k2.procs[i].value.threadCount == Crew(k2.threads, k2.procs[i].value.pid)
      {
        assert LiveAt(k.procs, i);
        CountedSlot(k.procs, k.nextPid, pid, true, i);
        CrewUpdate(k.threads, slot, Some(Tcb(k.nextThread, pid, ThreadReady, None)), k2.procs[i].value.pid);
      }
    }
  }

  lemma RemoveThreadKeeps(k: KernelState, id: ThreadId)
    requires ThreadInvariant(k)
    ensures ThreadInvariant(RemoveThread(k, id))
  {
    hide First, Crew, ThreadIds, ProcIds, Counted;
    var t := LocateThread(k.threads, id);
    if t < |k.threads| {
      var k2 := RemoveThread(k, id);
      var pid := k.threads[t].value.process;
      RemovedThreadIds(k.threads, t, k.nextThread, k.nextPid);
      CountedFrame(k.procs, pid, false);
      SameIsNoneNew(k.procs, k2.procs);
      NoneNewKeepsIds(k.procs, k2.procs, k.nextPid);
      forall i | 0 <= i < |k2.procs| && LiveAt(k2.procs, i)
        ensures k2.procs[i].value.threadCount == Crew(k2.threads, k2.procs[i].value.pid)
      {
        assert LiveAt(k.procs, i);
        CountedSlot(k.procs, k.nextPid, pid, false, i);
        CrewUpdate(k.threads, t, None, k2.procs[i].value.pid);
      }
    }
  }

  // ---------------------------------------------------------------------
  // Steps that neither add nor remove a process or a thread
  // ---------------------------------------------------------------------

  predicate Still(step: Step) {
    FileStep(step) || step.SendStep? || step.ReceiveStep? || step.ReceiveOrBlockStep? || step.SecurityStep?
      || step.RegroupStep?
  }

  lemma StillFrame(k: KernelState, step: Step)
    requires |k.queues| == |k.procs| && TablesOk(k.procs) && Still(step) && CallerIsLive(k, step)
    ensures var k2 := Next(k, step);
            && SameLife(k.procs, k2.procs) && SameCounts(k.procs, k2.procs) && SameCrew(k.threads, k2.threads)
            && k2.nextPid == k.nextPid && k2.nextThread == k.nextThread
  {
    hide SameLife, SameFiles, SameWaits, SameCounts, SameCrew, Locate, Send, Receive, ReceiveOrBlock, Regrouped;
    SelfFrame(k.procs);
    SelfCrew(k.threads);
    if FileStep(step) {
      hide Next;
      FileStepFrame(k, step);
      return;
    }
    match step
    case SendStep(s, r, payload, readyOk, wakes, blockOk) =>
      SendFrame(k, s, r, payload, readyOk, wakes, blockOk);
      SendRest(k, s, r, payload, readyOk, wakes, blockOk);
      SendCrew(k, s, r, payload, readyOk, wakes, blockOk);
    case ReceiveStep(pid) => ReceiveRest(k, pid);
    case ReceiveOrBlockStep(pid, blockOk) =>
      ReceiveOrBlockFrame(k, pid, blockOk);
      ReceiveOrBlockCrew(k, pid, blockOk);
    case SecurityStep(op) =>
    case RegroupStep(caller, pid, group, sameSession) =>
      RegroupFrame(k, caller, pid, group, sameSession);
      RegroupRest(k, caller, pid, group, sameSession);
  }
}
