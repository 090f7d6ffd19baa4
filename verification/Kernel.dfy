/**
 * The kernel object: its tables updated in place, method by method, each
 * proved to take the step of the same name (`src/kernel/mod.rs`,
 * `src/kernel/exec.rs`).
 */
module Kernel {
  import opened Prelude
  import opened Tables
  import opened Labels
  import opened Capabilities
  import Security
  import opened Ipc
  import opened Descriptors
  import opened KernelSteps
  import opened KernelIds

  /** Deciding a request by search finds a record exactly when one permits it. */
  lemma PermitsIsFound(records: Records, owner: ProcessId, requested: CapabilityObject, right: bv16)
    ensures Security.Permits(records, owner, requested, right)
            <==> First(records, Security.Allowing(owner, requested, right)) < |records|
  {
    hide First, ObjectMatches, HasRight;
    var i := First(records, Security.Allowing(owner, requested, right));
    if i < |records| {
      assert Live(records, i);
    }
  }

  lemma WokenAll(before: Threads, after: Threads, pid: ProcessId, wakes: ThreadId -> bool)
    requires |after| == |before| && forall k :: 0 <= k < |before| ==> !StuckThreadOf(pid, wakes)(before[k])
    requires forall k :: 0 <= k < |before| ==>
               after[k] == if BlockedThreadOf(pid)(before[k]) then ReadyThread(before[k]) else before[k]
    ensures Woken(before, pid, wakes) == (after, true)
  {
    hide Swept, First;
    FirstIs(before, StuckThreadOf(pid, wakes), |before|);
    var woken := Woken(before, pid, wakes).0;
    assert forall k :: 0 <= k < |before| ==> woken[k] == after[k];
    assert woken == after;
  }

  lemma WokenStopped(before: Threads, after: Threads, pid: ProcessId, wakes: ThreadId -> bool, idx: nat)
    requires |after| == |before| && idx < |before| && StuckThreadOf(pid, wakes)(before[idx])
    requires forall k :: 0 <= k < idx ==> !StuckThreadOf(pid, wakes)(before[k])
    requires forall k :: 0 <= k < |before| ==>
               after[k] == if k < idx && IdleThreadOf(pid)(before[k]) then BlockedThread(before[k]) else before[k]
    ensures Woken(before, pid, wakes) == (after, false)
  {
    hide Swept, First;
    FirstIs(before, StuckThreadOf(pid, wakes), idx);
    var woken := Woken(before, pid, wakes).0;
    assert forall k :: 0 <= k < |before| ==> woken[k] == after[k];
    assert woken == after;
  }

  class KernelTables {
    const depth: nat
    const security: Security.SecurityKernel
    var processTable: Procs
    var threadTable: Threads
    var ipcQueues: seq<seq<Message>>
    var openFiles: Counts
    var nextPid: ProcessId
    var nextThread: ThreadId
    var messageSequence: nat

    ghost function State(): KernelState
      reads this, security
    {
      KernelState(processTable, threadTable, ipcQueues, depth, openFiles, security.State(), nextPid, nextThread,
                  messageSequence)
    }

    constructor (maxProcs: nat, messageDepth: nat, maxFiles: nat)
      ensures fresh(security) && State() == InitialState(maxProcs, messageDepth, maxFiles)
    {
      depth := messageDepth;
      security := new Security.SecurityKernel(maxProcs);
      processTable := seq(maxProcs, i => None);
      threadTable := seq(MAX_THREADS, i => None);
      ipcQueues := seq(maxProcs, i => []);
      openFiles := seq(maxFiles, i => None);
      nextPid, nextThread, messageSequence := 1, 1, 0;
    }

    // -------------------------------------------------------------------
    // Looking things up
    // -------------------------------------------------------------------

    method LocateProcess(pid: ProcessId) returns (idx: nat)
      ensures idx == Locate(processTable, pid)
    {
      hide First;
      idx := 0;
      while idx < |processTable|
        invariant idx <= |processTable|
        invariant forall k :: 0 <= k < idx ==> !HasPid(pid)(processTable[k])
      {
        if processTable[idx].Some? && processTable[idx].value.pid == pid {
          break;
        }
        idx := idx + 1;
      }
      FirstIs(processTable, HasPid(pid), idx);
    }

    method LocateThreadIndex(id: ThreadId) returns (idx: nat)
      ensures idx == LocateThread(threadTable, id)
    {
      hide First;
      idx := 0;
      while idx < |threadTable|
        invariant idx <= |threadTable|
        invariant forall k :: 0 <= k < idx ==> !HasThread(id)(threadTable[k])
      {
        if threadTable[idx].Some? && threadTable[idx].value.id == id {
          break;
        }
        idx := idx + 1;
      }
      FirstIs(threadTable, HasThread(id), idx);
    }

    method FindFreeSlot() returns (idx: nat)
      ensures idx == First(processTable, FreeProc)
    {
      hide First;
      idx := 0;
      while idx < |processTable|
        invariant idx <= |processTable|
        invariant forall k :: 0 <= k < idx ==> !FreeProc(processTable[k])
      {
        if processTable[idx].None? {
          break;
        }
        idx := idx + 1;
      }
      FirstIs(processTable, FreeProc, idx);
    }

    method FindFreeThreadSlot() returns (idx: nat)
      ensures idx == First(threadTable, FreeThread)
    {
      hide First;
      idx := 0;
      while idx < |threadTable|
        invariant idx <= |threadTable|
        invariant forall k :: 0 <= k < idx ==> !FreeThread(threadTable[k])
      {
        if threadTable[idx].None? {
          break;
        }
        idx := idx + 1;
      }
      FirstIs(threadTable, FreeThread, idx);
    }

    // -------------------------------------------------------------------
    // Threads of one process
    // -------------------------------------------------------------------

    method BlockThreadsForProcess(pid: ProcessId)
      modifies this`threadTable
      ensures threadTable == Swept(old(threadTable), ThreadOf(pid), BlockedThread)
    {
      hide Swept;
      var idx := 0;
      while idx < |threadTable|
        invariant idx <= |threadTable| == |old(threadTable)|
        invariant forall k :: 0 <= k < |threadTable| ==>
                    threadTable[k] == if k < idx && ThreadOf(pid)(old(threadTable[k]))
                      then BlockedThread(old(threadTable[k]))
                                      else old(threadTable[k])
      {
        if threadTable[idx].Some? && threadTable[idx].value.process == pid {
          threadTable := threadTable[idx := Some(threadTable[idx].value.(state := ThreadBlocked))];
        }
        idx := idx + 1;
      }
      assert threadTable == Swept(old(threadTable), ThreadOf(pid), BlockedThread);
    }

    method ClearChildWaitThreads(parent: ProcessId)
      modifies this`threadTable
      ensures threadTable == Swept(old(threadTable), ThreadOf(parent), UnwaitingThread)
    {
      hide Swept;
      var idx := 0;
      while idx < |threadTable|
        invariant idx <= |threadTable| == |old(threadTable)|
        invariant forall k :: 0 <= k < |threadTable| ==>
                    threadTable[k] == if k < idx && ThreadOf(parent)(old(threadTable[k]))
                      then UnwaitingThread(old(threadTable[k]))
                                      else old(threadTable[k])
      {
        if threadTable[idx].Some? && threadTable[idx].value.process == parent {
          threadTable := threadTable[idx := Some(threadTable[idx].value.(childWait := None))];
        }
        idx := idx + 1;
      }
      assert threadTable == Swept(old(threadTable), ThreadOf(parent), UnwaitingThread);
    }

    method RemoveThreadsForProcess(pid: ProcessId)
      modifies this`threadTable
      ensures threadTable == Swept(old(threadTable), ThreadOf(pid), GoneThread)
    {
      hide Swept;
      var idx := 0;
      while idx < |threadTable|
        invariant idx <= |threadTable| == |old(threadTable)|
        invariant forall k :: 0 <= k < |threadTable| ==>
                    threadTable[k] == if k < idx && ThreadOf(pid)(old(threadTable[k])) then None
                      else old(threadTable[k])
      {
        if threadTable[idx].Some? && threadTable[idx].value.process == pid {
          threadTable := threadTable[idx := None];
        }
        idx := idx + 1;
      }
      assert threadTable == Swept(old(threadTable), ThreadOf(pid), GoneThread);
    }

    /** Block the threads before `beforeIndex` that were made ready. */
    method RollbackReadyThreads(pid: ProcessId, beforeIndex: nat)
      requires beforeIndex <= |threadTable|
      modifies this`threadTable
      ensures |threadTable| == |old(threadTable)|
      ensures forall k :: 0 <= k < |threadTable| ==>
                threadTable[k] == if k < beforeIndex && IdleThreadOf(pid)(old(threadTable[k]))
                  then BlockedThread(old(threadTable[k]))
                                  else old(threadTable[k])
    {
      var idx := 0;
      while idx < beforeIndex
        invariant idx <= beforeIndex <= |threadTable| == |old(threadTable)|
        invariant forall k :: 0 <= k < |threadTable| ==>
                    threadTable[k] == if k < idx && IdleThreadOf(pid)(old(threadTable[k]))
                      then BlockedThread(old(threadTable[k]))
                                      else old(threadTable[k])
      {
        if threadTable[idx].Some? && threadTable[idx].value.process == pid
           && threadTable[idx].value.state.ThreadReady? {
          threadTable := threadTable[idx := Some(threadTable[idx].value.(state := ThreadBlocked))];
        }
        idx := idx + 1;
      }
    }

    /** Wake every blocked thread of a process, or none: `wakes` is what the scheduler answers. */
    method MakeThreadsReady(pid: ProcessId, wakes: ThreadId -> bool) returns (ok: bool)
      modifies this`threadTable
      ensures (threadTable, ok) == Woken(old(threadTable), pid, wakes)
    {
      hide Woken;
      var idx := 0;
      while idx < |threadTable|
        invariant idx <= |threadTable| == |old(threadTable)|
        invariant forall k :: 0 <= k < idx ==> !StuckThreadOf(pid, wakes)(old(threadTable[k]))
        invariant forall k :: 0 <= k < |threadTable| ==>
                    threadTable[k] == if k < idx && BlockedThreadOf(pid)(old(threadTable[k]))
                      then ReadyThread(old(threadTable[k]))
                                      else old(threadTable[k])
      {
        if threadTable[idx].Some? && threadTable[idx].value.process == pid
           && threadTable[idx].value.state.ThreadBlocked? {
          var thread := threadTable[idx].value;
          threadTable := threadTable[idx := Some(thread.(state := ThreadReady))];
          if !wakes(thread.id) {
            threadTable := threadTable[idx := Some(thread.(state := ThreadBlocked))];
            RollbackReadyThreads(pid, idx);
            WokenStopped(old(threadTable), threadTable, pid, wakes, idx);
            return false;
          }
        }
        idx := idx + 1;
      }
      WokenAll(old(threadTable), threadTable, pid, wakes);
      return true;
    }

    method BlockProcessAtIndex(pid: ProcessId, index: nat, blockOk: bool)
      requires index < |processTable| && processTable[index].Some?
      modifies this`processTable, this`threadTable
      ensures State() == Suspended(old(State()), pid, index, blockOk)
    {
      if blockOk {
        processTable := WithState(processTable, index, Blocked);
      }
      BlockThreadsForProcess(pid);
    }

    // -------------------------------------------------------------------
    // Messages
    // -------------------------------------------------------------------

    method SendMessage(sender: ProcessId, receiver: ProcessId, payload: MessagePayload,
                       readyOk: bool, wakes: ThreadId -> bool, blockOk: bool)
      returns (r: Result<(), SendError>)
      requires |ipcQueues| == |processTable|
      modifies this`processTable, this`threadTable, this`ipcQueues, this`messageSequence
      ensures (State(), r) == Send(old(State()), sender, receiver, payload, readyOk, wakes, blockOk)
    {
      hide First, Woken, Security.Permits, Security.IpcAllowed, Security.DomainOf;
      var authorised := security.AuthorizeIpc(sender, receiver, payload.securityClass);
      PermitsIsFound(security.capabilities, sender, IpcEndpoint(receiver), SEND);
      if authorised.Err? {
        return Err(Refused);
      }
      var message := Message(sender, receiver, messageSequence, payload);
      messageSequence := NextSequence(messageSequence);
      var index := LocateProcess(receiver);
      if index == |processTable| {
        return Err(NoReceiver);
      }
      if |ipcQueues[index]| >= depth {
        return Err(QueueFull);
      }
      ipcQueues := ipcQueues[index := ipcQueues[index] + [message]];
      if processTable[index].value.state == Blocked {
        if !readyOk {
          return Err(NotReady);
        }
        var woken := WakeReceiver(receiver, index, wakes, blockOk, old(ipcQueues), message);
        if !woken {
          return Err(NotWoken);
        }
      }
      return Ok(());
    }

    /** Wake a receiver that was blocked, or block it again and take its newest message back. */
    method WakeReceiver(receiver: ProcessId, index: nat, wakes: ThreadId -> bool, blockOk: bool,
                        ghost before: seq<seq<Message>>, ghost message: Message)
      returns (woken: bool)
      requires index < |processTable| == |before| && processTable[index].Some?
      requires ipcQueues == before[index := before[index] + [message]]
      modifies this`processTable, this`threadTable, this`ipcQueues
      ensures (threadTable, woken) == Woken(old(threadTable), receiver, wakes)
      ensures processTable == WithState(old(processTable), index, if woken || !blockOk then Ready else Blocked)
      ensures ipcQueues == if woken then old(ipcQueues) else before
    {
      hide Woken;
      processTable := WithState(processTable, index, Ready);
      woken := MakeThreadsReady(receiver, wakes);
      if !woken {
        if blockOk {
          processTable := WithState(processTable, index, Blocked);
          assert processTable == WithState(old(processTable), index, Blocked);
        }
        ipcQueues := ipcQueues[index := ipcQueues[index][..|ipcQueues[index]| - 1]];
        assert ipcQueues == before;
      }
    }

    method ReceiveMessage(pid: ProcessId) returns (r: Option<Message>)
      requires |ipcQueues| == |processTable|
      modifies this`ipcQueues
      ensures (State(), r) == Receive(old(State()), pid)
    {
      hide First;
      var index := LocateProcess(pid);
      if index == |processTable| || ipcQueues[index] == [] {
        return None;
      }
      r := Some(ipcQueues[index][0]);
      ipcQueues := ipcQueues[index := ipcQueues[index][1..]];
    }

    method ReceiveOrBlockMessage(pid: ProcessId, blockOk: bool) returns (r: Option<Message>)
      requires |ipcQueues| == |processTable|
      modifies this`processTable, this`threadTable, this`ipcQueues
      ensures (State(), r) == ReceiveOrBlock(old(State()), pid, blockOk)
    {
      hide First, Swept;
      var index := LocateProcess(pid);
      if index == |processTable| {
        return None;
      }
      if ipcQueues[index] != [] {
        r := Some(ipcQueues[index][0]);
        ipcQueues := ipcQueues[index := ipcQueues[index][1..]];
        return;
      }
      BlockProcessAtIndex(pid, index, blockOk);
      return None;
    }

    // -------------------------------------------------------------------
    // Thread creation
    // -------------------------------------------------------------------

    method UpdateProcessThreadCount(pid: ProcessId, increment: bool)
      modifies this`processTable
      ensures processTable == Counted(old(processTable), pid, increment)
    {
      hide First;
      var index := LocateProcess(pid);
      if index < |processTable| {
        var pcb := processTable[index].value;
        var count := if increment then SaturatingInc(pcb.threadCount)
                     else if pcb.threadCount > 0 then pcb.threadCount - 1 else pcb.threadCount;
        processTable := processTable[index := Some(pcb.(threadCount := count))];
      }
    }

    method NewThread(pid: ProcessId) returns (r: Option<ThreadId>)
      modifies this`processTable, this`threadTable, this`nextThread
      ensures (State(), r) == CreateThread(old(State()), pid)
    {
      hide First, Counted;
      var slot := FindFreeThreadSlot();
      if slot == |threadTable| {
        return None;
      }
      var id := nextThread;
      nextThread := nextThread + 1;
      threadTable := threadTable[slot := Some(Tcb(id, pid, ThreadReady, None))];
      UpdateProcessThreadCount(pid, true);
      return Some(id);
    }

    /** `terminate_thread` and `rollback_thread_creation`. */
    method TerminateThread(thread: ThreadId)
      modifies this`processTable, this`threadTable
      ensures State() == RemoveThread(old(State()), thread)
    {
      hide First, Counted;
      var index := LocateThreadIndex(thread);
      if index < |threadTable| {
        var process := threadTable[index].value.process;
        threadTable := threadTable[index := None];
        UpdateProcessThreadCount(process, false);
      }
    }

    // -------------------------------------------------------------------
    // Exit and wait
    // -------------------------------------------------------------------

    method WakeParentChildWaiters(childIndex: nat, readyOk: bool, wakes: ThreadId -> bool)
      requires childIndex < |processTable| && processTable[childIndex].Some?
      modifies this`processTable, this`threadTable
      ensures State() == ParentWoken(old(State()), childIndex, readyOk, wakes)
    {
      hide First, Swept, Woken;
      var child := processTable[childIndex].value;
      if child.parent.None? {
        return;
      }
      var parentIndex := LocateProcess(child.parent.value);
      if parentIndex == |processTable| {
        return;
      }
      var parent := processTable[parentIndex].value;
      if parent.childWait.None? || !parent.childWait.value.Matches(child.pid, child.group) {
        return;
      }
      processTable := processTable[parentIndex := Some(parent.(childWait := None))];
      ClearChildWaitThreads(parent.pid);
      if processTable[parentIndex].value.state == Blocked {
        if !readyOk {
          return;
        }
        processTable := WithState(processTable, parentIndex, Ready);
        assert processTable == old(processTable)[parentIndex := Some(parent.(childWait := None, state := Ready))];
      }
      var woken := MakeThreadsReady(parent.pid, wakes);
    }

    method RecordChildWait(parentIndex: nat, thread: Option<ThreadId>, selector: Selector, blockOk: bool)
      requires parentIndex < |processTable| && processTable[parentIndex].Some?
      modifies this`processTable, this`threadTable
      ensures State() == Waits(old(State()), parentIndex, thread, selector, blockOk)
    {
      hide First, Swept;
      var parent := processTable[parentIndex].value;
      processTable := processTable[parentIndex := Some(parent.(childWait := Some(selector)))];
      if thread.Some? {
        var threadIndex := LocateThreadIndex(thread.value);
        if threadIndex < |threadTable| {
          var tcb := threadTable[threadIndex].value.(childWait := Some(selector), state := ThreadBlocked);
          threadTable := threadTable[threadIndex := Some(tcb)];
        }
      } else {
        BlockThreadsForProcess(parent.pid);
      }
      BlockProcessAtIndex(parent.pid, parentIndex, blockOk);
    }

    method ClearChildWait(parent: ProcessId, thread: Option<ThreadId>)
      modifies this`processTable, this`threadTable
      ensures State() == WaitCleared(old(State()), parent, thread)
    {
      hide First, Swept;
      var parentIndex := LocateProcess(parent);
      if parentIndex < |processTable| {
        processTable := processTable[parentIndex := Some(processTable[parentIndex].value.(childWait := None))];
      }
      if thread.Some? {
        var threadIndex := LocateThreadIndex(thread.value);
        if threadIndex < |threadTable| {
          threadTable := threadTable[threadIndex := Some(threadTable[threadIndex].value.(childWait := None))];
        }
      } else {
        ClearChildWaitThreads(parent);
      }
    }

    /** Scan for a child to report; `writeOk` is whether its status can be stored for the caller. */
    method WaitForChild(parent: ProcessId, thread: Option<ThreadId>, selector: int, writeOk: bool, noHang: bool,
                        blockOk: bool)
      returns (r: WaitOutcome)
      modifies this`processTable, this`threadTable, security
      ensures (State(), r) == Wait(old(State()), parent, thread, selector, writeOk, noHang, blockOk)
    {
      hide First, Swept, WaitCleared, Waits, Security.Apply;
      var parentIndex := LocateProcess(parent);
      if parentIndex == |processTable| {
        return NoChild;
      }
      var waitSelector := DecodeSelector(selector, processTable[parentIndex].value.group);
      var idx, sawChild := ScanChildren(parent, waitSelector);
      if idx < |processTable| {
        var pcb := processTable[idx].value;
        if !writeOk {
          return Fault;
        }
        ClearChildWait(parent, thread);
        ClearedLength(old(State()), parent, thread);
        ReapProcessAt(idx, pcb.pid);
        return Reaped(pcb.pid, if pcb.exitStatus.Some? then pcb.exitStatus.value else 0);
      }
      if sawChild && noHang {
        return StillRunning;
      } else if sawChild {
        RecordChildWait(parentIndex, thread, waitSelector, blockOk);
        return Waiting;
      } else {
        return NoChild;
      }
    }

    /** The scan of `wait_for_child`: the first matching zombie and, without one, whether any child matches. */
    method ScanChildren(parent: ProcessId, selector: Selector) returns (zombie: nat, sawChild: bool)
      ensures zombie == First(processTable, ZombieMatching(parent, selector))
      ensures zombie == |processTable| ==>
                (sawChild <==> First(processTable, ChildMatching(parent, selector)) < |processTable|)
    {
      hide First;
      sawChild := false;
      zombie := 0;
      while zombie < |processTable|
        invariant zombie <= |processTable|
        invariant forall k :: 0 <= k < zombie ==> !ZombieMatching(parent, selector)(processTable[k])
        invariant sawChild <==> exists k :: 0 <= k < zombie && ChildMatching(parent, selector)(processTable[k])
      {
        if processTable[zombie].Some? {
          var pcb := processTable[zombie].value;
          if pcb.parent == Some(parent) && selector.Matches(pcb.pid, pcb.group) {
            sawChild := true;
            if pcb.state == Zombie {
              break;
            }
          }
        }
        zombie := zombie + 1;
      }
      FirstIs(processTable, ZombieMatching(parent, selector), zombie);
      NoneSeen(processTable, ChildMatching(parent, selector));
    }

    method ReapProcessAt(index: nat, pid: ProcessId)
      requires index < |processTable|
      modifies this`processTable, security
      ensures State()
                == old(State()).(procs := old(processTable)[index := None],
                                 security := RevokeTask(old(security.State()), pid))
    {
      security.RevokeTask(pid);
      processTable := processTable[index := None];
    }

    // -------------------------------------------------------------------
    // Open descriptions
    // -------------------------------------------------------------------

    /** `FileTable::insert_object`: the first free place, with one reference. */
    method InsertDescription() returns (d: nat)
      modifies this`openFiles
      ensures d == First(old(openFiles), FreeCount)
      ensures openFiles == if d == |old(openFiles)| then old(openFiles) else old(openFiles)[d := Some(1)]
    {
      hide First;
      d := 0;
      while d < |openFiles|
        invariant d <= |openFiles| && openFiles == old(openFiles)
        invariant forall k :: 0 <= k < d ==> !FreeCount(openFiles[k])
      {
        if openFiles[d].None? {
          FirstIs(openFiles, FreeCount, d);
          openFiles := openFiles[d := Some(1)];
          return;
        }
        d := d + 1;
      }
      FirstIs(openFiles, FreeCount, d);
    }

    method IncrementRefCount(d: nat) returns (ok: bool)
      modifies this`openFiles
      ensures ok == IsOpen(old(openFiles), d)
      ensures openFiles == if ok then Increment(old(openFiles), d) else old(openFiles)
    {
      if d >= |openFiles| || openFiles[d].None? {
        return false;
      }
      openFiles := openFiles[d := Some(SaturatingInc(openFiles[d].value))];
      return true;
    }

    /** `close_open_description`; closing an object at the file system is not modelled. */
    method CloseOpenDescription(d: nat) returns (ok: bool)
      modifies this`openFiles
      ensures ok == IsOpen(old(openFiles), d) && openFiles == CloseOne(old(openFiles), d)
    {
      if d >= |openFiles| || openFiles[d].None? {
        return false;
      }
      var count := if openFiles[d].value > 0 then openFiles[d].value - 1 else 0;
      openFiles := openFiles[d := if count == 0 then None else Some(count)];
      return true;
    }

    /** Close the description of every used slot. */
    method ReleaseFiles(files: Files)
      requires CountsOk(openFiles)
      modifies this`openFiles
      ensures openFiles == Drop(old(openFiles), files)
    {
      hide Drop, CloseOne;
      assert files[..0] == [] && files[..|files|] == files;
      NothingMoves(openFiles, []);
      for i := 0 to |files|
        invariant openFiles == Drop(old(openFiles), files[..i])
      {
        DropStep(old(openFiles), files, i);
        if files[i].Some? {
          var closed := CloseOpenDescription(files[i].value.description);
        }
      }
    }

    /** Retain every description a table names; on a closed one, release those retained so far. */
    method InheritFiles(files: Files) returns (ok: bool)
      requires CountsOk(openFiles) && |files| < U16_MAX
      modifies this`openFiles
      ensures (openFiles, ok) == Inherit(old(openFiles), files)
    {
      hide Drop, Raise, First;
      assert files[..0] == [] && files[..|files|] == files;
      NothingMoves(openFiles, []);
      for retained := 0 to |files|
        invariant openFiles == Raise(old(openFiles), files[..retained])
        invariant forall k :: 0 <= k < retained ==> !NamesClosed(old(openFiles))(files[k])
      {
        RaiseStep(old(openFiles), files, retained);
        if files[retained].Some? {
          var incremented := IncrementRefCount(files[retained].value.description);
          if !incremented {
            FirstIs(files, NamesClosed(old(openFiles)), retained);
            DropUndoesRaise(old(openFiles), files[..retained]);
            ReleaseFiles(files[..retained]);
            return false;
          }
        }
      }
      FirstIs(files, NamesClosed(old(openFiles)), |files|);
      return true;
    }

    method EnsureConsoleDescriptor(files: Files, fd: nat) returns (r: Files, ok: bool)
      requires fd < |files|
      modifies this`openFiles
      ensures (openFiles, r, ok) == Console(old(openFiles), files, fd)
    {
      hide First;
      if files[fd].Some? {
        return files, true;
      }
      var d := InsertDescription();
      if d == |openFiles| {
        return files, false;
      }
      return files[fd := Some(Descriptor(d, false))], true;
    }

    method EnsureProcessConsoleDescriptors(files: Files) returns (r: Files, ok: bool)
      requires 2 < |files|
      modifies this`openFiles
      ensures (openFiles, r, ok) == Consoles(old(openFiles), files)
    {
      hide First;
      r, ok := EnsureConsoleDescriptor(files, 1);
      if ok {
        r, ok := EnsureConsoleDescriptor(r, 2);
      }
    }

    // -------------------------------------------------------------------
    // Descriptor calls
    // -------------------------------------------------------------------

    /** `open_at_or_above` on the descriptors of one process. */
    static method FreeDescriptorFrom(files: Files, low: nat) returns (fd: nat)
      ensures fd == FreeFrom(files, low)
    {
      hide First;
      if low >= |files| {
        return |files|;
      }
      fd := low;
      while fd < |files|
        invariant low <= fd <= |files|
        invariant forall k :: low <= k < fd ==> files[k].Some?
      {
        if files[fd].None? {
          break;
        }
        fd := fd + 1;
      }
      var rest := files[low..];
      assert forall k :: 0 <= k < fd - low ==> rest[k] == files[low + k];
      FirstIs(rest, FreeDescriptor, fd - low);
    }

    method OpenFile(pid: ProcessId, closeOnExec: bool) returns (r: Option<nat>)
      modifies this`processTable, this`openFiles
      ensures (State(), r) == Open(old(State()), pid, closeOnExec)
    {
      hide First, FreeFrom, CloseOne;
      var index := LocateProcess(pid);
      if index == |processTable| {
        return None;
      }
      var d := InsertDescription();
      if d == |openFiles| {
        return None;
      }
      var files := processTable[index].value.files;
      var fd := FreeDescriptorFrom(files, 0);
      if fd >= |files| {
        var closed := CloseOpenDescription(d);
        return None;
      }
      processTable := WithFiles(processTable, index, files[fd := Some(Descriptor(d, closeOnExec))]);
      return Some(fd);
    }

    method CloseFile(pid: ProcessId, fd: nat) returns (ok: bool)
      modifies this`processTable, this`openFiles
      ensures (State(), ok) == Close(old(State()), pid, fd)
    {
      hide First, CloseOne;
      var index := LocateProcess(pid);
      if index == |processTable| || fd >= |processTable[index].value.files|
         || processTable[index].value.files[fd].None? {
        return false;
      }
      var files := processTable[index].value.files;
      processTable := WithFiles(processTable, index, files[fd := None]);
      var closed := CloseOpenDescription(files[fd].value.description);
      return true;
    }

    method DuplicateFd(pid: ProcessId, oldFd: nat, minFd: nat, closeOnExec: bool) returns (r: Option<nat>)
      modifies this`processTable, this`openFiles
      ensures (State(), r) == Duplicate(old(State()), pid, oldFd, minFd, closeOnExec)
    {
      hide First, CloseOne, Increment, FreeFrom;
      var index := LocateProcess(pid);
      if index == |processTable| || oldFd >= |processTable[index].value.files|
         || processTable[index].value.files[oldFd].None? {
        return None;
      }
      var files := processTable[index].value.files;
      var d := files[oldFd].value.description;
      var incremented := IncrementRefCount(d);
      if !incremented {
        return None;
      }
      var fd := FreeDescriptorFrom(files, minFd);
      if fd >= |files| {
        var closed := CloseOpenDescription(d);
        return None;
      }
      processTable := WithFiles(processTable, index, files[fd := Some(Descriptor(d, closeOnExec))]);
      return Some(fd);
    }

    method DuplicateFdTo(pid: ProcessId, oldFd: nat, newFd: nat, closeOnExec: bool, rejectSame: bool) returns (ok: bool)
      modifies this`processTable, this`openFiles
      ensures (State(), ok) == DuplicateTo(old(State()), pid, oldFd, newFd, closeOnExec, rejectSame)
    {
      hide First, CloseOne, Increment;
      var index := LocateProcess(pid);
      if index == |processTable| || oldFd >= |processTable[index].value.files|
         || processTable[index].value.files[oldFd].None? {
        return false;
      }
      if oldFd == newFd {
        return !rejectSame;
      }
      var files := processTable[index].value.files;
      var d := files[oldFd].value.description;
      var incremented := IncrementRefCount(d);
      if !incremented {
        return false;
      }
      if newFd >= |files| {
        var closed := CloseOpenDescription(d);
        return false;
      }
      processTable := WithFiles(processTable, index, files[newFd := Some(Descriptor(d, closeOnExec))]);
      if files[newFd].Some? {
        ok := CloseOpenDescription(files[newFd].value.description);
        return;
      }
      return true;
    }

    // -------------------------------------------------------------------
    // Exit
    // -------------------------------------------------------------------

    method ExitProcess(pid: ProcessId, status: int, readyOk: bool, wakes: ThreadId -> bool)
      requires |ipcQueues| == |processTable| && CountsOk(openFiles)
      modifies this`processTable, this`threadTable, this`ipcQueues, this`openFiles, security
      ensures State() == Exit(old(State()), pid, status, readyOk, wakes)
    {
      hide First, Drop, Swept, ParentWoken, Security.Apply;
      var index := LocateProcess(pid);
      if index == |processTable| || processTable[index].value.state == Zombie {
        return;
      }
      var pcb := processTable[index].value;
      ReleaseFiles(pcb.files);
      processTable := processTable[index := Some(Dead(pcb, status))];
      ipcQueues := ipcQueues[index := []];
      RemoveThreadsForProcess(pid);
      security.RevokeTask(pid);
      assert State() == Buried(old(State()), index, status);
      WakeParentChildWaiters(index, readyOk, wakes);
    }

    // -------------------------------------------------------------------
    // Creating tasks
    // -------------------------------------------------------------------

    /** Give the new block its console descriptors, or release what it holds. */
    method FinishBlock(pcb: Pcb) returns (r: Option<Pcb>)
      requires 2 < |pcb.files| && CountsOk(openFiles)
      modifies this`openFiles
      ensures Prepared(openFiles, r) == WithConsoles(old(openFiles), pcb) && CountsOk(openFiles)
    {
      hide First, Drop, Console;
      ConsolesOk(openFiles, pcb.files);
      var files, ok := EnsureProcessConsoleDescriptors(pcb.files);
      if !ok {
        RaiseAndDropAreOk(openFiles, files);
        ReleaseFiles(files);
        return None;
      }
      return Some(pcb.(files := files));
    }

    /** The block of a new task: descriptors first, then the address space, then the consoles. */
    method PrepareBlock(pid: ProcessId, parent: Option<ProcessId>, cloned: Space) returns (r: Option<Pcb>)
      requires TablesOk(processTable) && CountsOk(openFiles)
      modifies this`openFiles
      ensures Prepared(openFiles, r) == Prepare(old(State()).(nextPid := pid), parent, cloned) && CountsOk(openFiles)
    {
      hide First, WithConsoles, Inherit, NoFiles;
      if parent.None? {
        r := FinishBlock(NewPcb(pid, None, pid, 0, NoFiles()));
        return;
      }
      var index := LocateProcess(parent.value);
      if index == |processTable| {
        return None;
      }
      var p := processTable[index].value;
      InheritOk(openFiles, p.files);
      var inherited := InheritFiles(p.files);
      if !inherited {
        return None;
      }
      var root := 0;
      if p.root != 0 {
        if cloned.answer.None? {
          return None;
        }
        root := cloned.answer.value;
      }
      r := FinishBlock(NewPcb(pid, parent, p.group, root, p.files));
    }

    /** The block of a cloned process: descriptors, consoles, then the address space. */
    method PrepareShellBlock(pid: ProcessId, caller: ProcessId, cloned: Space) returns (r: Option<Pcb>)
      requires TablesOk(processTable) && CountsOk(openFiles)
      modifies this`openFiles
      ensures Prepared(openFiles, r) == PrepareShell(old(State()).(nextPid := pid), caller, cloned)
              && CountsOk(openFiles)
    {
      hide First, WithConsoles, Inherit;
      var index := LocateProcess(caller);
      if index == |processTable| {
        return None;
      }
      var p := processTable[index].value;
      InheritOk(openFiles, p.files);
      var inherited := InheritFiles(p.files);
      if !inherited {
        return None;
      }
      r := FinishBlock(NewPcb(pid, Some(caller), p.group, RootOf(p.root, cloned), p.files));
      if r.Some? && NoSpace(p.root, cloned) {
        r := None;
      }
    }

    /** Register the task, hand it its parent's capabilities and enter it in the table. */
    method EnrollTask(slot: nat, pcb: Pcb, creds: Credentials) returns (ok: bool)
      requires slot < |processTable| && nextPid > 0 && CountsOk(openFiles)
      modifies this`processTable, this`openFiles, security
      ensures (State(), ok)
                == Enroll(old(State()).(nextPid := old(nextPid) - 1), slot, Prepared(old(openFiles), Some(pcb)), creds)
      ensures CountsOk(openFiles)
    {
      hide Drop, Security.Apply;
      RaiseAndDropAreOk(openFiles, pcb.files);
      var registered := security.RegisterTask(pcb.pid, creds);
      if registered.Err? {
        ReleaseFiles(pcb.files);
        return false;
      }
      if pcb.parent.Some? {
        var derived := security.DeriveInheritedChildCapabilities(pcb.parent.value, pcb.pid);
        if derived.Err? {
          ReleaseFiles(pcb.files);
          security.RevokeTask(pcb.pid);
          return false;
        }
      }
      processTable := processTable[slot := Some(pcb)];
      return true;
    }

    /** Take the process in `slot` back out of every table. */
    method WithdrawTask(slot: nat)
      requires slot < |processTable| && processTable[slot].Some? && CountsOk(openFiles)
      modifies this`processTable, this`openFiles, security
      ensures State() == Withdrawn(old(State()), slot) && CountsOk(openFiles)
    {
      hide Drop, Security.Apply;
      var failed := processTable[slot].value;
      processTable := processTable[slot := None];
      RaiseAndDropAreOk(openFiles, failed.files);
      ReleaseFiles(failed.files);
      security.RevokeTask(failed.pid);
    }

    method RollbackProcessShell(pid: ProcessId)
      requires CountsOk(openFiles)
      modifies this`processTable, this`openFiles, security
      ensures State() == RollbackShell(old(State()), pid) && CountsOk(openFiles)
    {
      hide First, Withdrawn;
      var index := LocateProcess(pid);
      if index < |processTable| {
        WithdrawTask(index);
      }
    }

    /** The first thread of an enrolled process; `mtssOk` is whether the scheduler takes task and thread. */
    method StartTask(slot: nat, pid: ProcessId, mtssOk: bool) returns (r: Option<ThreadId>)
      requires slot < |processTable| && Locate(processTable, pid) == slot && CountsOk(openFiles)
      modifies this`processTable, this`threadTable, this`openFiles, this`nextThread, security
      ensures (State(), r) == Started(old(State()), pid, mtssOk) && CountsOk(openFiles)
    {
      hide First, Counted, Withdrawn, LocateThread;
      CountedLocates(processTable, pid, pid, true);
      var thread := NewThread(pid);
      if thread.None? {
        WithdrawTask(slot);
        return None;
      }
      if !mtssOk {
        ghost var k1 := State();
        TerminateThread(thread.value);
        RemovalLocates(k1, thread.value, pid);
        WithdrawTask(slot);
        return None;
      }
      return thread;
    }

    /** From a prepared block to a running task. */
    method FinishTask(slot: nat, pid: ProcessId, pcb: Option<Pcb>, creds: Credentials, mtssOk: bool)
      returns (r: Option<ProcessId>)
      requires slot == First(processTable, FreeProc) < |processTable| && nextPid == pid + 1 && CountsOk(openFiles)
      requires ProcIds(processTable, pid) && (pcb.Some? ==> pcb.value.pid == pid)
      modifies this`processTable, this`threadTable, this`openFiles, this`nextThread, security
      ensures (State(), r) == CreateFrom(old(State()).(nextPid := pid), Prepared(old(openFiles), pcb), creds, mtssOk)
      ensures CountsOk(openFiles)
    {
      hide First, Started;
      if pcb.None? {
        return None;
      }
      hide Enroll;
      EnteredLocates(State().(nextPid := pid), slot, Prepared(openFiles, pcb), creds);
      var ok := EnrollTask(slot, pcb.value, creds);
      if !ok {
        return None;
      }
      var thread := StartTask(slot, pid, mtssOk);
      return if thread.Some? then Some(pid) else None;
    }

    method CreateProcessTask(parent: Option<ProcessId>, creds: Credentials, cloned: Space, mtssOk: bool)
      returns (r: Option<ProcessId>)
      requires TablesOk(processTable) && CountsOk(openFiles) && ProcIds(processTable, nextPid)
      modifies this`processTable, this`threadTable, this`openFiles, this`nextPid, this`nextThread, security
      ensures (State(), r) == CreateTask(old(State()), parent, creds, cloned, mtssOk) && CountsOk(openFiles)
    {
      hide First, CreateFrom, ProcIds;
      var slot := FindFreeSlot();
      if slot == |processTable| {
        return None;
      }
      var pid := nextPid;
      nextPid := nextPid + 1;
      PreparedPid(State().(nextPid := pid), parent, 0, cloned);
      hide Prepare;
      var pcb := PrepareBlock(pid, parent, cloned);
      CreateIgnoresCounts(State().(nextPid := pid), old(State()), Prepared(openFiles, pcb), creds, mtssOk);
      r := FinishTask(slot, pid, pcb, creds, mtssOk);
    }

    method SpawnTask(parent: Option<ProcessId>, creds: Credentials, cloned: Space, mtssOk: bool)
      returns (r: Option<ProcessId>)
      requires TablesOk(processTable) && CountsOk(openFiles) && ProcIds(processTable, nextPid)
      modifies this`processTable, this`threadTable, this`openFiles, this`nextPid, this`nextThread, security
      ensures (State(), r) == Spawn(old(State()), parent, creds, cloned, mtssOk) && CountsOk(openFiles)
    {
      hide First, CreateTask, ProcIds, TablesOk, Security.SpawnAllowed, Security.DomainOf;
      if parent.Some? {
        var index := LocateProcess(parent.value);
        if index == |processTable| {
          return None;
        }
        var authorised := security.AuthorizeSpawn(parent.value, creds);
        if authorised.Err? {
          return None;
        }
      }
      r := CreateProcessTask(parent, creds, cloned, mtssOk);
    }

    method SpawnLoadedTask(parent: ProcessId, creds: Credentials, cloned: Space, mtssOk: bool, loadOk: bool)
      returns (r: Option<ProcessId>)
      requires TablesOk(processTable) && CountsOk(openFiles) && ProcIds(processTable, nextPid)
      modifies this`processTable, this`threadTable, this`openFiles, this`nextPid, this`nextThread, security
      ensures (State(), r) == SpawnLoaded(old(State()), parent, creds, cloned, mtssOk, loadOk) && CountsOk(openFiles)
    {
      hide Spawn, RollbackShell, ProcIds, TablesOk;
      r := SpawnTask(Some(parent), creds, cloned, mtssOk);
      if r.Some? && !loadOk {
        RollbackProcessShell(r.value);
        return None;
      }
    }

    method CloneIntoGroup(caller: ProcessId, mtssOk: bool) returns (r: Option<ThreadId>)
      modifies this`processTable, this`threadTable, this`nextThread
      ensures (State(), r) == CloneThread(old(State()), caller, mtssOk)
    {
      hide First, CreateThread, RemoveThread;
      var index := LocateProcess(caller);
      if index == |processTable| {
        return None;
      }
      r := NewThread(caller);
      if r.Some? && !mtssOk {
        TerminateThread(r.value);
        return None;
      }
    }

    method CloneIntoProcess(caller: ProcessId, creds: Credentials, cloned: Space, mtssOk: bool)
      returns (r: Option<ProcessId>)
      requires TablesOk(processTable) && CountsOk(openFiles) && ProcIds(processTable, nextPid)
      modifies this`processTable, this`threadTable, this`openFiles, this`nextPid, this`nextThread, security
      ensures (State(), r) == CloneProcess(old(State()), caller, creds, cloned, mtssOk) && CountsOk(openFiles)
    {
      hide First, CreateFrom, ProcIds, Security.SpawnAllowed, Security.DomainOf;
      var index := LocateProcess(caller);
      if index == |processTable| {
        return None;
      }
      var authorised := security.AuthorizeSpawn(caller, creds);
      if authorised.Err? {
        return None;
      }
      var slot := FindFreeSlot();
      if slot == |processTable| {
        return None;
      }
      var pid := nextPid;
      nextPid := nextPid + 1;
      PreparedPid(State().(nextPid := pid), None, caller, cloned);
      hide PrepareShell;
      var pcb := PrepareShellBlock(pid, caller, cloned);
      CreateIgnoresCounts(State().(nextPid := pid), old(State()), Prepared(openFiles, pcb), creds, mtssOk);
      r := FinishTask(slot, pid, pcb, creds, mtssOk);
    }

    // -------------------------------------------------------------------
    // Exec
    // -------------------------------------------------------------------

    /** Split a descriptor table into what exec keeps and what it closes. */
    static method CloseOnExec(files: Files) returns (kept: Files, closed: Files)
      ensures kept == KeptFiles(files) && closed == ClosedFiles(files)
    {
      hide Swept;
      kept, closed := files, seq(|files|, i => None);
      for i := 0 to |files|
        invariant |kept| == |closed| == |files|
        invariant forall k :: 0 <= k < |files| ==> kept[k] == if k < i && ClosesOnExec(files[k]) then None else files[k]
        invariant forall k :: 0 <= k < |files| ==>
                    closed[k] == if k < i && ClosesOnExec(files[k]) then files[k] else None
      {
        if files[i].Some? && files[i].value.closeOnExec {
          kept := kept[i := None];
          closed := closed[i := files[i]];
        }
      }
      assert kept == KeptFiles(files);
      assert closed == ClosedFiles(files);
    }

    method FindKeptThread(pid: ProcessId, current: Option<ThreadId>) returns (kept: Option<ThreadId>)
      ensures kept == KeptThread(threadTable, pid, current)
    {
      hide First;
      kept := current;
      if kept.None? {
        var idx := 0;
        while idx < |threadTable|
          invariant idx <= |threadTable|
          invariant forall k :: 0 <= k < idx ==> !ThreadOf(pid)(threadTable[k])
        {
          if threadTable[idx].Some? && threadTable[idx].value.process == pid {
            FirstIs(threadTable, ThreadOf(pid), idx);
            kept := Some(threadTable[idx].value.id);
            return;
          }
          idx := idx + 1;
        }
        FirstIs(threadTable, ThreadOf(pid), idx);
      }
    }

    method RemoveOtherThreads(pid: ProcessId, kept: Option<ThreadId>)
      modifies this`threadTable
      ensures threadTable == Swept(old(threadTable), OtherThreadOf(pid, kept), GoneThread)
    {
      hide Swept;
      var idx := 0;
      while idx < |threadTable|
        invariant idx <= |threadTable| == |old(threadTable)|
        invariant forall k :: 0 <= k < |threadTable| ==>
                    threadTable[k] == if k < idx && OtherThreadOf(pid, kept)(old(threadTable[k])) then None
                      else old(threadTable[k])
      {
        if threadTable[idx].Some? && threadTable[idx].value.process == pid && Some(threadTable[idx].value.id) != kept {
          threadTable := threadTable[idx := None];
        }
        idx := idx + 1;
      }
      assert threadTable == Swept(old(threadTable), OtherThreadOf(pid, kept), GoneThread);
    }

    method ReplaceProcessImage(index: nat, current: Option<ThreadId>, root: nat) returns (ok: bool)
      requires index < |processTable| && processTable[index].Some?
      requires Locate(processTable, processTable[index].value.pid) == index
      modifies this`processTable, this`threadTable, this`nextThread
      ensures (State(), ok) == Reimaged(old(State()), index, current, root)
    {
      hide First, Swept, KeptThread, Counted;
      var pcb := processTable[index].value.(root := root, threadCount := 0);
      processTable := processTable[index := Some(pcb)];
      var kept := FindKeptThread(pcb.pid, current);
      RemoveOtherThreads(pcb.pid, kept);
      if kept.Some? {
        var threadIndex := LocateThreadIndex(kept.value);
        if threadIndex == |threadTable| {
          return false;
        }
        threadTable := threadTable[threadIndex := Some(threadTable[threadIndex].value.(state := ThreadReady))];
      } else {
        CountedOverwritten(old(processTable), index, pcb, Some(pcb.(threadCount := 1)));
        var thread := NewThread(pcb.pid);
        if thread.None? {
          return false;
        }
      }
      processTable := processTable[index := Some(pcb.(threadCount := 1))];
      assert processTable == old(processTable)[index := Some(pcb.(threadCount := 1))];
      return true;
    }

    method ExecTask(request: Security.ExecRequest, current: Option<ThreadId>, root: nat, mtssOk: bool, readyOk: bool)
      returns (ok: bool)
      requires CountsOk(openFiles)
      modifies this`processTable, this`threadTable, this`openFiles, this`nextThread, security
      ensures (State(), ok) == Exec(old(State()), request, current, root, mtssOk, readyOk)
    {
      hide First, Drop, KeptFiles, ClosedFiles, Reimaged, Security.Apply, Security.ExecAllowed, Security.DomainOf;
      var authorised := security.AuthorizeExec(request);
      if authorised.Err? {
        return false;
      }
      var index := LocateProcess(request.caller);
      if index == |processTable| {
        return false;
      }
      var files := processTable[index].value.files;
      var kept, closed := CloseOnExec(files);
      RefiledLocates(processTable, index, kept);
      processTable := WithFiles(processTable, index, kept);
      ReleaseFiles(closed);
      ReimagedSlot(State(), index, current, root);
      var replaced := ReplaceProcessImage(index, current, root);
      if !replaced || !mtssOk {
        return false;
      }
      if !readyOk {
        return false;
      }
      processTable := WithState(processTable, index, Ready);
      var registered := security.RegisterTask(request.caller, request.requested);
      return registered.Ok?;
    }
  }

  lemma RefiledLocates(procs: Procs, i: nat, files: Files)
    requires i < |procs| && procs[i].Some? && Locate(procs, procs[i].value.pid) == i
    ensures Locate(WithFiles(procs, i, files), procs[i].value.pid) == i
  {
    hide First;
    FirstIs(WithFiles(procs, i, files), HasPid(procs[i].value.pid), i);
  }

  lemma ReimagedSlot(k: KernelState, i: nat, current: Option<ThreadId>, root: nat)
    requires i < |k.procs| && k.procs[i].Some?
    ensures var k2 := Reimaged(k, i, current, root).0;
            |k2.procs| == |k.procs| && (Reimaged(k, i, current, root).1 ==> k2.procs[i].Some?)
  {
    hide First, Swept, KeptThread, LocateThread;
  }

  lemma CountedOverwritten(procs: Procs, index: nat, pcb: Pcb, x: Option<Pcb>)
    requires index < |procs| && Locate(procs, pcb.pid) == index
    ensures var q := Counted(procs[index := Some(pcb)], pcb.pid, true);
            |q| == |procs| && q[index := x] == procs[index := x]
  {
    hide First;
    FirstIs(procs[index := Some(pcb)], HasPid(pcb.pid), index);
  }

  lemma ConsolesOk(counts: Counts, files: Files)
    requires CountsOk(counts) && 2 < |files|
    ensures var (c, f, ok) := Consoles(counts, files); CountsOk(c) && |f| == |files|
  {
    hide First;
  }

  lemma InheritOk(counts: Counts, files: Files)
    requires CountsOk(counts)
    ensures CountsOk(Inherit(counts, files).0)
  {
    hide First, Raise, Drop;
    RaiseAndDropAreOk(counts, files);
    var bad := First(files, NamesClosed(counts));
    RaiseAndDropAreOk(counts, files[..bad]);
    RaiseAndDropAreOk(Raise(counts, files[..bad]), files[..bad]);
  }

  lemma CountedLocates(procs: Procs, pid: ProcessId, other: ProcessId, up: bool)
    ensures Locate(Counted(procs, pid, up), other) == Locate(procs, other) && |Counted(procs, pid, up)| == |procs|
  {
    hide First;
    FirstIs(Counted(procs, pid, up), HasPid(other), Locate(procs, other));
  }

  lemma RemovalLocates(k: KernelState, id: ThreadId, pid: ProcessId)
    ensures Locate(RemoveThread(k, id).procs, pid) == Locate(k.procs, pid) && |RemoveThread(k, id).procs| == |k.procs|
  {
    hide First, Counted;
    var t := LocateThread(k.threads, id);
    if t < |k.threads| {
      CountedLocates(k.procs, k.threads[t].value.process, pid, false);
    }
  }

  /** An enrolled process is found in the slot it was entered in. */
  lemma EnteredLocates(k: KernelState, slot: nat, prepared: Prepared, creds: Credentials)
    requires slot < |k.procs| && k.procs[slot].None? && prepared.pcb.Some? && ProcIds(k.procs, prepared.pcb.value.pid)
    ensures var (k1, ok) := Enroll(k, slot, prepared, creds);
            ok ==> |k1.procs| == |k.procs| && Locate(k1.procs, prepared.pcb.value.pid) == slot
  {
    hide Drop, Security.Apply;
    var p := prepared.pcb.value;
    var q := k.procs[slot := Some(p)];
    assert ProcIds(q, p.pid + 1);
    LocateIs(q, p.pid + 1, slot);
  }

  lemma PreparedPid(k: KernelState, parent: Option<ProcessId>, caller: ProcessId, cloned: Space)
    requires TablesOk(k.procs)
    ensures Prepare(k, parent, cloned).pcb.Some? ==> Prepare(k, parent, cloned).pcb.value.pid == k.nextPid
    ensures PrepareShell(k, caller, cloned).pcb.Some? ==> PrepareShell(k, caller, cloned).pcb.value.pid == k.nextPid
  {
    hide First, Inherit, Consoles, Drop;
  }

  /** Creation starts from the prepared counts, whatever the table held before. */
  lemma CreateIgnoresCounts(k: KernelState, k2: KernelState, prepared: Prepared, creds: Credentials, mtssOk: bool)
    requires k == k2.(counts := k.counts) && First(k.procs, FreeProc) < |k.procs|
    ensures CreateFrom(k, prepared, creds, mtssOk) == CreateFrom(k2, prepared, creds, mtssOk)
  {
    hide First, Drop, Security.Apply, Started;
  }

  lemma ClearedLength(k: KernelState, parent: ProcessId, thread: Option<ThreadId>)
    ensures |WaitCleared(k, parent, thread).procs| == |k.procs|
    ensures WaitCleared(k, parent, thread).security == k.security
  {
  }

  lemma NoneSeen<T>(s: seq<T>, p: T -> bool)
    ensures First(s, p) == |s| <==> !exists k :: 0 <= k < |s| && p(s[k])
  {
    hide First;
  }
}
