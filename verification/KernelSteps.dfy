/**
 * The process, thread, message and descriptor tables of the kernel as a value,
 * and its steps as functions on that value (`src/kernel/mod.rs`,
 * `src/kernel/exec.rs`). What the scheduler, the memory manager and the file
 * system answer is a parameter of the step.
 */
module KernelSteps {
  import opened Prelude
  import opened Tables
  import opened Labels
  import opened Capabilities
  import Security
  import opened Ipc
  import opened Descriptors

  const MAX_PROCESSES: nat := 64
  const MAX_THREADS: nat := 256

  datatype ProcessState = Ready | Running | Blocked | Zombie

  datatype ThreadState = ThreadReady | ThreadRunning | ThreadBlocked

  datatype Selector = AnyChild | OneChild(pid: ProcessId) | Group(group: nat) {
    predicate Matches(child: ProcessId, childGroup: nat) {
      match this
      case AnyChild => true
      case OneChild(pid) => pid == child
      case Group(group) => group == childGroup
    }
  }

  datatype Pcb = Pcb(pid: ProcessId, parent: Option<ProcessId>, group: nat, state: ProcessState, root: nat,
                     threadCount: nat, exitStatus: Option<int>, files: Files, childWait: Option<Selector>)

  datatype Tcb = Tcb(id: ThreadId, process: ProcessId, state: ThreadState, childWait: Option<Selector>)

  type Procs = seq<Option<Pcb>>
  type Threads = seq<Option<Tcb>>

  datatype KernelState = KernelState(
    procs: Procs, threads: Threads, queues: seq<seq<Message>>, depth: nat, counts: Counts,
    security: Security.SecurityState, nextPid: ProcessId, nextThread: ThreadId, sequence: nat)

  /** `Kernel::new`. */
  function InitialState(maxProcs: nat, depth: nat, maxFiles: nat): KernelState {
    KernelState(seq(maxProcs, i => None), seq(MAX_THREADS, i => None), seq(maxProcs, i => []), depth,
                seq(maxFiles, i => None),
                Security.EmptySecurity(maxProcs), 1, 1, 0)
  }

  // ---------------------------------------------------------------------
  // Slots
  // ---------------------------------------------------------------------

  predicate FreeProc(slot: Option<Pcb>) {
    slot.None?
  }

  predicate FreeThread(slot: Option<Tcb>) {
    slot.None?
  }

  predicate FreeCount(count: Option<nat>) {
    count.None?
  }

  predicate FreeDescriptor(slot: Option<Descriptor>) {
    slot.None?
  }

  function HasPid(pid: ProcessId): Option<Pcb> -> bool {
    (slot: Option<Pcb>) => slot.Some? && slot.value.pid == pid
  }

  function HasThread(id: ThreadId): Option<Tcb> -> bool {
    (slot: Option<Tcb>) => slot.Some? && slot.value.id == id
  }

  function ThreadOf(pid: ProcessId): Option<Tcb> -> bool {
    (slot: Option<Tcb>) => slot.Some? && slot.value.process == pid
  }

  /** `locate_process`; the length of the table when there is none. */
  function Locate(procs: Procs, pid: ProcessId): (i: nat)
    ensures i <= |procs|
    ensures i < |procs| ==> procs[i].Some? && procs[i].value.pid == pid
  {
    First(procs, HasPid(pid))
  }

  function LocateThread(threads: Threads, id: ThreadId): (i: nat)
    ensures i <= |threads|
    ensures i < |threads| ==> threads[i].Some? && threads[i].value.id == id
  {
    First(threads, HasThread(id))
  }

  function WithState(procs: Procs, i: nat, state: ProcessState): Procs
    requires i < |procs| && procs[i].Some?
  {
    procs[i := Some(procs[i].value.(state := state))]
  }

  function GoneThread(slot: Option<Tcb>): Option<Tcb> {
    None
  }

  function BlockedThread(slot: Option<Tcb>): Option<Tcb> {
    if slot.Some? then Some(slot.value.(state := ThreadBlocked)) else None
  }

  function ReadyThread(slot: Option<Tcb>): Option<Tcb> {
    if slot.Some? then Some(slot.value.(state := ThreadReady)) else None
  }

  function UnwaitingThread(slot: Option<Tcb>): Option<Tcb> {
    if slot.Some? then Some(slot.value.(childWait := None)) else None
  }

  function BlockedThreadOf(pid: ProcessId): Option<Tcb> -> bool {
    (slot: Option<Tcb>) => slot.Some? && slot.value.process == pid && slot.value.state.ThreadBlocked?
  }

  function IdleThreadOf(pid: ProcessId): Option<Tcb> -> bool {
    (slot: Option<Tcb>) => slot.Some? && slot.value.process == pid && !slot.value.state.ThreadRunning?
  }

  function StuckThreadOf(pid: ProcessId, wakes: ThreadId -> bool): Option<Tcb> -> bool {
    (slot: Option<Tcb>) => slot.Some? && slot.value.process == pid && slot.value.state.ThreadBlocked?
      && !wakes(slot.value.id)
  }

  /** `make_threads_ready`; at a thread the scheduler will not wake, the ones before it are blocked again. */
  function Woken(threads: Threads, pid: ProcessId, wakes: ThreadId -> bool): (Threads, bool) {
    var idx := First(threads, StuckThreadOf(pid, wakes));
    if idx == |threads| then (Swept(threads, BlockedThreadOf(pid), ReadyThread), true)
    else (Swept(threads[..idx], IdleThreadOf(pid), BlockedThread) + threads[idx..], false)
  }

  /** `block_process_at_index`. */
  function Suspended(k: KernelState, pid: ProcessId, i: nat, blockOk: bool): KernelState
    requires i < |k.procs| && k.procs[i].Some?
  {
    k.(procs := if blockOk then WithState(k.procs, i, Blocked) else k.procs,
       threads := Swept(k.threads, ThreadOf(pid), BlockedThread))
  }

  // ---------------------------------------------------------------------
  // Messages
  // ---------------------------------------------------------------------

  predicate IpcAuthorised(s: Security.SecurityState, sender: ProcessId, receiver: ProcessId, class_: SecurityClass) {
    var from, to := Security.DomainOf(s.domains, sender), Security.DomainOf(s.domains, receiver);
    && from.Some? && to.Some?
    && First(s.ledger.records, Security.Allowing(sender, IpcEndpoint(receiver), SEND)) < |s.ledger.records|
    && Security.IpcAllowed(from.value.creds, to.value.creds, class_)
  }

  function NextSequence(n: nat): nat {
    if n + 1 >= TWO_64 then 0 else n + 1
  }

  datatype SendError = Refused | NoReceiver | QueueFull | NotReady | NotWoken

  /** `send_message`. When the receiver cannot be made ready the message stays queued. */
  function Send(k: KernelState, sender: ProcessId, receiver: ProcessId, payload: MessagePayload,
                readyOk: bool, wakes: ThreadId -> bool, blockOk: bool): (KernelState, Result<(), SendError>)
    requires |k.queues| == |k.procs|
  {
    if !IpcAuthorised(k.security, sender, receiver, payload.securityClass) then (k, Err(Refused))
    else
      var sent := k.(sequence := NextSequence(k.sequence));
      var i := Locate(k.procs, receiver);
      if i == |k.procs| then (sent, Err(NoReceiver))
      else if |k.queues[i]| >= k.depth then (sent, Err(QueueFull))
      else
        var pushed := sent.(queues := k.queues[i := k.queues[i] + [Message(sender, receiver, k.sequence, payload)]]);
        if k.procs[i].value.state != Blocked then (pushed, Ok(()))
        else if !readyOk then (pushed, Err(NotReady))
        else
          var (threads, woken) := Woken(k.threads, receiver, wakes);
          if woken then (pushed.(procs := WithState(k.procs, i, Ready), threads := threads), Ok(()))
          else (sent.(procs := WithState(k.procs, i, if blockOk then Blocked else Ready), threads := threads),
                Err(NotWoken))
  }

  /** `receive_message`. */
  function Receive(k: KernelState, pid: ProcessId): (KernelState, Option<Message>)
    requires |k.queues| == |k.procs|
  {
    var i := Locate(k.procs, pid);
    if i == |k.procs| || k.queues[i] == [] then (k, None)
    else (k.(queues := k.queues[i := k.queues[i][1..]]), Some(k.queues[i][0]))
  }

  /** `receive_or_block`. */
  function ReceiveOrBlock(k: KernelState, pid: ProcessId, blockOk: bool): (KernelState, Option<Message>)
    requires |k.queues| == |k.procs|
  {
    var i := Locate(k.procs, pid);
    if i == |k.procs| then (k, None)
    else if k.queues[i] == [] then (Suspended(k, pid, i, blockOk), None)
    else Receive(k, pid)
  }

  // ---------------------------------------------------------------------
  // Exit and wait
  // ---------------------------------------------------------------------

  function RevokeTask(s: Security.SecurityState, pid: ProcessId): Security.SecurityState {
    Security.Apply(s, Security.Operation.RevokeTask(pid)).0
  }

  function Dead(p: Pcb, status: int): Pcb {
    p.(state := Zombie, exitStatus := Some(status), files := seq(|p.files|, i => None))
  }

  /** `exit_process` up to the point where the parent is told. */
  function Buried(k: KernelState, i: nat, status: int): KernelState
    requires i < |k.procs| == |k.queues| && k.procs[i].Some?
  {
    var p := k.procs[i].value;
    k.(procs := k.procs[i := Some(Dead(p, status))],
       counts := Drop(k.counts, p.files),
       queues := k.queues[i := []],
       threads := Swept(k.threads, ThreadOf(p.pid), GoneThread),
       security := RevokeTask(k.security, p.pid))
  }

  predicate AwaitsChild(p: Pcb, child: Pcb) {
    p.childWait.Some? && p.childWait.value.Matches(child.pid, child.group)
  }

  /** `wake_parent_child_waiters`. */
  function ParentWoken(k: KernelState, i: nat, readyOk: bool, wakes: ThreadId -> bool): KernelState
    requires i < |k.procs| && k.procs[i].Some?
  {
    var child := k.procs[i].value;
    if child.parent.None? then k
    else
      var p := Locate(k.procs, child.parent.value);
      if p == |k.procs| || !AwaitsChild(k.procs[p].value, child) then k
      else
        var parent := k.procs[p].value.(childWait := None);
        var threads := Swept(k.threads, ThreadOf(parent.pid), UnwaitingThread);
        if parent.state == Blocked && !readyOk then k.(procs := k.procs[p := Some(parent)], threads := threads)
        else
          var state := if parent.state == Blocked then Ready else parent.state;
          k.(procs := k.procs[p := Some(parent.(state := state))], threads := Woken(threads, parent.pid, wakes).0)
  }

  function Exit(k: KernelState, pid: ProcessId, status: int, readyOk: bool, wakes: ThreadId -> bool): KernelState
    requires |k.queues| == |k.procs|
  {
    var i := Locate(k.procs, pid);
    if i == |k.procs| || k.procs[i].value.state == Zombie then k
    else ParentWoken(Buried(k, i, status), i, readyOk, wakes)
  }

  /** `decode_child_wait_selector`. */
  function DecodeSelector(selector: int, group: nat): Selector {
    if selector == -1 then AnyChild
    else if selector == 0 then Group(group)
    else if selector > 0 then OneChild(selector)
    else Group(-selector)
  }

  function ChildMatching(parent: ProcessId, selector: Selector): Option<Pcb> -> bool {
    (slot: Option<Pcb>) =>
      slot.Some? && slot.value.parent == Some(parent) && selector.Matches(slot.value.pid, slot.value.group)
  }

  function ZombieMatching(parent: ProcessId, selector: Selector): Option<Pcb> -> bool {
    (slot: Option<Pcb>) =>
      && slot.Some? && slot.value.parent == Some(parent) && selector.Matches(slot.value.pid, slot.value.group)
      && slot.value.state == Zombie
  }

  datatype WaitOutcome = Reaped(pid: ProcessId, status: int) | Fault | StillRunning | Waiting | NoChild

  /** `record_child_wait`. */
  function Waits(k: KernelState, i: nat, thread: Option<ThreadId>, selector: Selector, blockOk: bool): KernelState
    requires i < |k.procs| && k.procs[i].Some?
  {
    var p := k.procs[i].value;
    var t := if thread.Some? then LocateThread(k.threads, thread.value) else |k.threads|;
    var threads := if thread.None? then Swept(k.threads, ThreadOf(p.pid), BlockedThread)
                   else if t == |k.threads| then k.threads
                   else k.threads[t := Some(k.threads[t].value.(childWait := Some(selector), state := ThreadBlocked))];
    Suspended(k.(procs := k.procs[i := Some(p.(childWait := Some(selector)))], threads := threads), p.pid, i, blockOk)
  }

  /** `clear_child_wait`. */
  function WaitCleared(k: KernelState, parent: ProcessId, thread: Option<ThreadId>): KernelState {
    var i := Locate(k.procs, parent);
    var t := if thread.Some? then LocateThread(k.threads, thread.value) else |k.threads|;
    k.(procs := if i == |k.procs| then k.procs else k.procs[i := Some(k.procs[i].value.(childWait := None))],
       threads := if thread.None? then Swept(k.threads, ThreadOf(parent), UnwaitingThread)
                  else if t == |k.threads| then k.threads
                  else k.threads[t := Some(k.threads[t].value.(childWait := None))])
  }

  /** `wait_for_child`. */
  function Wait(k: KernelState, parent: ProcessId, thread: Option<ThreadId>, selector: int,
                writeOk: bool, noHang: bool, blockOk: bool): (KernelState, WaitOutcome)
  {
    var i := Locate(k.procs, parent);
    if i == |k.procs| then (k, NoChild)
    else
      var sel := DecodeSelector(selector, k.procs[i].value.group);
      var z := First(k.procs, ZombieMatching(parent, sel));
      if z < |k.procs| then
        var child := k.procs[z].value;
        if !writeOk then (k, Fault)
        else
          var cleared := WaitCleared(k, parent, thread);
          (cleared.(procs := cleared.procs[z := None], security := RevokeTask(k.security, child.pid)),
           Reaped(child.pid, if child.exitStatus.Some? then child.exitStatus.value else 0))
      else if First(k.procs, ChildMatching(parent, sel)) == |k.procs| then (k, NoChild)
      else if noHang then (k, StillRunning)
      else (Waits(k, i, thread, sel, blockOk), Waiting)
  }

  // ---------------------------------------------------------------------
  // Descriptors
  // ---------------------------------------------------------------------

  function WithFiles(procs: Procs, i: nat, files: Files): Procs
    requires i < |procs| && procs[i].Some?
  {
    procs[i := Some(procs[i].value.(files := files))]
  }

  /** `open_at_or_above`: the first free descriptor from `low` on. */
  function FreeFrom(files: Files, low: nat): (fd: nat)
    ensures fd < |files| ==> low <= fd && files[fd].None?
  {
    if low >= |files| then |files| else low + First(files[low..], FreeDescriptor)
  }

  /** `syscall_openat` once the file system has opened the file. */
  function Open(k: KernelState, pid: ProcessId, closeOnExec: bool): (KernelState, Option<nat>) {
    var i, d := Locate(k.procs, pid), First(k.counts, FreeCount);
    if i == |k.procs| || d == |k.counts| then (k, None)
    else
      var files := k.procs[i].value.files;
      var fd := FreeFrom(files, 0);
      if fd >= |files| then (k.(counts := CloseOne(k.counts[d := Some(1)], d)), None)
      else
        (k.(counts := k.counts[d := Some(1)],
            procs := WithFiles(k.procs, i, files[fd := Some(Descriptor(d, closeOnExec))])), Some(fd))
  }

  predicate HoldsFd(k: KernelState, i: nat, fd: nat) {
    i < |k.procs| && k.procs[i].Some? && fd < |k.procs[i].value.files| && k.procs[i].value.files[fd].Some?
  }

  /** `syscall_close`. */
  function Close(k: KernelState, pid: ProcessId, fd: nat): (KernelState, bool) {
    var i := Locate(k.procs, pid);
    if !HoldsFd(k, i, fd) then (k, false)
    else
      var files := k.procs[i].value.files;
      (k.(procs := WithFiles(k.procs, i, files[fd := None]), counts := CloseOne(k.counts, files[fd].value.description)),
       true)
  }

  /** `duplicate_fd`. */
  function Duplicate(k: KernelState, pid: ProcessId, oldFd: nat, low: nat, closeOnExec: bool)
    : (KernelState, Option<nat>) {
    var i := Locate(k.procs, pid);
    if !HoldsFd(k, i, oldFd) || !IsOpen(k.counts, k.procs[i].value.files[oldFd].value.description) then (k, None)
    else
      var files := k.procs[i].value.files;
      var d := files[oldFd].value.description;
      var counts := Increment(k.counts, d);
      var fd := FreeFrom(files, low);
      if fd >= |files| then (k.(counts := CloseOne(counts, d)), None)
      else (k.(counts := counts, procs := WithFiles(k.procs, i, files[fd := Some(Descriptor(d, closeOnExec))])),
            Some(fd))
  }

  /** `duplicate_fd_to`. */
  function DuplicateTo(k: KernelState, pid: ProcessId, oldFd: nat, newFd: nat, closeOnExec: bool, rejectSame: bool)
    : (KernelState, bool)
  {
    var i := Locate(k.procs, pid);
    if !HoldsFd(k, i, oldFd) then (k, false)
    else if oldFd == newFd then (k, !rejectSame)
    else
      var files := k.procs[i].value.files;
      var d := files[oldFd].value.description;
      if !IsOpen(k.counts, d) then (k, false)
      else
        var counts := Increment(k.counts, d);
        if newFd >= |files| then (k.(counts := CloseOne(counts, d)), false)
        else
          var procs := WithFiles(k.procs, i, files[newFd := Some(Descriptor(d, closeOnExec))]);
          (k.(procs := procs, counts := if files[newFd].Some? then CloseOne(counts, files[newFd].value.description)
              else counts),
           files[newFd].Some? ==> IsOpen(counts, files[newFd].value.description))
  }

  function NamesClosed(counts: Counts): Option<Descriptor> -> bool {
    (slot: Option<Descriptor>) => slot.Some? && !IsOpen(counts, slot.value.description)
  }

  /** `inherit_process_file_table`: one more reference for every slot, or none at all. */
  function Inherit(counts: Counts, files: Files): (Counts, bool) {
    var bad := First(files, NamesClosed(counts));
    if bad == |files| then (Raise(counts, files), true)
    else (Drop(Raise(counts, files[..bad]), files[..bad]), false)
  }

  /** `ensure_console_descriptor`. */
  function Console(counts: Counts, files: Files, fd: nat): (Counts, Files, bool)
    requires fd < |files|
  {
    var d := First(counts, FreeCount);
    if files[fd].Some? then (counts, files, true)
    else if d == |counts| then (counts, files, false)
    else (counts[d := Some(1)], files[fd := Some(Descriptor(d, false))], true)
  }

  function Consoles(counts: Counts, files: Files): (Counts, Files, bool)
    requires 2 < |files|
  {
    var (c, f, ok) := Console(counts, files, 1);
    if ok then Console(c, f, 2) else (c, f, false)
  }

  // ---------------------------------------------------------------------
  // Threads
  // ---------------------------------------------------------------------

  /** `update_process_thread_count`. */
  function Counted(procs: Procs, pid: ProcessId, up: bool): Procs {
    var i := Locate(procs, pid);
    if i == |procs| then procs
    else
      var p := procs[i].value;
      procs[i := Some(p.(threadCount := if up then SaturatingInc(p.threadCount) else SaturatingSub(p.threadCount, 1)))]
  }

  /** `create_thread`. */
  function CreateThread(k: KernelState, pid: ProcessId): (KernelState, Option<ThreadId>) {
    var slot := First(k.threads, FreeThread);
    if slot == |k.threads| then (k, None)
    else
      (k.(threads := k.threads[slot := Some(Tcb(k.nextThread, pid, ThreadReady, None))],
          nextThread := k.nextThread + 1,
          procs := Counted(k.procs, pid, true)), Some(k.nextThread))
  }

  /** `terminate_thread` and `rollback_thread_creation`. */
  function RemoveThread(k: KernelState, id: ThreadId): KernelState {
    var t := LocateThread(k.threads, id);
    if t == |k.threads| then k
    else k.(threads := k.threads[t := None], procs := Counted(k.procs, k.threads[t].value.process, false))
  }

  // ---------------------------------------------------------------------
  // Creating tasks
  // ---------------------------------------------------------------------

  /** The new block before any table is touched, and the counts it holds by then. */
  datatype Prepared = Prepared(counts: Counts, pcb: Option<Pcb>)

  function NewPcb(pid: ProcessId, parent: Option<ProcessId>, group: nat, root: nat, files: Files): Pcb {
    Pcb(pid, parent, group, Ready, root, 0, None, files, None)
  }

  function WithConsoles(counts: Counts, pcb: Pcb): Prepared
    requires 2 < |pcb.files|
  {
    var (c, f, ok) := Consoles(counts, pcb.files);
    if ok then Prepared(c, Some(pcb.(files := f))) else Prepared(Drop(c, f), None)
  }

  /** What the memory manager answers when asked to copy, or to share, the parent's address space. */
  datatype Space = Copied(answer: Option<nat>) | Shared(answer: Option<nat>)

  /** `create_process_task` only ever copies. */
  function Copying(space: Space): Space {
    Copied(space.answer)
  }

  /** There is nothing to copy from a process without an address space, but sharing it fails. */
  predicate NoSpace(root: nat, space: Space) {
    match space
    case Copied(answer) => root != 0 && answer.None?
    case Shared(answer) => root == 0 || answer.None?
  }

  function RootOf(root: nat, space: Space): nat {
    match space
    case Copied(answer) => if root == 0 || answer.None? then 0 else answer.value
    case Shared(_) => root
  }

  /** Every process has a descriptor table of the fixed size. */
  ghost predicate TablesOk(procs: Procs) {
    forall i :: 0 <= i < |procs| && procs[i].Some? ==> |procs[i].value.files| == MAX_OPEN_FILES
  }


  /**
   * The first half of `create_process_task`. Retained descriptors are not given
   * back when the address space cannot be cloned.
   */
  function Prepare(k: KernelState, parent: Option<ProcessId>, cloned: Space): Prepared
    requires TablesOk(k.procs)
  {
    if parent.None? then WithConsoles(k.counts, NewPcb(k.nextPid, None, k.nextPid, 0, NoFiles()))
    else
      var i := Locate(k.procs, parent.value);
      if i == |k.procs| then Prepared(k.counts, None)
      else
        var p := k.procs[i].value;
        var (counts, ok) := Inherit(k.counts, p.files);
        if !ok || NoSpace(p.root, Copying(cloned)) then Prepared(counts, None)
        else WithConsoles(counts, NewPcb(k.nextPid, parent, p.group, RootOf(p.root, Copying(cloned)), p.files))
  }

  /** The first half of `create_cloned_process_shell`: consoles first, then the address space. */
  function PrepareShell(k: KernelState, caller: ProcessId, cloned: Space): Prepared
    requires TablesOk(k.procs)
  {
    var i := Locate(k.procs, caller);
    if i == |k.procs| then Prepared(k.counts, None)
    else
      var p := k.procs[i].value;
      var (counts, ok) := Inherit(k.counts, p.files);
      if !ok then Prepared(counts, None)
      else
        var prepared := WithConsoles(counts, NewPcb(k.nextPid, Some(caller), p.group, RootOf(p.root, cloned), p.files));
        if prepared.pcb.Some? && NoSpace(p.root, cloned) then Prepared(prepared.counts, None) else prepared
  }

  /** Register the task, hand it its parent's capabilities and enter it in `slot`. */
  function Enroll(k: KernelState, slot: nat, prepared: Prepared, creds: Credentials): (KernelState, bool)
    requires slot < |k.procs|
  {
    var k1 := k.(nextPid := k.nextPid + 1, counts := prepared.counts);
    if prepared.pcb.None? then (k1, false)
    else
      var p := prepared.pcb.value;
      var (s1, r1) := Security.Apply(k.security, Security.Register(p.pid, creds));
      if r1.Err? then (k1.(security := s1, counts := Drop(prepared.counts, p.files)), false)
      else
        var (s2, r2) := if p.parent.None? then (s1, r1) else Security.Apply(s1, Security.Derive(p.parent.value, p.pid));
        if r2.Err? then
          (k1.(security := RevokeTask(s2, p.pid), counts := Drop(prepared.counts, p.files)), false)
        else (k1.(security := s2, procs := k.procs[slot := Some(p)]), true)
  }

  /** Take the process in `slot` back out. */
  function Withdrawn(k: KernelState, slot: nat): KernelState
    requires slot < |k.procs| && k.procs[slot].Some?
  {
    var p := k.procs[slot].value;
    k.(procs := k.procs[slot := None], counts := Drop(k.counts, p.files), security := RevokeTask(k.security, p.pid))
  }

  /** `rollback_process_shell`. */
  function RollbackShell(k: KernelState, pid: ProcessId): KernelState {
    var i := Locate(k.procs, pid);
    if i == |k.procs| then k else Withdrawn(k, i)
  }

  /** An enrolled process gets its first thread, or everything is taken back. */
  function Started(k: KernelState, pid: ProcessId, mtssOk: bool): (KernelState, Option<ThreadId>) {
    var (k1, thread) := CreateThread(k, pid);
    if thread.None? then (RollbackShell(k1, pid), None)
    else if !mtssOk then (RollbackShell(RemoveThread(k1, thread.value), pid), None)
    else (k1, thread)
  }

  function CreateFrom(k: KernelState, prepared: Prepared, creds: Credentials, mtssOk: bool)
    : (KernelState, Option<ProcessId>)
    requires First(k.procs, FreeProc) < |k.procs|
  {
    var (k1, ok) := Enroll(k, First(k.procs, FreeProc), prepared, creds);
    if !ok then (k1, None)
    else
      var (k2, thread) := Started(k1, k.nextPid, mtssOk);
      (k2, if thread.Some? then Some(k.nextPid) else None)
  }

  /** `create_process_task`. */
  function CreateTask(k: KernelState, parent: Option<ProcessId>, creds: Credentials, cloned: Space, mtssOk: bool)
    : (KernelState, Option<ProcessId>)
    requires TablesOk(k.procs)
  {
    if First(k.procs, FreeProc) == |k.procs| then (k, None)
    else CreateFrom(k, Prepare(k, parent, cloned), creds, mtssOk)
  }

  predicate MaySpawn(k: KernelState, parent: ProcessId, creds: Credentials) {
    var d := Security.DomainOf(k.security.domains, parent);
    Locate(k.procs, parent) < |k.procs| && d.Some? && Security.SpawnAllowed(d.value.creds, creds)
  }

  /** `spawn_task` and, with the parent's own credentials, `fork_task`. */
  function Spawn(k: KernelState, parent: Option<ProcessId>, creds: Credentials, cloned: Space, mtssOk: bool)
    : (KernelState, Option<ProcessId>)
    requires TablesOk(k.procs)
  {
    if parent.Some? && !MaySpawn(k, parent.value, creds) then (k, None)
    else CreateTask(k, parent, creds, cloned, mtssOk)
  }

  /** `spawn_loaded_task`: the image is loaded after the task exists. */
  function SpawnLoaded(k: KernelState, parent: ProcessId, creds: Credentials, cloned: Space, mtssOk: bool, loadOk: bool)
    : (KernelState, Option<ProcessId>)
    requires TablesOk(k.procs)
  {
    var (k1, child) := Spawn(k, Some(parent), creds, cloned, mtssOk);
    if child.Some? && !loadOk then (RollbackShell(k1, child.value), None) else (k1, child)
  }

  /** `clone_thread` with CLONE_THREAD: one more thread in the caller's own group. */
  function CloneThread(k: KernelState, caller: ProcessId, mtssOk: bool): (KernelState, Option<ThreadId>) {
    if Locate(k.procs, caller) == |k.procs| then (k, None)
    else
      var (k1, thread) := CreateThread(k, caller);
      if thread.Some? && !mtssOk then (RemoveThread(k1, thread.value), None) else (k1, thread)
  }

  /** `clone_thread` without CLONE_THREAD: a new process. */
  function CloneProcess(k: KernelState, caller: ProcessId, creds: Credentials, cloned: Space, mtssOk: bool)
    : (KernelState, Option<ProcessId>)
    requires TablesOk(k.procs)
  {
    if !MaySpawn(k, caller, creds) || First(k.procs, FreeProc) == |k.procs| then (k, None)
    else CreateFrom(k, PrepareShell(k, caller, cloned), creds, mtssOk)
  }

  // ---------------------------------------------------------------------
  // Exec
  // ---------------------------------------------------------------------

  predicate ClosesOnExec(slot: Option<Descriptor>) {
    slot.Some? && slot.value.closeOnExec
  }

  predicate KeptOnExec(slot: Option<Descriptor>) {
    !ClosesOnExec(slot)
  }

  function NoDescriptor(slot: Option<Descriptor>): Option<Descriptor> {
    None
  }

  function KeptFiles(files: Files): (r: Files)
    ensures |r| == |files|
  {
    Swept(files, ClosesOnExec, NoDescriptor)
  }

  function ClosedFiles(files: Files): (r: Files)
    ensures |r| == |files|
  {
    Swept(files, KeptOnExec, NoDescriptor)
  }

  function OtherThreadOf(pid: ProcessId, kept: Option<ThreadId>): Option<Tcb> -> bool {
    (slot: Option<Tcb>) => slot.Some? && slot.value.process == pid && Some(slot.value.id) != kept
  }

  /** The thread that carries the new image. */
  function KeptThread(threads: Threads, pid: ProcessId, current: Option<ThreadId>): Option<ThreadId> {
    var first := First(threads, ThreadOf(pid));
    if current.Some? then current
    else if first == |threads| then None
    else Some(threads[first].value.id)
  }

  /** `replace_process_image` up to the scheduler calls. */
  function Reimaged(k: KernelState, i: nat, current: Option<ThreadId>, root: nat): (KernelState, bool)
    requires i < |k.procs| && k.procs[i].Some?
  {
    var p := k.procs[i].value.(root := root, threadCount := 0);
    var kept := KeptThread(k.threads, p.pid, current);
    var k1 := k.(procs := k.procs[i := Some(p)], threads := Swept(k.threads, OtherThreadOf(p.pid, kept), GoneThread));
    if kept.Some? then
      var t := LocateThread(k1.threads, kept.value);
      if t == |k1.threads| then (k1, false)
      else
        (k1.(procs := k.procs[i := Some(p.(threadCount := 1))],
             threads := k1.threads[t := Some(k1.threads[t].value.(state := ThreadReady))]), true)
    else
      var (k2, thread) := CreateThread(k1, p.pid);
      if thread.None? then (k2, false)
      else (k2.(procs := k.procs[i := Some(p.(threadCount := 1))]), true)
  }

  /** `exec_task`. */
  function Exec(k: KernelState, request: Security.ExecRequest, current: Option<ThreadId>, root: nat,
                mtssOk: bool, readyOk: bool): (KernelState, bool)
  {
    var d := Security.DomainOf(k.security.domains, request.caller);
    var i := Locate(k.procs, request.caller);
    if d.None? || !Security.ExecAllowed(d.value.creds, request) || i == |k.procs| then (k, false)
    else
      var files := k.procs[i].value.files;
      var k1 := k.(procs := WithFiles(k.procs, i, KeptFiles(files)), counts := Drop(k.counts, ClosedFiles(files)));
      var (k2, replaced) := Reimaged(k1, i, current, root);
      if !replaced || !mtssOk || !readyOk then (k2, false)
      else
        var (s, r) := Security.Apply(k.security, Security.Register(request.caller, request.requested));
        (k2.(procs := WithState(k2.procs, i, Ready), security := s), r.Ok?)
  }
}
