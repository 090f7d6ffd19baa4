/** Every step keeps the reference counts in balance with the descriptor slots. */
module KernelFileSteps {
  import opened Prelude
  import opened Tables
  import opened Labels
  import Security
  import opened Descriptors
  import opened KernelSteps
  import opened KernelIds
  import opened KernelFrame
  import opened KernelFiles
  import opened KernelCreate

  ghost predicate Empty(files: Files) {
    forall fd :: 0 <= fd < |files| ==> files[fd].None?
  }

  /** A process that has exited holds no descriptor. */
  ghost predicate ZombiesEmpty(procs: Procs) {
    forall i :: 0 <= i < |procs| && procs[i].Some? && procs[i].value.state == Zombie ==> Empty(procs[i].value.files)
  }

  ghost predicate FilesInvariant(k: KernelState, claim: Claim) {
    && |k.queues| == |k.procs| <= MAX_PROCESSES && TablesOk(k.procs)
    && Balanced(k.procs, [], k.counts, claim) && ZombiesEmpty(k.procs)
  }

  /** Nothing about descriptors changes. */
  lemma SameFilesKeep(k: KernelState, k2: KernelState, claim: Claim)
    requires FilesInvariant(k, claim) && SameLife(k.procs, k2.procs) && SameFiles(k.procs, k2.procs)
    requires k2.counts == k.counts && |k2.queues| == |k2.procs|
    ensures FilesInvariant(k2, claim)
  {
    hide Balanced;
    SameFilesBalance(k.procs, k2.procs, [], k.counts, claim);
  }

  /** The files of one live process change and the counts with them. */
  lemma RefileKeeps(k: KernelState, i: nat, files: Files, counts: Counts, claim: Claim)
    requires FilesInvariant(k, claim) && LiveAt(k.procs, i) && |files| == MAX_OPEN_FILES
    requires Balanced(k.procs[i := None], files, counts, claim)
    ensures FilesInvariant(k.(procs := WithFiles(k.procs, i, files), counts := counts), claim)
  {
    hide Balanced;
    var p := k.procs[i].value.(files := files);
    PutIn(k.procs[i := None], i, p, counts, claim);
    assert k.procs[i := None][i := Some(p)] == k.procs[i := Some(p)];
  }

  lemma OpenKeeps(k: KernelState, pid: ProcessId, closeOnExec: bool, claim: Claim)
    requires FilesInvariant(k, claim) && LiveCaller(k, pid)
    ensures FilesInvariant(Open(k, pid, closeOnExec).0, claim)
  {
    hide Balanced, First, FreeFrom, ZombiesEmpty;
    var i, d := Locate(k.procs, pid), First(k.counts, FreeCount);
    if i < |k.procs| && d < |k.counts| {
      var files := k.procs[i].value.files;
      var fd := FreeFrom(files, 0);
      if fd < |files| {
        var slot := Descriptor(d, closeOnExec);
        TakeOut(k.procs, [], i, k.counts, claim);
        InsertBalances(k.procs[i := None], files, fd, slot, k.counts, claim);
        RefileKeeps(k, i, files[fd := Some(slot)], k.counts[d := Some(1)], claim);
      } else {
        assert CloseOne(k.counts[d := Some(1)], d) == k.counts;
      }
    }
  }

  lemma CloseKeeps(k: KernelState, pid: ProcessId, fd: nat, claim: Claim)
    requires FilesInvariant(k, claim)
    ensures FilesInvariant(Close(k, pid, fd).0, claim)
  {
    var i := Locate(k.procs, pid);
    if HoldsFd(k, i, fd) {
      var files := k.procs[i].value.files;
      HolderIsLive(k, i, fd, claim);
      hide Balanced, First, ZombiesEmpty, CloseOne;
      TakeOut(k.procs, [], i, k.counts, claim);
      CloseBalances(k.procs[i := None], files, fd, k.counts, claim);
      RefileKeeps(k, i, files[fd := None], CloseOne(k.counts, files[fd].value.description), claim);
    }
  }

  lemma HolderIsLive(k: KernelState, i: nat, fd: nat, claim: Claim)
    requires FilesInvariant(k, claim) && HoldsFd(k, i, fd)
    ensures LiveAt(k.procs, i) && IsOpen(k.counts, k.procs[i].value.files[fd].value.description)
  {
    NamedIsOpen(k.procs, [], k.counts, claim, i, fd);
    hide Balanced;
    assert k.procs[i].value.state == Zombie ==> Empty(k.procs[i].value.files);
  }

  lemma DuplicateKeeps(k: KernelState, pid: ProcessId, oldFd: nat, low: nat, closeOnExec: bool, claim: Claim)
    requires FilesInvariant(k, claim)
    ensures FilesInvariant(Duplicate(k, pid, oldFd, low, closeOnExec).0, claim)
  {
    var i := Locate(k.procs, pid);
    if HoldsFd(k, i, oldFd) {
      HolderIsLive(k, i, oldFd, claim);
      hide Balanced, First, FreeFrom, ZombiesEmpty, CloseOne, Increment;
      var files := k.procs[i].value.files;
      var d := files[oldFd].value.description;
      var fd := FreeFrom(files, low);
      if fd < |files| {
        TakeOut(k.procs, [], i, k.counts, claim);
        assert TablesOk(k.procs[i := None]);
        DuplicateBalances(k.procs[i := None], files, oldFd, fd, closeOnExec, k.counts, claim);
        RefileKeeps(k, i, files[fd := Some(Descriptor(d, closeOnExec))], Increment(k.counts, d), claim);
      } else {
        RetryBalances(k.procs, k.counts, claim, d);
      }
    }
  }

  lemma DuplicateToKeeps(k: KernelState, pid: ProcessId, oldFd: nat, newFd: nat, closeOnExec: bool, reject: bool,
                         claim: Claim)
    requires FilesInvariant(k, claim)
    ensures FilesInvariant(DuplicateTo(k, pid, oldFd, newFd, closeOnExec, reject).0, claim)
  {
    var i := Locate(k.procs, pid);
    if HoldsFd(k, i, oldFd) && oldFd != newFd {
      HolderIsLive(k, i, oldFd, claim);
      hide Balanced, First, ZombiesEmpty, CloseOne, Increment;
      var files := k.procs[i].value.files;
      var d := files[oldFd].value.description;
      if newFd < |files| {
        TakeOut(k.procs, [], i, k.counts, claim);
        assert TablesOk(k.procs[i := None]);
        DuplicateBalances(k.procs[i := None], files, oldFd, newFd, closeOnExec, k.counts, claim);
        var counts := Increment(k.counts, d);
        RefileKeeps(k, i, files[newFd := Some(Descriptor(d, closeOnExec))],
                    if files[newFd].Some? then CloseOne(counts, files[newFd].value.description) else counts, claim);
      } else {
        RetryBalances(k.procs, k.counts, claim, d);
      }
    }
  }

  lemma EmptyHand(procs: Procs, files: Files, counts: Counts, claim: Claim)
    requires Empty(files)
    ensures Balanced(procs, files, counts, claim) <==> Balanced(procs, [], counts, claim)
  {
    hide Sum, RefsIn;
    forall d | 0 <= d
      ensures Refs(procs, files, d) == Refs(procs, [], d)
    {
      RefsInEmpty(files, d);
      RefsInNone(d);
    }
  }

  lemma BuriedKeeps(k: KernelState, i: nat, status: int, claim: Claim)
    requires FilesInvariant(k, claim) && i < |k.procs| && k.procs[i].Some?
    ensures FilesInvariant(Buried(k, i, status), claim)
  {
    hide Balanced, Swept, RevokeTask, Drop;
    var p := k.procs[i].value;
    var dead := Dead(p, status);
    TakeOut(k.procs, [], i, k.counts, claim);
    DropAllBalances(k.procs[i := None], p.files, k.counts, claim);
    EmptyHand(k.procs[i := None], dead.files, Drop(k.counts, p.files), claim);
    PutIn(k.procs[i := None], i, dead, Drop(k.counts, p.files), claim);
    assert k.procs[i := None][i := Some(dead)] == k.procs[i := Some(dead)];
  }

  lemma ExitKeeps(k: KernelState, pid: ProcessId, status: int, readyOk: bool, wakes: ThreadId -> bool, claim: Claim)
    requires FilesInvariant(k, claim)
    ensures FilesInvariant(Exit(k, pid, status, readyOk, wakes), claim)
  {
    hide FilesInvariant, First, ParentWoken, Buried;
    FilesShape(k, claim);
    var i := Locate(k.procs, pid);
    if i < |k.procs| && k.procs[i].value.state != Zombie {
      var b := Buried(k, i, status);
      BuriedKeeps(k, i, status, claim);
      BuriedSlot(k, i, status);
      ParentWokenFrame(b, i, readyOk, wakes);
      ParentWokenRest(b, i, readyOk, wakes);
      SameFilesKeep(b, ParentWoken(b, i, readyOk, wakes), claim);
    }
  }

  lemma FilesShape(k: KernelState, claim: Claim)
    requires FilesInvariant(k, claim)
    ensures |k.queues| == |k.procs| && TablesOk(k.procs)
  {
  }

  lemma BuriedSlot(k: KernelState, i: nat, status: int)
    requires i < |k.procs| == |k.queues| && k.procs[i].Some?
    ensures Buried(k, i, status).procs == k.procs[i := Some(Dead(k.procs[i].value, status))]
    ensures |Buried(k, i, status).queues| == |k.queues|
  {
  }

  lemma ParentWokenRest(k: KernelState, i: nat, readyOk: bool, wakes: ThreadId -> bool)
    requires i < |k.procs| && k.procs[i].Some?
    ensures ParentWoken(k, i, readyOk, wakes)
            == k.(procs := ParentWoken(k, i, readyOk, wakes).procs,
                  threads := ParentWoken(k, i, readyOk, wakes).threads)
  {
    hide First, Swept, Woken;
  }

  lemma WaitKeeps(k: KernelState, parent: ProcessId, thread: Option<ThreadId>, selector: int,
                  writeOk: bool, noHang: bool, blockOk: bool, claim: Claim)
    requires FilesInvariant(k, claim) && LiveCaller(k, parent)
    ensures FilesInvariant(Wait(k, parent, thread, selector, writeOk, noHang, blockOk).0, claim)
  {
    var (k2, r) := Wait(k, parent, thread, selector, writeOk, noHang, blockOk);
    WaitFrame(k, parent, thread, selector, writeOk, noHang, blockOk);
    if r.Reaped? {
      ReapKeeps(k, parent, thread, selector, writeOk, noHang, blockOk, claim);
    } else {
      WaitRest(k, parent, thread, selector, writeOk, noHang, blockOk);
      SameFilesKeep(k, k2, claim);
    }
  }

  lemma WaitRest(k: KernelState, parent: ProcessId, thread: Option<ThreadId>, selector: int,
                 writeOk: bool, noHang: bool, blockOk: bool)
    ensures var k2 := Wait(k, parent, thread, selector, writeOk, noHang, blockOk).0;
            k2 == k.(procs := k2.procs, threads := k2.threads, security := k2.security)
  {
    hide First, Swept, LocateThread, RevokeTask;
  }

  /** The process table after a successful wait: the child gone, the parent no longer waiting. */
  lemma ReapedTable(k: KernelState, parent: ProcessId, thread: Option<ThreadId>, selector: int,
                    writeOk: bool, noHang: bool, blockOk: bool)
    requires Wait(k, parent, thread, selector, writeOk, noHang, blockOk).1.Reaped?
    ensures var (k2, r) := Wait(k, parent, thread, selector, writeOk, noHang, blockOk);
            var i := Locate(k.procs, parent);
            && i < |k.procs|
            && (var z := First(k.procs, ZombieMatching(parent, DecodeSelector(selector, k.procs[i].value.group)));
                && z < |k.procs|
                && k2.procs == k.procs[i := Some(k.procs[i].value.(childWait := None))][z := None]
                && k2.security == RevokeTask(k.security, k.procs[z].value.pid)
                && r == Reaped(k.procs[z].value.pid, if k.procs[z].value.exitStatus.Some?
                               then k.procs[z].value.exitStatus.value else 0))
  {
    hide First, Swept, LocateThread, RevokeTask;
  }

  lemma ReapKeeps(k: KernelState, parent: ProcessId, thread: Option<ThreadId>, selector: int,
                  writeOk: bool, noHang: bool, blockOk: bool, claim: Claim)
    requires FilesInvariant(k, claim) && Wait(k, parent, thread, selector, writeOk, noHang, blockOk).1.Reaped?
    ensures FilesInvariant(Wait(k, parent, thread, selector, writeOk, noHang, blockOk).0, claim)
  {
    ReapedTable(k, parent, thread, selector, writeOk, noHang, blockOk);
    WaitRest(k, parent, thread, selector, writeOk, noHang, blockOk);
    var i := Locate(k.procs, parent);
    var z := First(k.procs, ZombieMatching(parent, DecodeSelector(selector, k.procs[i].value.group)));
    hide Balanced, First, Wait;
    var cleared := k.(procs := k.procs[i := Some(k.procs[i].value.(childWait := None))]);
    SlotFrame(k.procs, i, k.procs[i].value.(childWait := None));
    SameFilesKeep(k, cleared, claim);
    assert Empty(cleared.procs[z].value.files);
    TakeOut(cleared.procs, [], z, k.counts, claim);
    EmptyHand(cleared.procs[z := None], cleared.procs[z].value.files, k.counts, claim);
  }

  // ---------------------------------------------------------------------
  // Creating tasks
  // ---------------------------------------------------------------------

  ghost predicate AllOpen(counts: Counts, files: Files) {
    forall fd :: 0 <= fd < |files| && files[fd].Some? ==> IsOpen(counts, files[fd].value.description)
  }

  /** A console slot is filled with a fresh description, which releasing the table closes again. */
  lemma ConsoleBalances(procs: Procs, counts: Counts, files: Files, fd: nat, claim: Claim)
    requires Balanced(procs, files, counts, claim) && fd < |files| && AllOpen(counts, files)
    ensures var (c, f, ok) := Console(counts, files, fd);
            && Balanced(procs, f, c, claim) && |f| == |files| && AllOpen(c, f)
            && Drop(c, f) == Drop(counts, files)
  {
    hide Balanced, First, RefsIn, Drop;
    var d := First(counts, FreeCount);
    if files[fd].None? && d < |counts| {
      var slot := Descriptor(d, false);
      InsertBalances(procs, files, fd, slot, counts, claim);
      var c, f := counts[d := Some(1)], files[fd := Some(slot)];
      var before, after := Drop(counts, files), Drop(c, f);
      forall e | 0 <= e < |counts|
        ensures after[e] == before[e]
      {
        RefsInUpdate(files, fd, Some(slot), e);
        if e == d {
          UnnamedHasNoRefs(files, d);
        }
      }
    }
  }

  lemma WithConsolesBalances(procs: Procs, counts: Counts, pcb: Pcb, claim: Claim)
    requires Balanced(procs, pcb.files, counts, claim) && |pcb.files| == MAX_OPEN_FILES && AllOpen(counts, pcb.files)
    ensures var r := WithConsoles(counts, pcb);
            && (r.pcb.None? ==> r.counts == Drop(counts, pcb.files) && Balanced(procs, [], r.counts, claim))
            && (r.pcb.Some? ==> var p := r.pcb.value;
                                && p == pcb.(files := p.files) && |p.files| == MAX_OPEN_FILES
                                && Balanced(procs, p.files, r.counts, claim)
                                && Drop(r.counts, p.files) == Drop(counts, pcb.files))
  {
    hide Balanced, Console, Drop, AllOpen;
    var (c, f, ok) := Console(counts, pcb.files, 1);
    ConsoleBalances(procs, counts, pcb.files, 1, claim);
    if ok {
      ConsoleBalances(procs, c, f, 2, claim);
    }
    var (c2, f2, ok2) := Consoles(counts, pcb.files);
    if !ok2 {
      DropAllBalances(procs, f2, c2, claim);
    }
  }

  lemma InheritBalances(k: KernelState, i: nat, claim: Claim)
    requires FilesInvariant(k, claim) && i < |k.procs| && k.procs[i].Some?
    ensures var files := k.procs[i].value.files;
            && Inherit(k.counts, files) == (Raise(k.counts, files), true)
            && Balanced(k.procs, files, Raise(k.counts, files), claim) && AllOpen(Raise(k.counts, files), files)
  {
    hide Balanced, First, Raise, RefsIn;
    var files := k.procs[i].value.files;
    forall fd | 0 <= fd < |files| && files[fd].Some?
      ensures IsOpen(k.counts, files[fd].value.description)
    {
      NamedIsOpen(k.procs, [], k.counts, claim, i, fd);
    }
    FirstIs(files, NamesClosed(k.counts), |files|);
    RaiseBalances(k.procs, files, k.counts, claim);
  }

  /** The address space cannot be cloned although the descriptors were inherited. */
  predicate CloneFails(k: KernelState, parent: Option<ProcessId>, cloned: Space) {
    parent.Some? && Locate(k.procs, parent.value) < |k.procs|
    && NoSpace(k.procs[Locate(k.procs, parent.value)].value.root, cloned)
  }

  /** The descriptors a new task starts from. */
  function StartFiles(k: KernelState, parent: Option<ProcessId>): Files {
    if parent.None? || Locate(k.procs, parent.value) == |k.procs| then NoFiles()
    else k.procs[Locate(k.procs, parent.value)].value.files
  }

  /** There are descriptions left for the consoles a copy of the caller's table lacks. */
  predicate ConsolesFit(k: KernelState, caller: ProcessId) {
    var files := StartFiles(k, Some(caller));
    2 < |files| && Consoles(Raise(k.counts, files), files).2
  }

  /** `create_process_task` returns with references it retained and does not give back. */
  ghost predicate CopyLeaks(k: KernelState, parent: Option<ProcessId>, cloned: Space) {
    CloneFails(k, parent, Copying(cloned)) && !Empty(StartFiles(k, parent))
  }

  /** `create_cloned_process_shell` does; its consoles are among them. */
  ghost predicate ShellLeaks(k: KernelState, caller: ProcessId, cloned: Space) {
    CloneFails(k, Some(caller), cloned) && ConsolesFit(k, caller)
  }

  /** The task may be created and there is a slot for it. */
  predicate Creates(k: KernelState, parent: ProcessId, creds: Credentials) {
    MaySpawn(k, parent, creds) && FreeSlot(k) < |k.procs|
  }

  /** What `create_process_task` and `create_cloned_process_shell` hold when they have prepared a block. */
  ghost predicate PreparedWell(k: KernelState, parent: Option<ProcessId>, r: Prepared, claim: Claim) {
    && (r.pcb.None? ==> Balanced(k.procs, [], r.counts, claim))
    && (r.pcb.Some? ==> var p := r.pcb.value;
                        && p.pid == k.nextPid && p.threadCount == 0 && p.parent == parent && p.state == Ready
                        && p.childWait.None? && |p.files| == MAX_OPEN_FILES && p.exitStatus.None?
                        && Balanced(k.procs, p.files, r.counts, claim)
                        && (Drop(r.counts, p.files) == k.counts <==> Fits(k.counts, StartFiles(k, parent))))
  }

  lemma FreshBalances(k: KernelState, claim: Claim)
    requires FilesInvariant(k, claim)
    ensures Balanced(k.procs, NoFiles(), k.counts, claim) && AllOpen(k.counts, NoFiles())
    ensures Drop(k.counts, NoFiles()) == k.counts && Fits(k.counts, NoFiles())
  {
    hide Drop, RefsIn;
    EmptyHand(k.procs, NoFiles(), k.counts, claim);
    NothingMoves(k.counts, NoFiles());
    forall d | 0 <= d < |k.counts| && k.counts[d].Some?
      ensures k.counts[d].value + RefsIn(NoFiles(), d) <= U16_MAX
    {
      RefsInEmpty(NoFiles(), d);
      assert Small(k.counts[d]);
    }
  }

  lemma PrepareBalances(k: KernelState, parent: Option<ProcessId>, cloned: Space, claim: Claim)
    requires FilesInvariant(k, claim)
    ensures PreparedWell(k, parent, Prepare(k, parent, cloned), Unless(claim, CopyLeaks(k, parent, cloned)))
  {
    hide Balanced, First, Drop, Raise, Fits, WithConsoles, Inherit, NoFiles, AllOpen;
    if parent.None? {
      FreshBalances(k, claim);
      WithConsolesBalances(k.procs, k.counts, NewPcb(k.nextPid, None, k.nextPid, 0, NoFiles()), claim);
    } else {
      var i := Locate(k.procs, parent.value);
      if i < |k.procs| {
        var p := k.procs[i].value;
        InheritBalances(k, i, claim);
        if NoSpace(p.root, Copying(cloned)) {
          Leaked(k.procs, p.files, Raise(k.counts, p.files), claim);
          if Empty(p.files) {
            EmptyHand(k.procs, p.files, Raise(k.counts, p.files), claim);
          }
        } else {
          CountsAreOk(k.procs, [], k.counts, claim);
          DropUndoesRaise(k.counts, p.files);
          WithConsolesBalances(k.procs, Raise(k.counts, p.files),
                               NewPcb(k.nextPid, parent, p.group, RootOf(p.root, Copying(cloned)), p.files), claim);
        }
      }
    }
  }

  lemma ConsolesDecide(counts: Counts, pcb: Pcb)
    requires 2 < |pcb.files|
    ensures WithConsoles(counts, pcb).pcb.Some? <==> Consoles(counts, pcb.files).2
  {
    hide Console;
  }

  lemma PrepareShellBalances(k: KernelState, caller: ProcessId, cloned: Space, claim: Claim)
    requires FilesInvariant(k, claim)
    ensures PreparedWell(k, Some(caller), PrepareShell(k, caller, cloned),
                         Unless(claim, ShellLeaks(k, caller, cloned)))
  {
    hide Balanced, First, Drop, Raise, Fits, WithConsoles, Consoles, Inherit, AllOpen;
    var i := Locate(k.procs, caller);
    if i < |k.procs| {
      var p := k.procs[i].value;
      InheritBalances(k, i, claim);
      CountsAreOk(k.procs, [], k.counts, claim);
      DropUndoesRaise(k.counts, p.files);
      var pcb := NewPcb(k.nextPid, Some(caller), p.group, RootOf(p.root, cloned), p.files);
      WithConsolesBalances(k.procs, Raise(k.counts, p.files), pcb, claim);
      ConsolesDecide(Raise(k.counts, p.files), pcb);
      var r := WithConsoles(Raise(k.counts, p.files), pcb);
      if NoSpace(p.root, cloned) && r.pcb.Some? {
        Leaked(k.procs, r.pcb.value.files, r.counts, claim);
      }
    }
  }

  /** References that are never given back only make counts too large. */
  lemma Leaked(procs: Procs, files: Files, counts: Counts, claim: Claim)
    requires Balanced(procs, files, counts, claim)
    ensures Balanced(procs, [], counts, Unless(claim, true))
  {
    hide Sum, RefsIn;
    forall d | 0 <= d
      ensures Fair(Refs(procs, [], d), CountOf(counts, d), Unless(claim, true), d)
    {
      RefsInNone(d);
      assert Fair(Refs(procs, files, d), CountOf(counts, d), claim, d);
    }
  }

  /** And they do make the count of every description they name too large. */
  lemma Retained(procs: Procs, files: Files, counts: Counts, claim: Claim, fd: nat)
    requires Balanced(procs, files, counts, claim) && fd < |files| && files[fd].Some?
    ensures Balanced(procs, [], counts, Above(files[fd].value.description))
  {
    hide Sum, RefsIn;
    RefsInPositive(files, fd);
    forall d | 0 <= d
      ensures Fair(Refs(procs, [], d), CountOf(counts, d), Above(files[fd].value.description), d)
    {
      RefsInNone(d);
      assert Fair(Refs(procs, files, d), CountOf(counts, d), claim, d);
    }
  }

  lemma AboveIsNotExact(k: KernelState, d: nat)
    requires FilesInvariant(k, Above(d))
    ensures !FilesInvariant(k, Exact)
  {
    hide Refs, CountOf;
    assert Fair(Refs(k.procs, [], d), CountOf(k.counts, d), Above(d), d);
    assert !Fair(Refs(k.procs, [], d), CountOf(k.counts, d), Exact, d);
  }

  lemma CountsAreOk(procs: Procs, files: Files, counts: Counts, claim: Claim)
    requires Balanced(procs, files, counts, claim)
    ensures CountsOk(counts)
  {
  }

  lemma BalancedKeeps(k: KernelState, k2: KernelState, claim: Claim, claim2: Claim)
    requires FilesInvariant(k, claim) && k2.procs == k.procs && k2.queues == k.queues
    requires Balanced(k2.procs, [], k2.counts, claim2)
    ensures FilesInvariant(k2, claim2)
  {
  }

  lemma CreateKeeps(k: KernelState, parent: Option<ProcessId>, prepared: Prepared, creds: Credentials, mtssOk: bool,
                    claim: Claim, claim2: Claim)
    requires FilesInvariant(k, claim) && PreparedWell(k, parent, prepared, claim2) && FreeSlot(k) < |k.procs|
    requires ProcIds(k.procs, k.nextPid) && ThreadIds(k.threads, k.nextThread) && Security.Below(k.security, k.nextPid)
    ensures FilesInvariant(CreateFrom(k, prepared, creds, mtssOk).0, claim2)
  {
    var (k2, created) := CreateFrom(k, prepared, creds, mtssOk);
    CreateFromOutcome(k, prepared, creds, mtssOk);
    hide Balanced, First, Drop, CreateFrom, Joined, RegisterOk, FilesInvariant, ProcIds, ThreadIds, Security.Below;
    if prepared.pcb.None? {
      BalancedKeeps(k, k2, claim, claim2);
    } else if created.None? {
      DropAllBalances(k.procs, prepared.pcb.value.files, prepared.counts, claim2);
      BalancedKeeps(k, k2, claim, claim2);
    } else {
      EnteredKeeps(k, k2, FreeSlot(k), prepared.pcb.value.(threadCount := 1), claim, claim2);
    }
  }

  lemma EnteredKeeps(k: KernelState, k2: KernelState, slot: nat, p: Pcb, claim: Claim, claim2: Claim)
    requires FilesInvariant(k, claim) && slot < |k.procs| && k.procs[slot].None?
    requires k2.procs == k.procs[slot := Some(p)] && k2.queues == k.queues
    requires |p.files| == MAX_OPEN_FILES && p.state != Zombie && Balanced(k.procs, p.files, k2.counts, claim2)
    ensures FilesInvariant(k2, claim2)
  {
    hide Balanced;
    PutIn(k.procs, slot, p, k2.counts, claim2);
  }

  lemma RollbackShellKeeps(k: KernelState, pid: ProcessId, claim: Claim)
    requires FilesInvariant(k, claim)
    ensures FilesInvariant(RollbackShell(k, pid), claim)
  {
    hide Balanced, First, Drop, RevokeTask;
    var i := Locate(k.procs, pid);
    if i < |k.procs| {
      TakeOut(k.procs, [], i, k.counts, claim);
      DropAllBalances(k.procs[i := None], k.procs[i].value.files, k.counts, claim);
    }
  }

  /** Spawning leaks. */
  ghost predicate SpawnLeaks(k: KernelState, parent: Option<ProcessId>, creds: Credentials, cloned: Space) {
    parent.Some? && Creates(k, parent.value, creds) && CopyLeaks(k, parent, cloned)
  }

  lemma SpawnKeeps(k: KernelState, parent: Option<ProcessId>, creds: Credentials, cloned: Space, mtssOk: bool,
                   claim: Claim)
    requires FilesInvariant(k, claim)
    requires ProcIds(k.procs, k.nextPid) && ThreadIds(k.threads, k.nextThread) && Security.Below(k.security, k.nextPid)
    ensures FilesInvariant(Spawn(k, parent, creds, cloned, mtssOk).0,
                           Unless(claim, SpawnLeaks(k, parent, creds, cloned)))
  {
    hide FilesInvariant, PreparedWell, CreateFrom, First, MaySpawn, Prepare, CopyLeaks;
    FilesShape(k, claim);
    PrepareBalances(k, parent, cloned, claim);
    var claim2 := Unless(claim, CopyLeaks(k, parent, cloned));
    if FreeSlot(k) < |k.procs| {
      CreateKeeps(k, parent, Prepare(k, parent, cloned), creds, mtssOk, claim, claim2);
    }
    if parent.None? {
      NothingToCopy(k, cloned);
    }
  }

  lemma NothingToCopy(k: KernelState, cloned: Space)
    ensures !CopyLeaks(k, None, cloned)
  {
  }

  /** A spawn that leaks leaves a description counted more often than it is named. */
  lemma SpawnLeavesOne(k: KernelState, parent: ProcessId, creds: Credentials, cloned: Space, mtssOk: bool,
                       claim: Claim)
    returns (d: nat)
    requires FilesInvariant(k, claim) && SpawnLeaks(k, Some(parent), creds, cloned)
    ensures TablesOk(k.procs) && Spawn(k, Some(parent), creds, cloned, mtssOk).1.None?
    ensures FilesInvariant(Spawn(k, Some(parent), creds, cloned, mtssOk).0, Above(d))
  {
    hide Balanced, First, Raise, Inherit, MaySpawn, ZombiesEmpty, AllOpen, Security.Apply, Drop;
    var i := Locate(k.procs, parent);
    var files := k.procs[i].value.files;
    InheritBalances(k, i, claim);
    var fd :| 0 <= fd < |files| && files[fd].Some?;
    d := files[fd].value.description;
    Retained(k.procs, files, Raise(k.counts, files), claim, fd);
  }

  lemma Weakened(k: KernelState, claim: Claim, claim2: Claim)
    requires FilesInvariant(k, claim) && (claim2.AtLeast? || claim2 == claim)
    ensures FilesInvariant(k, claim2)
  {
    hide Sum, RefsIn;
  }

  lemma CloneProcessKeeps(k: KernelState, caller: ProcessId, creds: Credentials, cloned: Space, mtssOk: bool,
                          claim: Claim)
    requires FilesInvariant(k, claim)
    requires ProcIds(k.procs, k.nextPid) && ThreadIds(k.threads, k.nextThread) && Security.Below(k.security, k.nextPid)
    ensures FilesInvariant(CloneProcess(k, caller, creds, cloned, mtssOk).0,
                           Unless(claim, Creates(k, caller, creds) && ShellLeaks(k, caller, cloned)))
  {
    hide FilesInvariant, PreparedWell, CreateFrom, First, MaySpawn, PrepareShell, ShellLeaks;
    FilesShape(k, claim);
    PrepareShellBalances(k, caller, cloned, claim);
    var claim2 := Unless(claim, ShellLeaks(k, caller, cloned));
    if FreeSlot(k) < |k.procs| {
      CreateKeeps(k, Some(caller), PrepareShell(k, caller, cloned), creds, mtssOk, claim, claim2);
    }
  }

  /** So does a process clone that leaks; its second console is one of them. */
  lemma CloneLeavesOne(k: KernelState, caller: ProcessId, creds: Credentials, cloned: Space, mtssOk: bool,
                       claim: Claim)
    returns (d: nat)
    requires FilesInvariant(k, claim) && Creates(k, caller, creds) && ShellLeaks(k, caller, cloned)
    ensures TablesOk(k.procs) && FilesInvariant(CloneProcess(k, caller, creds, cloned, mtssOk).0, Above(d))
  {
    hide Balanced, First, Raise, Inherit, MaySpawn, ZombiesEmpty, AllOpen, Security.Apply, Drop;
    var i := Locate(k.procs, caller);
    var p := k.procs[i].value;
    InheritBalances(k, i, claim);
    var pcb := NewPcb(k.nextPid, Some(caller), p.group, RootOf(p.root, cloned), p.files);
    WithConsolesBalances(k.procs, Raise(k.counts, p.files), pcb, claim);
    var r := WithConsoles(Raise(k.counts, p.files), pcb);
    var files := r.pcb.value.files;
    assert files[2].Some?;
    d := files[2].value.description;
    Retained(k.procs, files, r.counts, claim, 2);
  }

  lemma SpawnLoadedKeeps(k: KernelState, parent: ProcessId, creds: Credentials, cloned: Space, mtssOk: bool,
                         loadOk: bool, claim: Claim)
    requires FilesInvariant(k, claim)
    requires ProcIds(k.procs, k.nextPid) && ThreadIds(k.threads, k.nextThread) && Security.Below(k.security, k.nextPid)
    ensures FilesInvariant(SpawnLoaded(k, parent, creds, cloned, mtssOk, loadOk).0,
                           Unless(claim, SpawnLeaks(k, Some(parent), creds, cloned)))
  {
    hide FilesInvariant, Spawn, SpawnLeaks;
    FilesShape(k, claim);
    SpawnKeeps(k, Some(parent), creds, cloned, mtssOk, claim);
    var (k1, child) := Spawn(k, Some(parent), creds, cloned, mtssOk);
    if child.Some? {
      RollbackShellKeeps(k1, child.value, Unless(claim, SpawnLeaks(k, Some(parent), creds, cloned)));
    }
  }

  // ---------------------------------------------------------------------
  // Exec
  // ---------------------------------------------------------------------

  lemma FilesSplit(files: Files, d: nat)
    ensures RefsIn(files, d) == RefsIn(KeptFiles(files), d) + RefsIn(ClosedFiles(files), d)
  {
    hide Sum, Swept;
    SumSplit(files, KeptFiles(files), ClosedFiles(files), Names(d));
  }

  lemma CloseOnExecKeeps(k: KernelState, i: nat, claim: Claim)
    requires FilesInvariant(k, claim) && LiveAt(k.procs, i)
    ensures var files := k.procs[i].value.files;
            FilesInvariant(k.(procs := WithFiles(k.procs, i, KeptFiles(files)),
                              counts := Drop(k.counts, ClosedFiles(files))), claim)
  {
    hide Balanced, Drop, RefsIn, KeptFiles, ClosedFiles;
    var files := k.procs[i].value.files;
    TakeOut(k.procs, [], i, k.counts, claim);
    forall d | 0 <= d
      ensures RefsIn(files, d) == RefsIn(KeptFiles(files), d) + RefsIn(ClosedFiles(files), d)
    {
      FilesSplit(files, d);
    }
    DropBalances(k.procs[i := None], files, KeptFiles(files), ClosedFiles(files), k.counts, claim);
    RefileKeeps(k, i, KeptFiles(files), Drop(k.counts, ClosedFiles(files)), claim);
  }

  lemma ReimagedRest(k: KernelState, i: nat, current: Option<ThreadId>, root: nat)
    requires i < |k.procs| && k.procs[i].Some?
    ensures var k2 := Reimaged(k, i, current, root).0;
            k2 == k.(procs := k2.procs, threads := k2.threads, nextThread := k2.nextThread)
  {
    hide First, Swept, KeptThread, LocateThread, Counted;
  }

  lemma ExecKeeps(k: KernelState, request: Security.ExecRequest, current: Option<ThreadId>, root: nat,
                  mtssOk: bool, readyOk: bool, claim: Claim)
    requires FilesInvariant(k, claim) && LiveCaller(k, request.caller)
    ensures FilesInvariant(Exec(k, request, current, root, mtssOk, readyOk).0, claim)
  {
    hide FilesInvariant, First, Swept, Drop, KeptFiles, ClosedFiles, Reimaged, SameLife, SameFiles, Security.Apply,
      Security.DomainOf, Security.ExecAllowed;
    FilesShape(k, claim);
    var i := Locate(k.procs, request.caller);
    if i < |k.procs| {
      var files := k.procs[i].value.files;
      var k1 := k.(procs := WithFiles(k.procs, i, KeptFiles(files)), counts := Drop(k.counts, ClosedFiles(files)));
      CloseOnExecKeeps(k, i, claim);
      ReimagedFrame(k1, i, current, root);
      ReimagedRest(k1, i, current, root);
      var k2 := Reimaged(k1, i, current, root).0;
      SameLength(k1.procs, k2.procs);
      SameFilesKeep(k1, k2, claim);
      var s := Security.Apply(k.security, Security.Register(request.caller, request.requested)).0;
      var k3 := k2.(procs := WithState(k2.procs, i, Ready), security := s);
      SlotFrame(k2.procs, i, k2.procs[i].value.(state := Ready));
      SameFilesKeep(k2, k3, claim);
    }
  }

  lemma SameLength(p: Procs, q: Procs)
    requires SameLife(p, q)
    ensures |p| == |q|
  {
  }

  // ---------------------------------------------------------------------
  // Every step
  // ---------------------------------------------------------------------

  /** The step ends in one of the two early returns that keep descriptors they have retained. */
  ghost predicate Leaks(k: KernelState, step: Step) {
    match step
    case SpawnStep(parent, creds, cloned, _) => SpawnLeaks(k, parent, creds, cloned)
    case SpawnLoadedStep(parent, creds, cloned, _, _) => SpawnLeaks(k, Some(parent), creds, cloned)
    case CloneProcessStep(caller, creds, cloned, _) => Creates(k, caller, creds) && ShellLeaks(k, caller, cloned)
    case _ => false
  }

  /** A step that touches no descriptor. */
  predicate Fileless(step: Step) {
    step.SendStep? || step.ReceiveStep? || step.ReceiveOrBlockStep? || step.CloneThreadStep?
      || step.TerminateThreadStep?
    || step.SecurityStep? || step.RegroupStep?
  }

  lemma FilelessFrame(k: KernelState, step: Step)
    requires |k.queues| == |k.procs| && TablesOk(k.procs) && Fileless(step) && CallerIsLive(k, step)
    ensures var k2 := Next(k, step);
            && SameLife(k.procs, k2.procs) && SameFiles(k.procs, k2.procs)
            && k2.counts == k.counts && |k2.queues| == |k2.procs|
  {
    hide SameLife, SameFiles, SameWaits, SameCounts, Locate, Send, Receive, ReceiveOrBlock, CloneThread, RemoveThread,
      Regrouped;
    SelfFrame(k.procs);
    match step
    case SendStep(s, r, payload, readyOk, wakes, blockOk) =>
      SendFrame(k, s, r, payload, readyOk, wakes, blockOk);
      SendRest(k, s, r, payload, readyOk, wakes, blockOk);
    case ReceiveStep(pid) => ReceiveRest(k, pid);
    case ReceiveOrBlockStep(pid, blockOk) => ReceiveOrBlockFrame(k, pid, blockOk);
    case CloneThreadStep(pid, mtssOk) =>
      ThreadStepFrame(k, pid, 0, mtssOk);
      ThreadStepRest(k, pid, 0, mtssOk);
    case TerminateThreadStep(id) =>
      ThreadStepFrame(k, 0, id, true);
      ThreadStepRest(k, 0, id, true);
    case SecurityStep(op) =>
    case RegroupStep(caller, pid, group, sameSession) =>
      RegroupFrame(k, caller, pid, group, sameSession);
      RegroupRest(k, caller, pid, group, sameSession);
  }

  lemma StepKeepsFiles(k: KernelState, step: Step, claim: Claim)
    requires FilesInvariant(k, claim) && CallerIsLive(k, step)
    requires ProcIds(k.procs, k.nextPid) && ThreadIds(k.threads, k.nextThread) && Security.Below(k.security, k.nextPid)
    requires step.ExecStep? ==> LiveCaller(k, step.request.caller)
    ensures |k.queues| == |k.procs| && TablesOk(k.procs)
    ensures FilesInvariant(Next(k, step), Unless(claim, Leaks(k, step)))
  {
    hide FilesInvariant, SameLife, SameFiles, SameWaits, SameCounts, ProcIds, ThreadIds, Locate, Send, Receive,
      Suspended, Exit, Wait, Open, Close, Duplicate, DuplicateTo, Spawn, SpawnLoaded, CloneThread, CloneProcess, Exec,
      RemoveThread, Regrouped, SpawnLeaks, ShellLeaks, Creates;
    FilesShape(k, claim);
    if Fileless(step) {
      hide Next;
      FilelessFrame(k, step);
      SameFilesKeep(k, Next(k, step), claim);
      return;
    }
    match step
    case ExitStep(pid, status, readyOk, wakes) => ExitKeeps(k, pid, status, readyOk, wakes, claim);
    case WaitStep(pid, thread, selector, writeOk, noHang, blockOk) =>
      WaitKeeps(k, pid, thread, selector, writeOk, noHang, blockOk, claim);
    case OpenStep(pid, closeOnExec) => OpenKeeps(k, pid, closeOnExec, claim);
    case CloseStep(pid, fd) => CloseKeeps(k, pid, fd, claim);
    case DuplicateStep(pid, fd, low, closeOnExec) => DuplicateKeeps(k, pid, fd, low, closeOnExec, claim);
    case DuplicateToStep(pid, fd, to, closeOnExec, reject) =>
      DuplicateToKeeps(k, pid, fd, to, closeOnExec, reject, claim);
    case SpawnStep(parent, creds, cloned, mtssOk) => SpawnKeeps(k, parent, creds, cloned, mtssOk, claim);
    case SpawnLoadedStep(parent, creds, cloned, mtssOk, loadOk) =>
      SpawnLoadedKeeps(k, parent, creds, cloned, mtssOk, loadOk, claim);
    case CloneProcessStep(pid, creds, cloned, mtssOk) => CloneProcessKeeps(k, pid, creds, cloned, mtssOk, claim);
    case ExecStep(request, thread, root, mtssOk, readyOk) =>
      ExecKeeps(k, request, thread, root, mtssOk, readyOk, claim);
  }

  /** A step that leaks leaves a description counted more often than it is named. */
  lemma LeakLeavesOne(k: KernelState, step: Step, claim: Claim) returns (d: nat)
    requires FilesInvariant(k, claim) && Leaks(k, step)
    ensures |k.queues| == |k.procs| && TablesOk(k.procs)
    ensures FilesInvariant(Next(k, step), Above(d))
  {
    hide FilesInvariant, SpawnLeaks, ShellLeaks, Creates, Spawn, CloneProcess;
    FilesShape(k, claim);
    match step
    case SpawnStep(parent, creds, cloned, mtssOk) =>
      LeakingParent(k, parent, creds, cloned);
      d := SpawnLeavesOne(k, parent.value, creds, cloned, mtssOk, claim);
    case SpawnLoadedStep(parent, creds, cloned, mtssOk, loadOk) =>
      d := SpawnLeavesOne(k, parent, creds, cloned, mtssOk, claim);
    case CloneProcessStep(caller, creds, cloned, mtssOk) =>
      d := CloneLeavesOne(k, caller, creds, cloned, mtssOk, claim);
  }

  lemma LeakingParent(k: KernelState, parent: Option<ProcessId>, creds: Credentials, cloned: Space)
    requires SpawnLeaks(k, parent, creds, cloned)
    ensures parent.Some?
  {
  }

  /** Exact counts stay exact exactly when the step does not leak. */
  lemma StepStaysExact(k: KernelState, step: Step)
    requires FilesInvariant(k, Exact) && CallerIsLive(k, step)
    requires ProcIds(k.procs, k.nextPid) && ThreadIds(k.threads, k.nextThread) && Security.Below(k.security, k.nextPid)
    requires step.ExecStep? ==> LiveCaller(k, step.request.caller)
    ensures |k.queues| == |k.procs| && TablesOk(k.procs)
    ensures FilesInvariant(Next(k, step), Exact) <==> !Leaks(k, step)
  {
    hide FilesInvariant, Leaks, Next, ProcIds, ThreadIds, Security.Below, CallerIsLive;
    StepKeepsFiles(k, step, Exact);
    if Leaks(k, step) {
      var d := LeakLeavesOne(k, step, Exact);
      AboveIsNotExact(Next(k, step), d);
    }
  }
}
