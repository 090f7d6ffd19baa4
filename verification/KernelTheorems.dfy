/** Theorems over whole runs of the kernel. */
module KernelTheorems {
  import opened Prelude
  import opened Tables
  import opened Labels
  import opened Capabilities
  import Security
  import opened Descriptors
  import opened KernelSteps
  import opened KernelIds
  import opened KernelFrame
  import opened KernelCreate
  import opened KernelFiles
  import opened KernelFileSteps
  import opened KernelThreads
  import opened KernelThreadSteps
  import opened KernelIpc
  import opened KernelWait
  import opened KernelRuns

  // ---------------------------------------------------------------------
  // Runs
  // ---------------------------------------------------------------------

  ghost predicate IsRun(states: seq<KernelState>, steps: seq<Step>) {
    && |states| == |steps| + 1
    && forall i :: 0 <= i < |steps| ==>
         Shaped(states[i]) && Admissible(states[i], steps[i]) && states[i + 1] == Next(states[i], steps[i])
  }

  /** Up to step `n` no address space failed to clone after its descriptors were inherited. */
  ghost predicate NoLeak(states: seq<KernelState>, steps: seq<Step>, n: nat)
    requires |states| == |steps| + 1 && n <= |steps|
  {
    forall i :: 0 <= i < n ==> !Leaks(states[i], steps[i])
  }

  /** The invariant holds in every state of every run, with exact counts as long as nothing leaked. */
  lemma {:induction false} EveryStateIsSound(states: seq<KernelState>, steps: seq<Step>, claim: Claim, n: nat)
    requires IsRun(states, steps) && Invariant(states[0], claim) && n <= |steps|
    ensures Invariant(states[n], Unless(claim, !NoLeak(states, steps, n)))
    decreases n
  {
    hide Invariant, Next, Admissible, Leaks;
    if n > 0 {
      EveryStateIsSound(states, steps, claim, n - 1);
      assert Shaped(states[n - 1]) && states[n - 1 + 1] == Next(states[n - 1], steps[n - 1]);
      StepKeepsInvariant(states[n - 1], steps[n - 1], Unless(claim, !NoLeak(states, steps, n - 1)));
      assert NoLeak(states, steps, n) <==> NoLeak(states, steps, n - 1) && !Leaks(states[n - 1], steps[n - 1]);
    }
  }

  /** An admissible step from a sound state moves every slot along its life cycle. */
  lemma SoundProgress(k: KernelState, step: Step, claim: Claim)
    requires Invariant(k, claim) && Admissible(k, step)
    ensures Shaped(k) && Progress(k, Next(k, step), ReapedBy(k, step))
  {
    InvariantShape(k, claim);
    if step.ExecStep? && Security.DomainOf(k.security.domains, step.request.caller).None? {
      hide FilesInvariant, ThreadInvariant, IpcInvariant, NoneMissed, Security.Below;
      ExecRefused(k, step.request, step.thread, step.root, step.mtssOk, step.readyOk);
      SelfFrame(k.procs);
      SameLifeProgress(k, k, None);
    } else {
      if step.ExecStep? {
        ExecCallerIsLive(k, step.request);
      }
      hide Invariant, Next, ForeignThread, Security.DomainOf, ProcIds, ThreadIds, CallerIsLive, TablesOk,
        Security.Below, Progress;
      StepProgress(k, step);
    }
  }

  lemma RunProgress(states: seq<KernelState>, steps: seq<Step>, claim: Claim, n: nat)
    requires IsRun(states, steps) && Invariant(states[0], claim) && n < |steps|
    ensures Progress(states[n], states[n + 1], ReapedBy(states[n], steps[n]))
  {
    hide Invariant, Progress, Next;
    EveryStateIsSound(states, steps, claim, n);
    SoundProgress(states[n], steps[n], Unless(claim, !NoLeak(states, steps, n)));
  }

  // ---------------------------------------------------------------------
  // Process ids
  // ---------------------------------------------------------------------

  /** `pid` was given out and is in no slot. */
  ghost predicate Gone(k: KernelState, pid: ProcessId) {
    pid < k.nextPid && forall i :: 0 <= i < |k.procs| && k.procs[i].Some? ==> k.procs[i].value.pid != pid
  }

  /** A process id that has left the table never comes back. */
  lemma {:induction false} GoneStaysGone(states: seq<KernelState>, steps: seq<Step>, claim: Claim, pid: ProcessId,
                                         i: nat, j: nat)
    requires IsRun(states, steps) && Invariant(states[0], claim) && i <= j <= |steps| && Gone(states[i], pid)
    ensures Gone(states[j], pid)
    decreases j - i
  {
    hide Invariant, IsRun;
    if i < j {
      RunSteps(states, steps);
      RunProgress(states, steps, claim, i);
      var p, q := states[i].procs, states[i + 1].procs;
      forall k | 0 <= k < |q| && q[k].Some?
        ensures q[k].value.pid != pid
      {
        assert SlotProgress(p[k], q[k], states[i].nextPid, ReapedBy(states[i], steps[i]));
      }
      GoneStaysGone(states, steps, claim, pid, i + 1, j);
    }
  }

  lemma RunSteps(states: seq<KernelState>, steps: seq<Step>)
    requires IsRun(states, steps)
    ensures |states| == |steps| + 1
  {
  }

  // ---------------------------------------------------------------------
  // Child exits
  // ---------------------------------------------------------------------

  lemma ReapedLeaves(k: KernelState, parent: ProcessId, thread: Option<ThreadId>, selector: int,
                     writeOk: bool, noHang: bool, blockOk: bool)
    requires ProcIds(k.procs, k.nextPid) && Wait(k, parent, thread, selector, writeOk, noHang, blockOk).1.Reaped?
    ensures var (k2, r) := Wait(k, parent, thread, selector, writeOk, noHang, blockOk);
            !Gone(k, r.pid) && Gone(k2, r.pid)
  {
    ReapedTable(k, parent, thread, selector, writeOk, noHang, blockOk);
    WaitRest(k, parent, thread, selector, writeOk, noHang, blockOk);
    hide Wait, First;
    var (k2, r) := Wait(k, parent, thread, selector, writeOk, noHang, blockOk);
    var i := Locate(k.procs, parent);
    var z := First(k.procs, ZombieMatching(parent, DecodeSelector(selector, k.procs[i].value.group)));
    forall j | 0 <= j < |k2.procs| && k2.procs[j].Some?
      ensures k2.procs[j].value.pid != r.pid
    {
      assert j != z && k.procs[j].Some? && k2.procs[j].value.pid == k.procs[j].value.pid;
    }
  }

  /** A reaped child was a zombie in the table and has left it. */
  lemma ReapedIsGone(k: KernelState, step: Step, claim: Claim)
    requires Invariant(k, claim) && Admissible(k, step) && ReapedBy(k, step).Some?
    ensures Shaped(k) && !Gone(k, ReapedBy(k, step).value) && Gone(Next(k, step), ReapedBy(k, step).value)
  {
    InvariantShape(k, claim);
    hide Invariant, Wait, Admissible, Gone, ProcIds, ThreadIds, Security.Below;
    ReapedLeaves(k, step.caller, step.thread, step.selector, step.writeOk, step.noHang, step.blockOk);
  }

  /** Over a whole run each child exit is returned by at most one wait. */
  lemma ReportedOnce(states: seq<KernelState>, steps: seq<Step>, claim: Claim, i: nat, j: nat)
    requires IsRun(states, steps) && Invariant(states[0], claim) && i < j < |steps|
    requires ReapedBy(states[i], steps[i]).Some? && ReapedBy(states[j], steps[j]).Some?
    ensures ReapedBy(states[i], steps[i]) != ReapedBy(states[j], steps[j])
  {
    var pid := ReapedBy(states[i], steps[i]).value;
    assert states[i + 1] == Next(states[i], steps[i]) && Admissible(states[i], steps[i])
           && Admissible(states[j], steps[j]);
    hide Invariant, Admissible, Next, ReapedBy, Gone;
    EveryStateIsSound(states, steps, claim, i);
    EveryStateIsSound(states, steps, claim, j);
    ReapedIsGone(states[i], steps[i], Unless(claim, !NoLeak(states, steps, i)));
    ReapedIsGone(states[j], steps[j], Unless(claim, !NoLeak(states, steps, j)));
    GoneStaysGone(states, steps, claim, pid, i + 1, j);
  }

  /** Slot `z` holds an exited process that a wait has not taken yet. */
  predicate ExitPending(k: KernelState, z: nat, child: Pcb) {
    z < |k.procs| && k.procs[z].Some? && k.procs[z].value.state == Zombie
    && k.procs[z].value.pid == child.pid && k.procs[z].value.parent == child.parent
    && k.procs[z].value.exitStatus == child.exitStatus
  }

  ghost predicate ReportedBetween(states: seq<KernelState>, steps: seq<Step>, i: nat, j: nat, pid: ProcessId)
    requires |states| == |steps| + 1 && i <= j <= |steps|
  {
    exists m :: i <= m < j && ReapedBy(states[m], steps[m]) == Some(pid)
  }

  /** An exit stays in the table, with its status, until a wait returns it. */
  lemma {:induction false} ExitStaysPending(states: seq<KernelState>, steps: seq<Step>, claim: Claim, z: nat,
                                            child: Pcb,
                                            i: nat, j: nat)
    requires IsRun(states, steps) && Invariant(states[0], claim) && i <= j <= |steps|
             && ExitPending(states[i], z, child)
    ensures ExitPending(states[j], z, child) || ReportedBetween(states, steps, i, j, child.pid)
    decreases j - i
  {
    hide Invariant, IsRun, ReapedBy;
    RunSteps(states, steps);
    if i < j {
      RunProgress(states, steps, claim, i);
      var p, q := states[i].procs, states[i + 1].procs;
      assert SlotProgress(p[z], q[z], states[i].nextPid, ReapedBy(states[i], steps[i]));
      if ExitPending(states[i + 1], z, child) {
        ExitStaysPending(states, steps, claim, z, child, i + 1, j);
      } else {
        assert ReapedBy(states[i], steps[i]) == Some(child.pid);
      }
    }
  }

  /** A pending exit is what its parent gets when it waits for that child, and waiting for any child finds one too. */
  lemma PendingIsWaitable(k: KernelState, z: nat, child: Pcb, thread: Option<ThreadId>, noHang: bool, blockOk: bool)
    requires ProcIds(k.procs, k.nextPid) && ExitPending(k, z, child) && child.parent.Some?
    requires Locate(k.procs, child.parent.value) < |k.procs|
    ensures Wait(k, child.parent.value, thread, child.pid, true, noHang, blockOk).1
            == Reaped(child.pid, if child.exitStatus.Some? then child.exitStatus.value else 0)
    ensures Wait(k, child.parent.value, thread, -1, true, noHang, blockOk).1.Reaped?
  {
    hide First, RevokeTask, WaitCleared;
    var parent := child.parent.value;
    var one, any := ZombieMatching(parent, OneChild(child.pid)), ZombieMatching(parent, AnyChild);
    assert one(k.procs[z]) && any(k.procs[z]);
    var f := First(k.procs, one);
    assert f <= z && k.procs[f].value.pid == child.pid;
    assert First(k.procs, any) <= z;
  }

  /** A step from a sound state leaves no wait missed, waits for groups included, exactly when it reveals no zombie. */
  lemma SoundStepMissesNone(k: KernelState, step: Step, claim: Claim)
    requires Invariant(k, claim) && Admissible(k, step) && NoneMissed(k.procs, true)
    ensures Shaped(k) && (NoneMissed(Next(k, step).procs, true) <==> !RevealsZombie(k, step))
  {
    InvariantShape(k, claim);
    if step.ExecStep? && Security.DomainOf(k.security.domains, step.request.caller).None? {
      hide Invariant, NoneMissed;
      ExecRefused(k, step.request, step.thread, step.root, step.mtssOk, step.readyOk);
    } else {
      if step.ExecStep? {
        ExecCallerIsLive(k, step.request);
      }
      hide Invariant, NoneMissed, Next, ForeignThread, Security.DomainOf, ProcIds, ThreadIds, CallerIsLive, TablesOk,
        Security.Below, RevealsZombie;
      StepMissesNone(k, step, true);
    }
  }

  /** In a run in which no zombie is moved into a group its parent waits for, no wait misses an exit. */
  lemma {:induction false} GroupWaitsMissNone(states: seq<KernelState>, steps: seq<Step>, claim: Claim, n: nat)
    requires IsRun(states, steps) && Invariant(states[0], claim) && NoneMissed(states[0].procs, true) && n <= |steps|
    requires forall i :: 0 <= i < n ==> !RevealsZombie(states[i], steps[i])
    ensures NoneMissed(states[n].procs, true)
    decreases n
  {
    hide Invariant, NoneMissed, Next, Admissible, RevealsZombie, Leaks;
    if n > 0 {
      GroupWaitsMissNone(states, steps, claim, n - 1);
      EveryStateIsSound(states, steps, claim, n - 1);
      SoundStepMissesNone(states[n - 1], steps[n - 1], Unless(claim, !NoLeak(states, steps, n - 1)));
      assert states[n - 1 + 1] == Next(states[n - 1], steps[n - 1]);
    }
  }

  // ---------------------------------------------------------------------
  // Failed creation
  // ---------------------------------------------------------------------

  /** Exact counts are far from saturation. */
  lemma ExactFits(k: KernelState, files: Files)
    requires FilesInvariant(k, Exact) && |files| <= MAX_OPEN_FILES
    ensures Fits(k.counts, files)
  {
    hide Sum, RefsIn;
    forall d | 0 <= d < |k.counts| && k.counts[d].Some?
      ensures k.counts[d].value + RefsIn(files, d) <= U16_MAX
    {
      assert Fair(Refs(k.procs, [], d), CountOf(k.counts, d), Exact, d);
      RefsBounded(k.procs, [], d);
    }
  }

  /**
   * A `create_process_task` that fails after the task was registered restores
   * the process and thread tables, the queues, the domains and the capability
   * records; and the reference counts exactly when none of them saturated,
   * which exact counts never do.
   */
  lemma FailedCreationRestores(k: KernelState, parent: Option<ProcessId>, creds: Credentials, cloned: Space,
                               mtssOk: bool, claim: Claim)
    requires Invariant(k, claim) && FreeSlot(k) < |k.procs|
    requires Shaped(k) && Prepare(k, parent, cloned).pcb.Some?
             && RegisterOk(k.security, Prepare(k, parent, cloned).pcb.value, creds)
    requires CreateTask(k, parent, creds, cloned, mtssOk).1.None?
    ensures var k2 := CreateTask(k, parent, creds, cloned, mtssOk).0;
            && k2.procs == k.procs && k2.threads == k.threads && k2.queues == k.queues
            && k2.security.domains == k.security.domains && k2.security.ledger.records == k.security.ledger.records
            && (k2.counts == k.counts <==> Fits(k.counts, StartFiles(k, parent)))
            && (claim.Exact? ==> k2.counts == k.counts)
  {
    PrepareBalances(k, parent, cloned, claim);
    hide Prepare, CreateFrom, First, Drop, Fits, Balanced, FilesInvariant, ThreadsCounted, NoneMissed, Addressed,
      DomainsLive;
    var prepared := Prepare(k, parent, cloned);
    CreateFromOutcome(k, prepared, creds, mtssOk);
    if claim.Exact? {
      StartFilesShort(k, parent);
      ExactFits(k, StartFiles(k, parent));
    }
  }

  lemma StartFilesShort(k: KernelState, parent: Option<ProcessId>)
    requires TablesOk(k.procs)
    ensures |StartFiles(k, parent)| == MAX_OPEN_FILES
  {
    hide First;
  }

  /** The child's descriptors stay retained when its address space cannot be copied. */
  lemma FailedCloneRetains(k: KernelState, parent: ProcessId, creds: Credentials, cloned: Space, mtssOk: bool)
    requires Invariant(k, Exact) && FreeSlot(k) < |k.procs| && CloneFails(k, Some(parent), Copying(cloned))
    ensures Shaped(k)
    ensures var k2 := CreateTask(k, Some(parent), creds, cloned, mtssOk).0;
            var files := StartFiles(k, Some(parent));
            && k2.counts == Raise(k.counts, files)
            && (Balanced(k2.procs, [], k2.counts, Exact) <==> Empty(files))
  {
    InvariantShape(k, Exact);
    hide First, Balanced, ThreadsCounted, NoneMissed, IpcInvariant, Raise, Inherit, RefsIn, CreateFrom;
    var i := Locate(k.procs, parent);
    var files := k.procs[i].value.files;
    InheritBalances(k, i, Exact);
    CreateFromOutcome(k, Prepare(k, Some(parent), cloned), creds, mtssOk);
    if Empty(files) {
      EmptyHand(k.procs, files, Raise(k.counts, files), Exact);
    } else {
      var fd :| 0 <= fd < |files| && files[fd].Some?;
      Retained(k.procs, files, Raise(k.counts, files), Exact, fd);
      AboveOrExact(k.procs, Raise(k.counts, files), files[fd].value.description);
    }
  }

  lemma AboveOrExact(procs: Procs, counts: Counts, d: nat)
    requires Balanced(procs, [], counts, Above(d))
    ensures !Balanced(procs, [], counts, Exact)
  {
    hide Refs, CountOf;
    assert Fair(Refs(procs, [], d), CountOf(counts, d), Above(d), d);
    assert !Fair(Refs(procs, [], d), CountOf(counts, d), Exact, d);
  }

  /**
   * A process clone keeps counts exact unless its address space cannot be
   * copied or shared, after a slot was found and the consoles were opened.
   */
  lemma FailedShellRetains(k: KernelState, caller: ProcessId, creds: Credentials, cloned: Space, mtssOk: bool)
    requires Invariant(k, Exact)
    ensures Shaped(k)
    ensures FilesInvariant(CloneProcess(k, caller, creds, cloned, mtssOk).0, Exact)
       <==> !(&& MaySpawn(k, caller, creds) && FreeSlot(k) < |k.procs|
              && CloneFails(k, Some(caller), cloned) && ConsolesFit(k, caller))
  {
    InvariantShape(k, Exact);
    hide Invariant, ProcIds, ThreadIds, Security.Below, MaySpawn, CloneFails, ConsolesFit, CloneProcess, First;
    ExactFiles(k);
    CloneProcessKeeps(k, caller, creds, cloned, mtssOk, Exact);
    if Creates(k, caller, creds) && ShellLeaks(k, caller, cloned) {
      var d := CloneLeavesOne(k, caller, creds, cloned, mtssOk, Exact);
      AboveIsNotExact(CloneProcess(k, caller, creds, cloned, mtssOk).0, d);
    }
  }

  lemma ExactFiles(k: KernelState)
    requires Invariant(k, Exact)
    ensures FilesInvariant(k, Exact)
  {
  }

  // ---------------------------------------------------------------------
  // Leaked descriptions
  // ---------------------------------------------------------------------

  lemma InvariantClaims(k: KernelState, claim: Claim, claim2: Claim)
    requires Invariant(k, claim)
    ensures FilesInvariant(k, claim)
    ensures FilesInvariant(k, claim2) <==> Invariant(k, claim2)
  {
  }

  /** A description counted above its slots stays so, whatever is closed and whoever exits. */
  lemma {:induction false} AboveStaysAbove(states: seq<KernelState>, steps: seq<Step>, d: nat, i: nat, j: nat)
    requires IsRun(states, steps) && i <= j <= |steps| && Invariant(states[i], Above(d))
    ensures Invariant(states[j], Above(d))
    decreases j - i
  {
    hide Invariant, Next, Leaks, Admissible;
    if i < j {
      StepKeepsInvariant(states[i], steps[i], Above(d));
      assert states[i + 1] == Next(states[i], steps[i]);
      AboveStaysAbove(states, steps, d, i + 1, j);
    }
  }

  /**
   * After a leak some description is never closed again: in every later state more references are counted than held.
   */
  lemma LeakIsForever(states: seq<KernelState>, steps: seq<Step>, claim: Claim, i: nat) returns (d: nat)
    requires IsRun(states, steps) && Invariant(states[0], claim) && i < |steps| && Leaks(states[i], steps[i])
    ensures forall j :: i < j <= |steps| ==>
              IsOpen(states[j].counts, d) && Refs(states[j].procs, [], d) < CountOf(states[j].counts, d)
  {
    hide Invariant, Next, Leaks, Admissible, Refs, FilesInvariant;
    var claim2 := Unless(claim, !NoLeak(states, steps, i));
    EveryStateIsSound(states, steps, claim, i);
    InvariantClaims(states[i], claim2, claim2);
    d := LeakLeavesOne(states[i], steps[i], claim2);
    StepKeepsInvariant(states[i], steps[i], claim2);
    assert states[i + 1] == Next(states[i], steps[i]);
    InvariantClaims(states[i + 1], Unless(claim2, true), Above(d));
    forall j | i < j <= |steps|
      ensures IsOpen(states[j].counts, d) && Refs(states[j].procs, [], d) < CountOf(states[j].counts, d)
    {
      AboveStaysAbove(states, steps, d, i + 1, j);
      AboveIsOpen(states[j], d);
    }
  }

  lemma AboveIsOpen(k: KernelState, d: nat)
    requires Invariant(k, Above(d))
    ensures IsOpen(k.counts, d) && Refs(k.procs, [], d) < CountOf(k.counts, d)
  {
    hide Refs, ThreadInvariant, IpcInvariant, NoneMissed;
    assert Fair(Refs(k.procs, [], d), CountOf(k.counts, d), Above(d), d);
  }

  /** In a run from exact counts, they are exact in a state exactly when nothing has leaked on the way to it. */
  lemma ExactUntilLeak(states: seq<KernelState>, steps: seq<Step>, n: nat)
    requires IsRun(states, steps) && Invariant(states[0], Exact) && n <= |steps|
    ensures Invariant(states[n], Exact) <==> NoLeak(states, steps, n)
  {
    hide Invariant, Next, Leaks, Admissible;
    EveryStateIsSound(states, steps, Exact, n);
    if !NoLeak(states, steps, n) {
      var i :| 0 <= i < n && Leaks(states[i], steps[i]);
      var d := LeakIsForever(states, steps, Exact, i);
      ExactIsNotAbove(states[n], d);
    }
  }

  lemma ExactIsNotAbove(k: KernelState, d: nat)
    requires Refs(k.procs, [], d) < CountOf(k.counts, d)
    ensures !Invariant(k, Exact)
  {
    hide Refs, CountOf, ThreadInvariant, IpcInvariant, NoneMissed;
    assert !Fair(Refs(k.procs, [], d), CountOf(k.counts, d), Exact, d);
  }

  /** `spawn_loaded_task` takes the process back out when its image does not load, but leaves its thread behind. */
  lemma FailedLoadLeavesThread(k: KernelState, parent: ProcessId, creds: Credentials, cloned: Space, mtssOk: bool,
                               claim: Claim)
    requires Invariant(k, claim) && Shaped(k) && Spawn(k, Some(parent), creds, cloned, mtssOk).1.Some?
    ensures var k2 := SpawnLoaded(k, parent, creds, cloned, mtssOk, false).0;
            k2.procs == k.procs && Crew(k.threads, k.nextPid) == 0 && Crew(k2.threads, k.nextPid) == 1
  {
    SpawnIs(k, Some(parent), creds, cloned, mtssOk);
    hide Spawn, Prepare, CreateFrom, First, MaySpawn, ProcIds, ThreadIds, Security.Below, Drop, RevokeTask, Crew,
      FilesInvariant, IpcInvariant, NoneMissed, Joined, RegisterOk, Progress;
    var prepared := Prepare(k, Some(parent), cloned);
    CreateProgress(k, prepared, creds, mtssOk);
    CreateFromOutcome(k, prepared, creds, mtssOk);
    CrewNone(k.threads, k.nextPid);
    CrewUpdate(k.threads, FreeThreadSlot(k), Some(Tcb(k.nextThread, k.nextPid, ThreadReady, None)), k.nextPid);
  }

  // ---------------------------------------------------------------------
  // Failed exec
  // ---------------------------------------------------------------------

  /** There is a thread to carry the new image: the one given, one of the process's own, or a free slot for one. */
  predicate Carried(threads: Threads, pid: ProcessId, current: Option<ThreadId>) {
    if current.Some? then LocateThread(threads, current.value) < |threads|
    else First(threads, ThreadOf(pid)) < |threads| || First(threads, FreeThread) < |threads|
  }

  lemma PurgeOfNone(threads: Threads, pid: ProcessId)
    requires First(threads, ThreadOf(pid)) == |threads|
    ensures Swept(threads, OtherThreadOf(pid, None), GoneThread) == threads
  {
    hide First, Swept;
    var left := Swept(threads, OtherThreadOf(pid, None), GoneThread);
    assert forall t :: 0 <= t < |threads| ==> !ThreadOf(pid)(threads[t]);
    assert forall t :: 0 <= t < |threads| ==> left[t] == threads[t];
  }

  lemma ReimagedIfCarried(k: KernelState, i: nat, n: nat, current: Option<ThreadId>, root: nat)
    requires i < |k.procs| && k.procs[i].Some? && ThreadIds(k.threads, n)
    ensures Reimaged(k, i, current, root).1 <==> Carried(k.threads, k.procs[i].value.pid, current)
  {
    hide First, Swept, Counted, ThreadIds;
    var pid := k.procs[i].value.pid;
    var kept := KeptThread(k.threads, pid, current);
    if kept.Some? {
      KeptSurvives(k.threads, pid, kept.value);
      if current.None? {
        LocateThreadIs(k.threads, n, First(k.threads, ThreadOf(pid)));
      }
    } else {
      PurgeOfNone(k.threads, pid);
    }
  }

  /** The exec is authorised and its caller is in the table. */
  predicate ExecBegins(k: KernelState, request: Security.ExecRequest) {
    var d := Security.DomainOf(k.security.domains, request.caller);
    d.Some? && Security.ExecAllowed(d.value.creds, request) && Locate(k.procs, request.caller) < |k.procs|
  }

  /**
   * A failed exec leaves every domain, and leaves the capability table as it
   * was unless it came as far as registration, which strips the caller of
   * whatever it held.
   */
  lemma FailedExecStrips(k: KernelState, request: Security.ExecRequest, current: Option<ThreadId>, root: nat,
                         mtssOk: bool, readyOk: bool)
    requires ThreadIds(k.threads, k.nextThread) && !Exec(k, request, current, root, mtssOk, readyOk).1
    ensures var s, s2 := k.security, Exec(k, request, current, root, mtssOk, readyOk).0.security;
            var registers := ExecBegins(k, request) && Carried(k.threads, request.caller, current) && mtssOk && readyOk;
            && s2.domains == s.domains
            && s2.ledger.records == (if registers then Without(s.ledger.records, request.caller) else s.ledger.records)
            && (s2.ledger.records == s.ledger.records
                <==> !registers || Security.HoldsNothing(s.ledger.records, request.caller))
  {
    hide First, Swept, Drop, KeptFiles, ClosedFiles, Reimaged, Carried, Security.Registered, Security.ExecAllowed,
      Security.HoldsNothing, ThreadIds, Without;
    var i := Locate(k.procs, request.caller);
    if i < |k.procs| {
      var files := k.procs[i].value.files;
      var k1 := k.(procs := WithFiles(k.procs, i, KeptFiles(files)), counts := Drop(k.counts, ClosedFiles(files)));
      ReimagedRest(k1, i, current, root);
      ReimagedIfCarried(k1, i, k.nextThread, current, root);
      if Security.DomainOf(k.security.domains, request.caller).Some?
         && Security.Registered(k.security.domains, k.security.ledger, request.caller, request.requested).result.Err? {
        Security.FailedReseedingStrips(k.security.domains, k.security.ledger, request.caller, request.requested);
      }
    }
  }

  /** The process has no thread but the one that carries the image, which is ready; or it has none and gets none. */
  ghost predicate Undisturbed(threads: Threads, pid: ProcessId, current: Option<ThreadId>) {
    var kept := KeptThread(threads, pid, current);
    && (forall t :: 0 <= t < |threads| ==> !OtherThreadOf(pid, kept)(threads[t]))
    && (if kept.None? then First(threads, FreeThread) == |threads|
        else
          var t := LocateThread(threads, kept.value);
          t < |threads| ==> threads[t].value.state == ThreadReady)
  }

  lemma ReimagedThreads(k: KernelState, i: nat, current: Option<ThreadId>, root: nat)
    requires i < |k.procs| && k.procs[i].Some?
    ensures Reimaged(k, i, current, root).0.threads == k.threads
            <==> Undisturbed(k.threads, k.procs[i].value.pid, current)
  {
    hide First, Swept, Counted;
    var pid := k.procs[i].value.pid;
    var kept := KeptThread(k.threads, pid, current);
    var left := Swept(k.threads, OtherThreadOf(pid, kept), GoneThread);
    assert left == k.threads <==> forall t :: 0 <= t < |k.threads| ==> !OtherThreadOf(pid, kept)(k.threads[t]) by {
      PurgeOf(k.threads, OtherThreadOf(pid, kept));
    }
    if kept.Some? {
      KeptSurvives(k.threads, pid, kept.value);
      KeptPurge(k.threads, left, LocateThread(k.threads, kept.value));
    } else {
      PurgeOfNone(k.threads, pid);
    }
  }

  lemma PurgeOf(threads: Threads, p: Option<Tcb> -> bool)
    requires forall slot :: p(slot) ==> slot.Some?
    ensures Swept(threads, p, GoneThread) == threads <==> forall t :: 0 <= t < |threads| ==> !p(threads[t])
  {
    hide Swept;
    var left := Swept(threads, p, GoneThread);
    assert forall t :: 0 <= t < |threads| ==> (left[t] == threads[t] <==> !p(threads[t]));
    assert left == threads <==> forall t :: 0 <= t < |threads| ==> left[t] == threads[t];
  }

  /** Setting a slot that was not touched restores a table only if nothing was touched. */
  lemma KeptPurge(threads: Threads, left: Threads, t: nat)
    requires |left| == |threads| && (t < |threads| ==> threads[t].Some? && left[t] == threads[t])
    ensures t < |threads| ==>
              (left[t := Some(left[t].value.(state := ThreadReady))] == threads
               <==> left == threads && threads[t].value.state == ThreadReady)
  {
    if t < |threads| {
      var after := left[t := Some(left[t].value.(state := ThreadReady))];
      assert after == threads ==> forall i :: 0 <= i < |left| ==> left[i] == threads[i] by {
        assert forall i :: 0 <= i < |left| && i != t ==> after[i] == left[i];
      }
      assert left == threads && threads[t].value.state == ThreadReady ==> after == threads;
    }
  }

  ghost predicate NoneClosing(files: Files) {
    forall fd :: 0 <= fd < |files| ==> !ClosesOnExec(files[fd])
  }

  /** Open descriptions are lowered by releasing a table exactly when it names one. */
  lemma DropChanges(counts: Counts, files: Files)
    requires CountsOk(counts) && AllOpen(counts, files)
    ensures Drop(counts, files) == counts <==> Empty(files)
  {
    hide RefsIn, Drop;
    if Empty(files) {
      NothingMoves(counts, files);
    } else {
      var fd :| 0 <= fd < |files| && files[fd].Some?;
      RefsInPositive(files, fd);
      var d := files[fd].value.description;
      assert Drop(counts, files)[d] != counts[d];
    }
  }

  lemma ClosingChanges(k: KernelState, i: nat, claim: Claim)
    requires FilesInvariant(k, claim) && i < |k.procs| && k.procs[i].Some?
    ensures var files := k.procs[i].value.files;
            Drop(k.counts, ClosedFiles(files)) == k.counts <==> NoneClosing(files)
  {
    hide Balanced, Swept, Drop;
    var files := k.procs[i].value.files;
    var closed := ClosedFiles(files);
    forall fd | 0 <= fd < |closed| && closed[fd].Some?
      ensures IsOpen(k.counts, closed[fd].value.description)
    {
      NamedIsOpen(k.procs, [], k.counts, claim, i, fd);
    }
    CountsAreOk(k.procs, [], k.counts, claim);
    DropChanges(k.counts, closed);
    assert forall fd :: 0 <= fd < |files| ==> (closed[fd].None? <==> !ClosesOnExec(files[fd]));
  }

  /**
   * What else an exec does to its caller before it can fail: once it begins,
   * reference counts change exactly when a descriptor closes on exec, and the
   * thread table unless the thread that carries the image is its only one and
   * ready.
   */
  lemma ExecDisturbs(k: KernelState, request: Security.ExecRequest, current: Option<ThreadId>, root: nat,
                     mtssOk: bool, readyOk: bool, claim: Claim)
    requires FilesInvariant(k, claim)
    ensures var k2 := Exec(k, request, current, root, mtssOk, readyOk).0;
            var i := Locate(k.procs, request.caller);
            && (ExecBegins(k, request) ==>
                  && i < |k2.procs| && k2.procs[i].Some?
                  && k2.procs[i].value.files == KeptFiles(k.procs[i].value.files)
                  && (k2.counts == k.counts <==> NoneClosing(k.procs[i].value.files))
                  && (k2.threads == k.threads <==> Undisturbed(k.threads, request.caller, current)))
            && (!ExecBegins(k, request) ==> k2 == k)
  {
    hide First, Swept, Drop, KeptFiles, ClosedFiles, Reimaged, Security.Apply, Security.ExecAllowed,
      Security.DomainOf, FilesInvariant, Undisturbed, NoneClosing, LocateThread, SameLife, SameFiles, SameWaits;
    if ExecBegins(k, request) {
      var i := Locate(k.procs, request.caller);
      var files := k.procs[i].value.files;
      var k1 := k.(procs := WithFiles(k.procs, i, KeptFiles(files)), counts := Drop(k.counts, ClosedFiles(files)));
      ClosingChanges(k, i, claim);
      ReimagedThreads(k1, i, current, root);
      ReimagedRest(k1, i, current, root);
      ReimagedFiles(k1, i, current, root);
    }
  }

  lemma ReimagedFiles(k: KernelState, i: nat, current: Option<ThreadId>, root: nat)
    requires i < |k.procs| && k.procs[i].Some?
    ensures var q := Reimaged(k, i, current, root).0.procs;
            i < |q| && q[i].Some? && q[i].value.files == k.procs[i].value.files
  {
    hide First, Swept, KeptThread, LocateThread;
  }

  // ---------------------------------------------------------------------
  // Callers that have exited
  // ---------------------------------------------------------------------

  /** Waiting for a child that is still running keeps every process what it was under the same condition. */
  lemma WaitingKeepsLife(k: KernelState, parent: ProcessId, thread: Option<ThreadId>, selector: int, writeOk: bool,
                         blockOk: bool)
    requires Wait(k, parent, thread, selector, writeOk, false, blockOk).1 == Waiting
    ensures SameLife(k.procs, Wait(k, parent, thread, selector, writeOk, false, blockOk).0.procs)
            <==> LiveCaller(k, parent) || !blockOk
  {
    if LiveCaller(k, parent) {
      WaitFrame(k, parent, thread, selector, writeOk, false, blockOk);
    } else {
      hide First, Swept, LocateThread, SameLife;
      var i := Locate(k.procs, parent);
      var p := k.procs[i].value;
      var waiting := p.(childWait := Some(DecodeSelector(selector, p.group)));
      var q := Wait(k, parent, thread, selector, writeOk, false, blockOk).0.procs;
      if blockOk {
        assert !SameSlot(k.procs[i], q[i]);
        DifferentSlot(k.procs, q, i);
      } else {
        assert q == k.procs[i := Some(waiting)];
        SlotFrame(k.procs, i, waiting);
      }
    }
  }

  lemma DifferentSlot(p: Procs, q: Procs, i: nat)
    requires i < |p| == |q| && !SameSlot(p[i], q[i])
    ensures !SameLife(p, q)
  {
  }

  /** Opening a file keeps descriptors and counts in order exactly when the caller is live or no description is free. */
  lemma OpeningKeepsFiles(k: KernelState, pid: ProcessId, closeOnExec: bool, claim: Claim)
    requires FilesInvariant(k, claim)
    ensures FilesInvariant(Open(k, pid, closeOnExec).0, claim)
            <==> LiveCaller(k, pid) || First(k.counts, FreeCount) == |k.counts|
  {
    if LiveCaller(k, pid) {
      OpenKeeps(k, pid, closeOnExec, claim);
    } else if First(k.counts, FreeCount) < |k.counts| {
      hide Balanced, First;
      var i := Locate(k.procs, pid);
      var files := k.procs[i].value.files;
      assert Empty(files) && files[0..] == files;
      FirstIs(files, FreeDescriptor, 0);
      var q := Open(k, pid, closeOnExec).0.procs;
      assert q[i].value.state == Zombie && q[i].value.files[0].Some?;
    }
  }

  /** Blocking for a message keeps every process what it was exactly when the caller is live or is not blocked. */
  lemma BlockingKeepsLife(k: KernelState, pid: ProcessId, blockOk: bool)
    requires IpcInvariant(k)
    ensures |k.queues| == |k.procs|
    ensures SameLife(k.procs, ReceiveOrBlock(k, pid, blockOk).0.procs) <==> LiveCaller(k, pid) || !blockOk
  {
    IpcShape(k);
    hide First, Swept;
    var i := Locate(k.procs, pid);
    if LiveCaller(k, pid) {
      hide SameLife, IpcInvariant;
      ReceiveOrBlockFrame(k, pid, blockOk);
    } else {
      assert QueueFits(k.procs[i], k.queues[i]);
      hide IpcInvariant;
      var q := ReceiveOrBlock(k, pid, blockOk).0.procs;
      if blockOk {
        assert !SameSlot(k.procs[i], q[i]);
      } else {
        assert q == k.procs;
      }
    }
  }
}
