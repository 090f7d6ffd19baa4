/**
 * Runs of the kernel, from the state `Kernel::new` makes, that reach what the
 * exact conditions of the kernel theorems shut out.
 */
module KernelWitnesses {
  import opened Prelude
  import opened Tables
  import opened Labels
  import opened Capabilities
  import Security
  import opened SecurityWitnesses
  import opened Ipc
  import opened Descriptors
  import opened KernelSteps
  import opened KernelIds
  import opened KernelFrame
  import opened KernelCreate
  import opened KernelFiles
  import opened KernelFileSteps
  import opened KernelThreads
  import opened KernelThreadSteps
  import opened KernelIpc
  import opened KernelRuns
  import opened KernelTheorems
  import opened KernelOrder

  // ---------------------------------------------------------------------
  // Booting tasks
  // ---------------------------------------------------------------------

  /** A task without a parent is spawned. */
  const BOOT: Step := SpawnStep(None, TALKER, Copied(None), true)

  /** The process that the `i`-th boot enters. */
  ghost predicate BootedProc(slot: Option<Pcb>, i: nat) {
    && slot.Some? && slot.value.pid == i + 1 && slot.value.state == Ready && slot.value.parent.None?
    && |slot.value.files| == MAX_OPEN_FILES && slot.value.files[0].None?
    && slot.value.files[1] == Some(Descriptor(2 * i, false))
  }

  ghost predicate BootedThread(slot: Option<Tcb>, i: nat) {
    slot.Some? && slot.value.id == i + 1 && slot.value.process == i + 1
  }

  /** The sizes of the tables. */
  ghost predicate Sized(k: KernelState, procs: nat, files: nat) {
    && |k.procs| == |k.queues| == |k.security.domains| == procs && |k.counts| == files && |k.threads| == MAX_THREADS
    && |k.security.ledger.records| == MAX_CAPABILITY_RECORDS
  }

  ghost predicate ProcsBooted(procs: Procs, n: nat) {
    && n <= |procs|
    && (forall i: nat :: i < n ==> BootedProc(procs[i], i))
    && (forall i: nat :: n <= i < |procs| ==> procs[i].None?)
  }

  ghost predicate ThreadsBooted(threads: Threads, n: nat) {
    && n <= |threads|
    && (forall t: nat :: t < n ==> BootedThread(threads[t], t))
    && (forall t: nat :: n <= t < |threads| ==> threads[t].None?)
  }

  ghost predicate CountsBooted(counts: Counts, n: nat) {
    && 2 * n <= |counts|
    && (forall d: nat :: d < 2 * n ==> counts[d].Some?)
    && (forall d: nat :: 2 * n <= d < |counts| ==> counts[d].None?)
  }

  ghost predicate DomainsBooted(domains: Security.Domains, n: nat) {
    && n <= |domains|
    && (forall i: nat :: i < n ==> domains[i] == Some(Security.TaskDomain(i + 1, TALKER, 0)))
    && (forall i: nat :: n <= i < |domains| ==> domains[i].None?)
  }

  /** The grant that lets a task send to anyone. */
  const ANYONE := Grant(IpcEndpoint(ANY_64), IPC_ENDPOINT_RIGHTS, None)

  ghost predicate RecordsBooted(records: Records, n: nat) {
    && Vacancies(records) + 2 * n == MAX_CAPABILITY_RECORDS
    && forall pid :: 1 <= pid <= n ==> Given(records, pid, ANYONE)
  }

  /** `n` tasks have been booted and nothing else has happened. */
  ghost predicate Booted(k: KernelState, n: nat) {
    && Invariant(k, Exact) && k.nextPid == n + 1 && k.nextThread == n + 1
    && ProcsBooted(k.procs, n) && ThreadsBooted(k.threads, n) && CountsBooted(k.counts, n)
    && DomainsBooted(k.security.domains, n) && RecordsBooted(k.security.ledger.records, n)
    && (forall i: nat :: i < |k.queues| ==> k.queues[i] == [])
  }

  lemma {:induction false} AllVacant(records: Records)
    requires forall i :: 0 <= i < |records| ==> records[i].None?
    ensures Vacancies(records) == |records|
    decreases |records|
  {
    if records != [] {
      AllVacant(records[..|records| - 1]);
    }
  }

  lemma InitialIsBooted(procs: nat, depth: nat, files: nat)
    requires procs <= MAX_PROCESSES
    ensures var k := InitialState(procs, depth, files);
            Booted(k, 0) && Sized(k, procs, files) && k.depth == depth
  {
    InitialIsSound(procs, depth, files);
    hide Invariant, Ordered;
    AllVacant(InitialState(procs, depth, files).security.ledger.records);
  }

  /** What a boot prepares: a block with two console descriptors. */
  lemma BootPrepared(k: KernelState, n: nat)
    requires TablesOk(k.procs) && CountsBooted(k.counts, n) && 2 * n + 2 <= |k.counts| && k.nextPid == n + 1
    ensures var r := Prepare(k, None, Copied(None));
            && r.pcb.Some? && BootedProc(r.pcb, n) && CountsBooted(r.counts, n + 1) && |r.counts| == |k.counts|
  {
    hide First;
    FirstIs(k.counts, FreeCount, 2 * n);
    var c := k.counts[2 * n := Some(1)];
    FirstIs(c, FreeCount, 2 * n + 1);
    var f := NoFiles();
    assert Console(k.counts, f, 1) == (c, f[1 := Some(Descriptor(2 * n, false))], true);
  }

  /** Registering a task that no table knows, with room for its domain and its two records. */
  lemma BootJoins(s: Security.SecurityState, p: Pcb, n: nat)
    requires DomainsBooted(s.domains, n) && n < |s.domains| && RecordsBooted(s.ledger.records, n)
    requires p.pid == n + 1 && p.parent.None? && 2 * n + 2 <= MAX_CAPABILITY_RECORDS
    ensures var (t, ok) := Joined(s, p, TALKER);
            && ok && |t.domains| == |s.domains| && DomainsBooted(t.domains, n + 1)
            && |t.ledger.records| == |s.ledger.records| && RecordsBooted(t.ledger.records, n + 1)
  {
    hide First, Security.SeedGrants, InsertAll, Vacancies, Given, AddedFor;
    var pid, grants := p.pid, Security.SeedGrants(p.pid, TALKER);
    TalkerSeeds(pid);
    FirstIs(s.domains, Security.DomainFor(pid), |s.domains|);
    FirstIs(s.domains, Security.Unassigned, n);
    InsertAllFits(s.ledger, pid, grants);
    InsertAllGives(s.ledger, pid, grants, 1);
    InsertAllAdds(s.ledger, pid, grants);
    var after := InsertAll(s.ledger, pid, grants).0.records;
    AddedLength(s.ledger.records, after, pid);
    forall other | 1 <= other <= n
      ensures Given(after, other, ANYONE)
    {
      AddedKeepsGiven(s.ledger.records, after, pid, other, ANYONE);
    }
  }

  lemma AddedLength(before: Records, after: Records, owner: ProcessId)
    requires AddedFor(before, after, owner)
    ensures |after| == |before|
  {
  }

  lemma BootedIsThere(slot: Option<Pcb>, i: nat)
    requires BootedProc(slot, i)
    ensures slot.Some?
  {
  }

  lemma ProcEnters(procs: Procs, n: nat, p: Pcb)
    requires ProcsBooted(procs, n) && n < |procs| && BootedProc(Some(p), n)
    ensures First(procs, FreeProc) == n && ProcsBooted(procs[n := Some(p)], n + 1)
  {
    hide BootedProc, First;
    forall k: nat | k < n
      ensures procs[k].Some?
    {
      BootedIsThere(procs[k], k);
    }
    FirstIs(procs, FreeProc, n);
  }

  lemma ThreadEnters(threads: Threads, n: nat, t: Tcb)
    requires ThreadsBooted(threads, n) && n < |threads| && BootedThread(Some(t), n)
    ensures First(threads, FreeThread) == n && ThreadsBooted(threads[n := Some(t)], n + 1)
  {
    FirstIs(threads, FreeThread, n);
  }

  lemma BootStepIs(k: KernelState)
    requires Shaped(k) && FreeSlot(k) < |k.procs|
    ensures Next(k, BOOT) == CreateFrom(k, Prepare(k, None, Copied(None)), TALKER, true).0
    ensures Admissible(k, BOOT) && !Leaks(k, BOOT)
  {
    hide First, CreateFrom, Prepare;
  }

  lemma BootOne(k: KernelState, n: nat, procs: nat, files: nat)
    requires Booted(k, n) && Sized(k, procs, files) && n < procs && 2 * n + 2 <= files && n < 8
    ensures Shaped(k) && Admissible(k, BOOT)
    ensures var k2 := Next(k, BOOT); Booted(k2, n + 1) && Sized(k2, procs, files) && k2.depth == k.depth
  {
    InvariantShape(k, Exact);
    BootPrepared(k, n);
    var prepared := Prepare(k, None, Copied(None));
    var p := prepared.pcb.value;
    PrepareNames(k, None, Copied(None));
    BootJoins(k.security, p, n);
    ProcEnters(k.procs, n, p.(threadCount := 1));
    ThreadEnters(k.threads, n, Tcb(k.nextThread, p.pid, ThreadReady, None));
    hide Invariant, Next, ProcsBooted, ThreadsBooted, CountsBooted, DomainsBooted, RecordsBooted, Prepare, CreateFrom,
      First, Joined, RegisterOk, ProcIds, ThreadIds, Security.Below, Drop, BootedProc, BootedThread, Admissible, Leaks,
      TablesOk;
    BootStepIs(k);
    CreateFromOutcome(k, prepared, TALKER, true);
    StepKeepsInvariant(k, BOOT, Exact);
  }

  /** Two tasks are booted one after the other. */
  lemma BootTwice(procs: nat, depth: nat, files: nat) returns (k0: KernelState, k1: KernelState, k2: KernelState)
    requires 2 <= procs <= MAX_PROCESSES && 4 <= files
    ensures k0 == InitialState(procs, depth, files)
    ensures Shaped(k0) && Admissible(k0, BOOT) && k1 == Next(k0, BOOT) && Booted(k1, 1) && Sized(k1, procs, files)
    ensures Shaped(k1) && Admissible(k1, BOOT) && k2 == Next(k1, BOOT) && Booted(k2, 2) && Sized(k2, procs, files)
    ensures k1.depth == k2.depth == depth
  {
    hide Booted, Next, Admissible, Sized;
    InitialIsBooted(procs, depth, files);
    k0 := InitialState(procs, depth, files);
    BootOne(k0, 0, procs, files);
    k1 := Next(k0, BOOT);
    BootOne(k1, 1, procs, files);
    k2 := Next(k1, BOOT);
  }

  lemma BootedLocates(k: KernelState, n: nat, i: nat)
    requires Booted(k, n) && i < n
    ensures i < |k.procs| && BootedProc(k.procs[i], i) && Locate(k.procs, i + 1) == i && LiveCaller(k, i + 1)
    ensures i < |k.threads| && BootedThread(k.threads[i], i) && LocateThread(k.threads, i + 1) == i
    ensures Security.DomainOf(k.security.domains, i + 1) == Some(Security.TaskDomain(i + 1, TALKER, 0))
    ensures Shaped(k)
  {
    InvariantShape(k, Exact);
    assert BootedProc(k.procs[i], i) && BootedThread(k.threads[i], i);
    hide Invariant;
    FirstIs(k.procs, HasPid(i + 1), i);
    FirstIs(k.threads, HasThread(i + 1), i);
    FirstIs(k.security.domains, Security.DomainFor(i + 1), i);
  }

  // ---------------------------------------------------------------------
  // A message that stays in the queue of a failed send
  // ---------------------------------------------------------------------

  const HELLO := MessagePayload(PublicClass, [])

  lemma TalkersMayTalk()
    ensures Security.IpcAllowed(TALKER, TALKER, PublicClass) && HasRight(IPC_ENDPOINT_RIGHTS, SEND)
  {
  }

  lemma AnyoneIsAllowed(records: Records, sender: ProcessId, receiver: ProcessId)
    requires Given(records, sender, ANYONE)
    ensures First(records, Security.Allowing(sender, IpcEndpoint(receiver), SEND)) < |records|
  {
    TalkersMayTalk();
    hide First, HasRight;
    var i :| 0 <= i < |records| && records[i].Some? && records[i].value.owner == sender
             && records[i].value.target == ANYONE.target && records[i].value.rights == ANYONE.rights;
    assert Security.Allowing(sender, IpcEndpoint(receiver), SEND)(records[i]);
  }

  lemma TwoMayTalk(k: KernelState)
    requires Booted(k, 2)
    ensures IpcAuthorised(k.security, 1, 2, PublicClass)
  {
    hide Invariant, First, Security.DomainOf, Given, ProcsBooted, ThreadsBooted, CountsBooted, DomainsBooted,
      Vacancies, Security.IpcAllowed;
    BootedLocates(k, 2, 0);
    BootedLocates(k, 2, 1);
    TalkersMayTalk();
    AnyoneIsAllowed(k.security.ledger.records, 1, 2);
  }

  const LISTEN: Step := ReceiveOrBlockStep(2, true)

  /** The second of two tasks waits for a message. */
  lemma SecondBlocks(k: KernelState)
    requires Booted(k, 2) && |k.queues| == |k.procs|
    ensures var b := ReceiveOrBlock(k, 2, true).0;
            && |b.queues| == |b.procs| && b.security == k.security && b.depth == k.depth
            && Locate(b.procs, 2) == 1 < |b.procs| && b.procs[1].value.state == Blocked && b.queues[1] == []
  {
    BootedLocates(k, 2, 1);
    hide Invariant, First, Swept, ProcsBooted, ThreadsBooted, CountsBooted, DomainsBooted, RecordsBooted;
    var b := ReceiveOrBlock(k, 2, true).0;
    assert b.procs == WithState(k.procs, 1, Blocked);
    FirstIs(b.procs, HasPid(2), 1);
  }

  /** What sending to a blocked process that cannot be made ready does. */
  lemma SendStrands(b: KernelState)
    requires |b.queues| == |b.procs| && IpcAuthorised(b.security, 1, 2, PublicClass) && b.depth > 0
    requires Locate(b.procs, 2) == 1 < |b.procs| && b.procs[1].value.state == Blocked && b.queues[1] == []
    ensures var (after, r) := Send(b, 1, 2, HELLO, false, (_: ThreadId) => true, true);
            r == Err(NotReady) && after.queues != b.queues
  {
    hide IpcAuthorised, First, Woken;
    var stuck := b.queues[1] + [Message(1, 2, b.sequence, HELLO)];
    assert b.queues[1 := stuck][1] == stuck && stuck != [];
  }

  lemma ListenIs(k: KernelState)
    requires Booted(k, 2)
    ensures Shaped(k) && Admissible(k, LISTEN) && Next(k, LISTEN) == ReceiveOrBlock(k, 2, true).0
  {
    BootedLocates(k, 2, 1);
    hide Booted, ReceiveOrBlock, LiveCaller;
  }

  /**
   * The first task sends to the second, which is blocked and cannot be made ready: the send fails and the message
   * stays.
   */
  lemma StrandedMessage(procs: nat, depth: nat, files: nat) returns (states: seq<KernelState>, steps: seq<Step>)
    requires 2 <= procs <= MAX_PROCESSES && 1 <= depth && 4 <= files
    ensures IsRun(states, steps) && |steps| == 3 && states[0] == InitialState(procs, depth, files)
    ensures |states[3].queues| == |states[3].procs|
    ensures var (after, r) := Send(states[3], 1, 2, HELLO, false, (_: ThreadId) => true, true);
            r == Err(NotReady) && after.queues != states[3].queues
  {
    hide Booted, Next, Admissible, Sized, IpcAuthorised, Locate, Send, ReceiveOrBlock, TablesOk, InitialState;
    var k0, k1, k2 := BootTwice(procs, depth, files);
    ListenIs(k2);
    SecondBlocks(k2);
    TwoMayTalk(k2);
    var b := Next(k2, LISTEN);
    SendStrands(b);
    states, steps := [k0, k1, k2, b], [BOOT, BOOT, LISTEN];
  }

  // ---------------------------------------------------------------------
  // An exec that keeps another process's thread
  // ---------------------------------------------------------------------

  lemma ReimagingMiscounts(k: KernelState)
    requires Booted(k, 2)
    ensures 0 < |k.procs| && k.procs[0].Some? && k.procs[0].value.pid == 1 && ForeignThread(k.threads, 1, Some(2))
    ensures var after := Reimaged(k, 0, Some(2), 0).0; !ThreadsCounted(after.procs, after.threads)
  {
    BootedLocates(k, 2, 0);
    BootedLocates(k, 2, 1);
    BootedThreads(k, 2);
    hide Booted, First, Crew, ThreadInvariant, Reimaged, SameLife, SameFiles, SameWaits;
    ReimagedFrame(k, 0, Some(2), 0);
    ReimagedCounts(k, 0, Some(2), 0);
    assert LiveAt(Reimaged(k, 0, Some(2), 0).0.procs, 0);
  }

  lemma BootedThreads(k: KernelState, n: nat)
    requires Booted(k, n)
    ensures ThreadInvariant(k)
  {
  }

  /** The first of two tasks replaces its image and names the other one's thread: it counts one thread and has none. */
  lemma ForeignThreadMiscounts(procs: nat, depth: nat, files: nat) returns (states: seq<KernelState>, steps: seq<Step>)
    requires 2 <= procs <= MAX_PROCESSES && 4 <= files
    ensures IsRun(states, steps) && |steps| == 2 && states[0] == InitialState(procs, depth, files)
    ensures var k := states[2];
            && 0 < |k.procs| && k.procs[0].Some? && k.procs[0].value.pid == 1 && ForeignThread(k.threads, 1, Some(2))
            && (var after := Reimaged(k, 0, Some(2), 0).0; !ThreadsCounted(after.procs, after.threads))
  {
    hide Booted, Next, Admissible, Sized, TablesOk, InitialState, Reimaged, ThreadsCounted, ForeignThread;
    var k0, k1, k2 := BootTwice(procs, depth, files);
    ReimagingMiscounts(k2);
    states, steps := [k0, k1, k2], [BOOT, BOOT];
  }

  // ---------------------------------------------------------------------
  // A clone that retains descriptors
  // ---------------------------------------------------------------------

  const DAEMON := Security.ExecRequest(1, TALKER, true, false, true)

  /** The first task gets an address space by replacing its image. */
  const GET_SPACE: Step := ExecStep(DAEMON, None, 4096, true, true)

  lemma ReimagedRoot(k: KernelState, i: nat, current: Option<ThreadId>, root: nat)
    requires i < |k.procs| && k.procs[i].Some?
    ensures var q := Reimaged(k, i, current, root).0.procs;
            && |q| == |k.procs| && q[i].Some? && q[i].value.root == root && q[i].value.pid == k.procs[i].value.pid
            && q[i].value.files == k.procs[i].value.files
            && (forall j: nat :: j < |q| && j != i ==> q[j] == k.procs[j])
  {
    hide First, Swept, KeptThread, LocateThread;
  }

  /** What an authorised exec does to the process table. */
  lemma ExecTable(k: KernelState, request: Security.ExecRequest, current: Option<ThreadId>, root: nat, mtssOk: bool,
                  readyOk: bool)
    requires var d := Security.DomainOf(k.security.domains, request.caller);
             d.Some? && Security.ExecAllowed(d.value.creds, request)
    requires Locate(k.procs, request.caller) < |k.procs|
    ensures var i := Locate(k.procs, request.caller);
            var q := Exec(k, request, current, root, mtssOk, readyOk).0.procs;
            && |q| == |k.procs| && q[i].Some? && q[i].value.root == root && q[i].value.pid == request.caller
            && q[i].value.files == KeptFiles(k.procs[i].value.files)
            && (forall j: nat :: j < |q| && j != i ==> q[j] == k.procs[j])
  {
    hide First, Drop, KeptFiles, ClosedFiles, Reimaged, Security.Apply, Security.DomainOf, Security.ExecAllowed;
    var i := Locate(k.procs, request.caller);
    var files := k.procs[i].value.files;
    var k1 := k.(procs := WithFiles(k.procs, i, KeptFiles(files)), counts := Drop(k.counts, ClosedFiles(files)));
    ReimagedRoot(k1, i, current, root);
  }

  lemma KeptStays(files: Files, fd: nat)
    requires fd < |files| && files[fd].Some? && !files[fd].value.closeOnExec
    ensures KeptFiles(files)[fd] == files[fd]
  {
    hide Swept;
  }

  /** The first task has an address space and a descriptor, and every other slot is free. */
  ghost predicate Housed(procs: Procs) {
    && 2 <= |procs| && procs[0].Some? && procs[0].value.pid == 1 && procs[0].value.root == 4096
    && |procs[0].value.files| == MAX_OPEN_FILES && procs[0].value.files[1].Some?
    && (forall i: nat :: 1 <= i < |procs| ==> procs[i].None?)
  }

  lemma ExecHouses(k: KernelState)
    requires Booted(k, 1) && 2 <= |k.procs|
    ensures Housed(Exec(k, DAEMON, None, 4096, true, true).0.procs)
  {
    BootedLocates(k, 1, 0);
    assert forall i: nat :: 1 <= i < |k.procs| ==> k.procs[i].None?;
    hide Booted, First, Exec, KeptFiles, Security.DomainOf, Locate, LocateThread;
    ExecTable(k, DAEMON, None, 4096, true, true);
    KeptStays(k.procs[0].value.files, 1);
  }

  lemma TalkerSpawns()
    ensures Security.SpawnAllowed(TALKER, TALKER)
  {
    DelegationReflexive(TALKER);
  }

  lemma BootedDomains(k: KernelState, n: nat)
    requires Booted(k, n)
    ensures Security.DistinctDomains(k.security.domains)
  {
  }

  lemma RegisterKeepsTalker(s: Security.SecurityState)
    requires Security.DistinctDomains(s.domains)
             && Security.DomainOf(s.domains, 1) == Some(Security.TaskDomain(1, TALKER, 0))
    ensures Security.DomainOf(Security.Apply(s, Security.Register(1, TALKER)).0.domains, 1)
            == Some(Security.TaskDomain(1, TALKER, 0))
  {
    hide Security.Registered, Security.DistinctDomains, Security.DomainOf;
    Security.RegistrationIsLocal(s.domains, s.ledger, 1, TALKER, 1);
  }

  /** Whether or not its registration succeeds, the first task may spawn one like itself. */
  lemma ExecMaySpawn(k: KernelState)
    requires Booted(k, 1) && 2 <= |k.procs|
    ensures MaySpawn(Exec(k, DAEMON, None, 4096, true, true).0, 1, TALKER)
  {
    hide Booted, First, Security.DistinctDomains, Exec, Security.SpawnAllowed, Security.DomainOf, Security.Apply,
      Locate, LocateThread;
    ExecHouses(k);
    BootedLocates(k, 1, 0);
    BootedDomains(k, 1);
    TalkerSpawns();
    ExecRest(k, DAEMON, None, 4096, true, true);
    RegisterKeepsTalker(k.security);
    HousedLocates(Exec(k, DAEMON, None, 4096, true, true).0.procs);
  }

  lemma HousedLocates(procs: Procs)
    requires Housed(procs)
    ensures Locate(procs, 1) == 0
  {
    FirstIs(procs, HasPid(1), 0);
  }

  lemma GetSpaceStep(k: KernelState)
    requires Shaped(k)
    ensures Admissible(k, GET_SPACE) && Next(k, GET_SPACE) == Exec(k, DAEMON, None, 4096, true, true).0
            && !Leaks(k, GET_SPACE)
  {
    hide Exec, Security.DomainOf, LocateThread, TablesOk;
  }

  lemma GetSpaceIs(k: KernelState)
    requires Booted(k, 1)
    ensures Shaped(k) && Admissible(k, GET_SPACE) && Next(k, GET_SPACE) == Exec(k, DAEMON, None, 4096, true, true).0
    ensures Invariant(Next(k, GET_SPACE), Exact)
  {
    hide Booted, Invariant, Exec, Next, Admissible, Leaks;
    BootedSound(k, 1);
    InvariantShape(k, Exact);
    GetSpaceStep(k);
    StepKeepsInvariant(k, GET_SPACE, Exact);
  }

  lemma BootedSound(k: KernelState, n: nat)
    requires Booted(k, n)
    ensures Invariant(k, Exact)
  {
    hide Invariant;
  }

  const SPAWN: Step := SpawnStep(Some(1), TALKER, Copied(None), true)

  lemma SpawnRetains(k: KernelState)
    requires Invariant(k, Exact) && MaySpawn(k, 1, TALKER) && Housed(k.procs)
    ensures TablesOk(k.procs) && SpawnLeaks(k, Some(1), TALKER, Copied(None))
    ensures FilesInvariant(k, Exact) && !FilesInvariant(Spawn(k, Some(1), TALKER, Copied(None), true).0, Exact)
  {
    FirstIs(k.procs, HasPid(1), 0);
    FirstIs(k.procs, FreeProc, 1);
    SoundFiles(k, Exact);
    hide Invariant, First, CreateTask, Balanced, MaySpawn;
    FailedCloneRetains(k, 1, TALKER, Copied(None), true);
    assert k.procs[0].value.files == StartFiles(k, Some(1));
  }

  lemma SoundFiles(k: KernelState, claim: Claim)
    requires Invariant(k, claim)
    ensures FilesInvariant(k, claim)
  {
  }

  lemma SpawnStepIs(k: KernelState)
    requires Shaped(k)
    ensures Admissible(k, SPAWN) && Next(k, SPAWN) == Spawn(k, Some(1), TALKER, Copied(None), true).0
    ensures Leaks(k, SPAWN) <==> SpawnLeaks(k, Some(1), TALKER, Copied(None))
  {
    hide Spawn, SpawnLeaks;
  }

  /** The first task spawns a child whose address space cannot be cloned: what the child inherited stays counted. */
  lemma RetainedDescriptors(procs: nat, depth: nat, files: nat) returns (states: seq<KernelState>, steps: seq<Step>)
    requires 2 <= procs <= MAX_PROCESSES && 4 <= files
    ensures IsRun(states, steps) && |steps| == 3 && states[0] == InitialState(procs, depth, files)
    ensures steps[2] == SPAWN && Leaks(states[2], steps[2])
    ensures FilesInvariant(states[2], Exact) && !FilesInvariant(states[3], Exact)
  {
    hide Booted, Next, Admissible, TablesOk, InitialState, FilesInvariant, Leaks, Exec, Spawn, Invariant, SpawnLeaks,
      MaySpawn, Housed;
    var k0, k1, _ := BootTwice(procs, depth, files);
    GetSpaceIs(k1);
    ExecHouses(k1);
    ExecMaySpawn(k1);
    var k2 := Next(k1, GET_SPACE);
    InvariantShape(k2, Exact);
    SpawnRetains(k2);
    SpawnStepIs(k2);
    states, steps := [k0, k1, k2, Next(k2, SPAWN)], [BOOT, GET_SPACE, SPAWN];
  }

  // ---------------------------------------------------------------------
  // Calls by a process that has exited
  // ---------------------------------------------------------------------

  const LEAVE: Step := ExitStep(1, 0, true, (_: ThreadId) => true)

  lemma LeavingBuries(k: KernelState)
    requires Booted(k, 1) && |k.queues| == |k.procs| && 3 <= |k.counts|
    ensures var k2 := Exit(k, 1, 0, true, (_: ThreadId) => true);
            && !LiveCaller(k2, 1) && First(k2.counts, FreeCount) < |k2.counts|
  {
    BootedLocates(k, 1, 0);
    hide Invariant, First, Swept, Drop, RevokeTask, ProcsBooted, ThreadsBooted, DomainsBooted, RecordsBooted, RefsIn;
    var k2 := Exit(k, 1, 0, true, (_: ThreadId) => true);
    assert k2.procs == k.procs[0 := Some(Dead(k.procs[0].value, 0))];
    FirstIs(k2.procs, HasPid(1), 0);
    assert k2.counts[2] == LoweredBy(k.counts[2], RefsIn(k.procs[0].value.files, 2));
    assert k2.counts[2].None?;
  }

  lemma LeaveStep(k: KernelState)
    requires Shaped(k)
    ensures Admissible(k, LEAVE) && Next(k, LEAVE) == Exit(k, 1, 0, true, (_: ThreadId) => true) && !Leaks(k, LEAVE)
  {
    hide Exit, TablesOk;
  }

  lemma LeaveIs(k: KernelState)
    requires Booted(k, 1)
    ensures Shaped(k) && Admissible(k, LEAVE) && Next(k, LEAVE) == Exit(k, 1, 0, true, (_: ThreadId) => true)
    ensures Invariant(Next(k, LEAVE), Exact)
  {
    hide Booted, Invariant, Exit, Next, Admissible, Leaks;
    BootedSound(k, 1);
    InvariantShape(k, Exact);
    LeaveStep(k);
    StepKeepsInvariant(k, LEAVE, Exact);
  }

  lemma CallsDisturb(k: KernelState)
    requires Invariant(k, Exact) && !LiveCaller(k, 1) && First(k.counts, FreeCount) < |k.counts|
    ensures Shaped(k) && !SameLife(k.procs, ReceiveOrBlock(k, 1, true).0.procs)
            && !FilesInvariant(Open(k, 1, false).0, Exact)
  {
    InvariantShape(k, Exact);
    SoundFiles(k, Exact);
    SoundIpc(k, Exact);
    hide Invariant, IpcInvariant, FilesInvariant, ReceiveOrBlock, Open, SameLife, First;
    BlockingKeepsLife(k, 1, true);
    OpeningKeepsFiles(k, 1, false, Exact);
  }

  /**
   * A task exits and then calls: waiting for a message it is no longer a zombie, opening a file it holds a descriptor.
   */
  lemma ExitedCallerDisturbs(procs: nat, depth: nat, files: nat) returns (states: seq<KernelState>, steps: seq<Step>)
    requires 2 <= procs <= MAX_PROCESSES && 4 <= files
    ensures IsRun(states, steps) && |steps| == 2 && states[0] == InitialState(procs, depth, files)
    ensures var k := states[2];
            && Shaped(k) && !LiveCaller(k, 1)
            && !SameLife(k.procs, ReceiveOrBlock(k, 1, true).0.procs)
            && !FilesInvariant(Open(k, 1, false).0, Exact)
  {
    hide Booted, Next, Admissible, TablesOk, InitialState, FilesInvariant, Exit, Invariant, ReceiveOrBlock, Open,
      SameLife, First, LiveCaller;
    var k0, k1, _ := BootTwice(procs, depth, files);
    LeaveIs(k1);
    LeavingBuries(k1);
    var k2 := Next(k1, LEAVE);
    CallsDisturb(k2);
    states, steps := [k0, k1, k2], [BOOT, LEAVE];
  }
}
