/**
 * Further runs from the state `Kernel::new` makes: task creation and exec that
 * fail half way, and calls by a parent that has exited.
 */
module KernelTaskWitnesses {
  import opened Prelude
  import opened Tables
  import opened Labels
  import opened Capabilities
  import Security
  import opened SecurityWitnesses
  import opened Descriptors
  import opened KernelSteps
  import opened KernelIds
  import opened KernelFrame
  import opened KernelCreate
  import opened KernelFiles
  import opened KernelFileSteps
  import opened KernelThreads
  import opened KernelIpc
  import opened KernelWait
  import opened KernelRuns
  import opened KernelTheorems
  import opened KernelCallers
  import opened KernelWitnesses

  // ---------------------------------------------------------------------
  // A process clone that retains descriptors
  // ---------------------------------------------------------------------

  /** The first task clones itself into a process that is to share its address space. */
  const FORK: Step := CloneProcessStep(1, TALKER, Shared(None), true)

  lemma BootedSpawns(k: KernelState)
    requires Booted(k, 1) && 2 <= |k.procs|
    ensures MaySpawn(k, 1, TALKER) && FreeSlot(k) == 1 && Locate(k.procs, 1) == 0
  {
    BootedLocates(k, 1, 0);
    FirstIs(k.procs, FreeProc, 1);
    hide Booted, First, Security.DomainOf, Security.SpawnAllowed;
    TalkerSpawns();
  }

  /** Its consoles are open, or there is a description for the one that is not. */
  lemma BootedConsoles(k: KernelState)
    requires Booted(k, 1) && 3 <= |k.counts|
    ensures ConsolesFit(k, 1)
  {
    BootedLocates(k, 1, 0);
    hide First, Invariant, Locate, ProcsBooted, ThreadsBooted, DomainsBooted, RecordsBooted, RefsIn, Raise;
    var files := StartFiles(k, Some(1));
    var up := Raise(k.counts, files);
    assert up[2].None?;
    assert First(up, FreeCount) <= 2;
  }

  lemma ForkIs(k: KernelState)
    requires Shaped(k)
    ensures Admissible(k, FORK) && Next(k, FORK) == CloneProcess(k, 1, TALKER, Shared(None), true).0
    ensures Leaks(k, FORK) <==> Creates(k, 1, TALKER) && ShellLeaks(k, 1, Shared(None))
  {
    hide CloneProcess, ShellLeaks, Creates;
  }

  /** A new task, which has no address space yet, cannot share it; what its clone inherited stays counted. */
  lemma RetainedByClone(procs: nat, depth: nat, files: nat) returns (states: seq<KernelState>, steps: seq<Step>)
    requires 2 <= procs <= MAX_PROCESSES && 4 <= files
    ensures IsRun(states, steps) && |steps| == 2 && states[0] == InitialState(procs, depth, files)
    ensures steps[1] == FORK && Leaks(states[1], steps[1])
    ensures FilesInvariant(states[1], Exact) && !FilesInvariant(states[2], Exact)
  {
    hide Booted, Next, Admissible, TablesOk, InitialState, FilesInvariant, Leaks, Invariant, MaySpawn, First,
      ConsolesFit, CloneProcess;
    var k0, k1, _ := BootTwice(procs, depth, files);
    BootedSpawns(k1);
    BootedConsoles(k1);
    BootedSound(k1, 1);
    SoundFiles(k1, Exact);
    ForkIs(k1);
    FailedShellRetains(k1, 1, TALKER, Shared(None), true);
    states, steps := [k0, k1, Next(k1, FORK)], [BOOT, FORK];
  }

  // ---------------------------------------------------------------------
  // A child
  // ---------------------------------------------------------------------

  const SPACE := Copied(Some(8192))

  lemma {:induction false} DerivedFit(records: Records, parent: ProcessId)
    ensures |Security.DerivedGrants(records, parent)| + Vacancies(records) <= |records|
    decreases |records|
  {
    hide HasRight;
    if records != [] {
      DerivedFit(records[..|records| - 1], parent);
    }
  }

  lemma RegisteredFits(s: Security.SecurityState)
    requires First(s.domains, Security.DomainFor(2)) == |s.domains|
             && First(s.domains, Security.Unassigned) < |s.domains|
    requires Vacancies(s.ledger.records) >= 2
    ensures var (t, r) := Security.Apply(s, Security.Register(2, TALKER));
            && r.Ok? && Vacancies(t.ledger.records) == Vacancies(s.ledger.records) - 2
            && |t.ledger.records| == |s.ledger.records|
  {
    TalkerSeeds(2);
    hide First, InsertAll, Vacancies, Security.SeedGrants, AddedFor;
    InsertAllFits(s.ledger, 2, Security.SeedGrants(2, TALKER));
    InsertAllAdds(s.ledger, 2, Security.SeedGrants(2, TALKER));
    AddedLength(s.ledger.records, InsertAll(s.ledger, 2, Security.SeedGrants(2, TALKER)).0.records, 2);
  }

  lemma OneBooted(domains: Security.Domains)
    requires DomainsBooted(domains, 1) && 2 <= |domains|
    ensures Security.DomainOf(domains, 1).Some? && First(domains, Security.DomainFor(2)) == |domains|
    ensures First(domains, Security.Unassigned) == 1 && Security.DistinctDomains(domains)
  {
    FirstIs(domains, Security.DomainFor(1), 0);
    FirstIs(domains, Security.DomainFor(2), |domains|);
    FirstIs(domains, Security.Unassigned, 1);
  }

  lemma DerivationFits(t: Security.SecurityState)
    requires Security.DomainOf(t.domains, 1).Some? && Security.DomainOf(t.domains, 2).Some?
    requires 2 * Vacancies(t.ledger.records) >= |t.ledger.records|
    ensures Security.Apply(t, Security.Derive(1, 2)).1.Ok?
  {
    hide First, Security.DomainOf, InsertAll, Vacancies, Security.DerivedGrants;
    DerivedFit(t.ledger.records, 1);
    InsertAllFits(t.ledger, 2, Security.DerivedGrants(t.ledger.records, 1));
  }

  /** A table that is nearly empty takes the second task and all it inherits. */
  lemma ChildJoins(s: Security.SecurityState, p: Pcb)
    requires DomainsBooted(s.domains, 1) && 2 <= |s.domains|
             && Vacancies(s.ledger.records) == MAX_CAPABILITY_RECORDS - 2
    requires |s.ledger.records| == MAX_CAPABILITY_RECORDS && p.pid == 2 && p.parent == Some(1)
    ensures Joined(s, p, TALKER).1
  {
    OneBooted(s.domains);
    RegisteredFits(s);
    Security.RegistrationIsLocal(s.domains, s.ledger, 2, TALKER, 1);
    var t := Security.Apply(s, Security.Register(2, TALKER)).0;
    assert t.domains == Security.Registered(s.domains, s.ledger, 2, TALKER).domains;
    hide First, DomainsBooted, Security.DistinctDomains, Vacancies, Security.Apply, Security.Registered,
      Security.DomainOf;
    DerivationFits(t);
  }

  lemma ChildPrepared(k: KernelState)
    requires Booted(k, 1) && 3 <= |k.counts| && TablesOk(k.procs)
    ensures var r := Prepare(k, Some(1), SPACE);
            && r.pcb.Some? && r.pcb.value.pid == 2 && r.pcb.value.parent == Some(1) && r.pcb.value.state == Ready
            && r.pcb.value.threadCount == 0 && k.procs != [] && k.procs[0].Some?
            && r.pcb.value.group == k.procs[0].value.group
  {
    BootedLocates(k, 1, 0);
    BootedConsoles(k);
    BootedSound(k, 1);
    SoundFiles(k, Exact);
    BootedNext(k);
    hide Booted, First, Raise, Inherit, Consoles, FilesInvariant, Invariant, Drop;
    InheritBalances(k, 0, Exact);
  }

  lemma BootedNext(k: KernelState)
    requires Booted(k, 1)
    ensures k.nextPid == 2 && DomainsBooted(k.security.domains, 1) && FreeThreadSlot(k) <= 1
    ensures Vacancies(k.security.ledger.records) == MAX_CAPABILITY_RECORDS - 2
    ensures forall i: nat :: 1 <= i < |k.procs| ==> k.procs[i].None?
  {
    hide Invariant, First, Vacancies;
    FirstIs(k.threads, FreeThread, 1);
  }

  lemma ChildSpawned(k: KernelState, procs: nat, files: nat)
    requires Booted(k, 1) && Sized(k, procs, files) && 2 <= procs && 3 <= files && TablesOk(k.procs)
    ensures var (k2, child) := Spawn(k, Some(1), TALKER, SPACE, true);
            && child == Some(2) && |k2.procs| == procs && k2.procs[0] == k.procs[0]
            && k2.procs[1].Some? && k2.procs[1].value.pid == 2 && k2.procs[1].value.parent == Some(1)
            && k2.procs[1].value.state == Ready && k.procs[0].Some?
            && k2.procs[1].value.group == k.procs[0].value.group
            && (forall i: nat :: 2 <= i < procs ==> k2.procs[i].None?)
  {
    BootedSound(k, 1);
    InvariantShape(k, Exact);
    BootedSpawns(k);
    BootedNext(k);
    ChildPrepared(k);
    var prepared := Prepare(k, Some(1), SPACE);
    ChildJoins(k.security, prepared.pcb.value);
    hide Booted, Invariant, First, Prepare, CreateFrom, Joined, RegisterOk, MaySpawn, Drop, ProcIds, ThreadIds,
      Security.Below, Vacancies, DomainsBooted;
    CreateFromOutcome(k, prepared, TALKER, true);
  }

  // ---------------------------------------------------------------------
  // A thread that outlives a failed load
  // ---------------------------------------------------------------------

  const LOAD: Step := SpawnLoadedStep(1, TALKER, SPACE, true, false)

  lemma LoadIs(k: KernelState)
    requires Shaped(k)
    ensures Admissible(k, LOAD) && Next(k, LOAD) == SpawnLoaded(k, 1, TALKER, SPACE, true, false).0
  {
    hide SpawnLoaded;
  }

  /** The first task spawns a child whose image does not load: the child is gone and its thread is not. */
  lemma OrphanedThread(procs: nat, depth: nat, files: nat) returns (states: seq<KernelState>, steps: seq<Step>)
    requires 2 <= procs <= MAX_PROCESSES && 4 <= files
    ensures IsRun(states, steps) && |steps| == 2 && states[0] == InitialState(procs, depth, files)
    ensures Locate(states[2].procs, 2) == |states[2].procs| && Crew(states[2].threads, 2) == 1
  {
    hide Booted, Next, Admissible, TablesOk, InitialState, Invariant, Spawn, SpawnLoaded, Crew, First, Sized;
    var k0, k1, _ := BootTwice(procs, depth, files);
    BootedSound(k1, 1);
    InvariantShape(k1, Exact);
    BootedNext(k1);
    LoadIs(k1);
    ChildSpawned(k1, procs, files);
    FailedLoadLeavesThread(k1, 1, TALKER, SPACE, true, Exact);
    states, steps := [k0, k1, Next(k1, LOAD)], [BOOT, LOAD];
    assert Locate(k1.procs, 2) == |k1.procs|;
  }

  // ---------------------------------------------------------------------
  // A parent that waits after it has exited
  // ---------------------------------------------------------------------

  const BEAR: Step := SpawnStep(Some(1), TALKER, SPACE, true)

  lemma BearIs(k: KernelState)
    requires Shaped(k)
    ensures Admissible(k, BEAR) && Next(k, BEAR) == Spawn(k, Some(1), TALKER, SPACE, true).0
  {
    hide Spawn;
  }

  /** Both in one group at first, then the child in another. */
  ghost predicate Kin(procs: Procs, g: nat, wait: bool, group: nat, dead: bool) {
    && 2 <= |procs| && procs[0].Some? && procs[0].value.pid == 1 && procs[0].value.parent.None?
    && procs[0].value.group == g && procs[0].value.state != Zombie
    && (wait ==> procs[0].value.childWait == Some(Group(g)))
    && procs[1].Some? && procs[1].value.pid == 2 && procs[1].value.parent == Some(1) && procs[1].value.group == group
    && (procs[1].value.state == Zombie <==> dead) && (forall i: nat :: 2 <= i < |procs| ==> procs[i].None?)
  }

  lemma KinLocates(procs: Procs, g: nat, wait: bool, group: nat, dead: bool)
    requires Kin(procs, g, wait, group, dead)
    ensures Locate(procs, 1) == 0 && Locate(procs, 2) == 1
  {
    FirstIs(procs, HasPid(1), 0);
    FirstIs(procs, HasPid(2), 1);
  }

  /** The parent waits for its own group. */
  const WAIT_GROUP: Step := WaitStep(1, None, 0, true, false, true)

  const LEAVE_SECOND: Step := ExitStep(2, 0, true, (_: ThreadId) => true)

  lemma KinSearched(procs: Procs, g: nat)
    requires Kin(procs, g, false, g, false)
    ensures 0 < |procs| && procs[0].Some? && procs[0].value.group == g && procs[0].value.pid == 1
    ensures First(procs, ZombieMatching(1, Group(g))) == |procs|
            && First(procs, ChildMatching(1, Group(g))) == 1 < |procs|
  {
    hide First;
    FirstIs(procs, ZombieMatching(1, Group(g)), |procs|);
    FirstIs(procs, ChildMatching(1, Group(g)), 1);
  }

  lemma KinRecorded(procs: Procs, g: nat)
    requires Kin(procs, g, false, g, false)
    ensures var p := procs[0].value;
            Kin(procs[0 := Some(p.(childWait := Some(Group(g)), state := Blocked))], g, true, g, false)
  {
  }

  /** A wait that finds only running children is recorded, and its caller blocks. */
  lemma WaitRecords(k: KernelState, parent: ProcessId, selector: int, i: nat, sel: Selector)
    requires i == Locate(k.procs, parent) && i < |k.procs| && sel == DecodeSelector(selector, k.procs[i].value.group)
    requires First(k.procs, ZombieMatching(parent, sel)) == |k.procs|
    requires First(k.procs, ChildMatching(parent, sel)) < |k.procs|
    ensures Wait(k, parent, None, selector, true, false, true).0.procs
            == k.procs[i := Some(k.procs[i].value.(childWait := Some(sel), state := Blocked))]
  {
    hide First, Swept, LocateThread, DecodeSelector, RevokeTask, WaitCleared;
  }

  lemma KinWaits(k: KernelState, g: nat)
    requires Kin(k.procs, g, false, g, false)
    ensures Kin(Wait(k, 1, None, 0, true, false, true).0.procs, g, true, g, false)
  {
    hide First, Kin, Wait;
    KinLocates(k.procs, g, false, g, false);
    KinSearched(k.procs, g);
    KinRecorded(k.procs, g);
    WaitRecords(k, 1, 0, 0, Group(g));
  }

  lemma KinRegroups(k: KernelState, g: nat, group: nat, dead: bool, next: nat)
    requires Kin(k.procs, g, true, group, dead)
    ensures Kin(Regrouped(k, 1, 2, next, true).procs, g, true, next, dead)
  {
    KinLocates(k.procs, g, true, group, dead);
  }

  lemma KinBuried(procs: Procs, g: nat)
    requires Kin(procs, g, true, g + 1, false)
    ensures Kin(procs[1 := Some(Dead(procs[1].value, 0))], g, true, g + 1, true)
  {
  }

  /** Its parent waits for a group the child has left. */
  lemma NobodyIsWoken(b: KernelState, g: nat)
    requires Kin(b.procs, g, true, g + 1, true)
    ensures ParentWoken(b, 1, true, (_: ThreadId) => true) == b
  {
    KinLocates(b.procs, g, true, g + 1, true);
    hide Swept, Woken, First;
  }

  lemma KinExits(k: KernelState, g: nat)
    requires |k.queues| == |k.procs| && Kin(k.procs, g, true, g + 1, false)
    ensures Kin(Exit(k, 2, 0, true, (_: ThreadId) => true).procs, g, true, g + 1, true)
  {
    KinLocates(k.procs, g, true, g + 1, false);
    KinBuried(k.procs, g);
    BuriedSlot(k, 1, 0);
    hide First, Buried, ParentWoken;
    NobodyIsWoken(Buried(k, 1, 0), g);
  }

  lemma KinStepsAre(k: KernelState, g: nat)
    requires Shaped(k)
    ensures LiveCaller(k, 1) ==> Admissible(k, WAIT_GROUP)
    ensures Admissible(k, LEAVE_SECOND) && Admissible(k, RegroupStep(1, 2, g, true))
    ensures Next(k, WAIT_GROUP) == Wait(k, 1, None, 0, true, false, true).0
    ensures Next(k, LEAVE_SECOND) == Exit(k, 2, 0, true, (_: ThreadId) => true)
    ensures Next(k, RegroupStep(1, 2, g, true)) == Regrouped(k, 1, 2, g, true)
  {
    hide Wait, Exit, Regrouped, LiveCaller;
  }

  lemma KinReveals(k: KernelState, g: nat)
    requires Kin(k.procs, g, true, g + 1, true)
    ensures RevealsZombie(k, RegroupStep(1, 2, g, true))
    ensures !NoneMissed(Regrouped(k, 1, 2, g, true).procs, true)
  {
    KinLocates(k.procs, g, true, g + 1, true);
    hide First;
    var q := Regrouped(k, 1, 2, g, true).procs;
    assert Missed(q[0].value, q[1].value, true);
  }

  lemma KinIsLive(k: KernelState, g: nat)
    requires Kin(k.procs, g, false, g, false)
    ensures LiveCaller(k, 1)
  {
    KinLocates(k.procs, g, false, g, false);
  }

  lemma BornKin(k: KernelState, procs: nat, files: nat) returns (g: nat)
    requires Booted(k, 1) && Sized(k, procs, files) && 2 <= procs && 3 <= files && TablesOk(k.procs)
    ensures Kin(Spawn(k, Some(1), TALKER, SPACE, true).0.procs, g, false, g, false)
  {
    BootedLocates(k, 1, 0);
    g := k.procs[0].value.group;
    hide Booted, Spawn;
    ChildSpawned(k, procs, files);
  }

  /**
   * A parent waits for its group; its child leaves the group, exits, and is moved back: the wait is still recorded
   * though it would return the child.
   */
  lemma MissedByGroup(procs: nat, depth: nat, files: nat) returns (states: seq<KernelState>, steps: seq<Step>)
    requires 2 <= procs <= MAX_PROCESSES && 4 <= files
    ensures IsRun(states, steps) && |steps| == 6 && states[0] == InitialState(procs, depth, files)
    ensures RevealsZombie(states[5], steps[5]) && !NoneMissed(states[6].procs, true)
  {
    hide Booted, Next, Admissible, TablesOk, InitialState, Invariant, Spawn, Exit, Wait, First, Sized, Kin,
      LiveCaller, Leaks, NoneMissed, RevealsZombie, Regrouped;
    var k0, k1, _ := BootTwice(procs, depth, files);
    BootedSound(k1, 1);
    BearIs(k1);
    SizedShape(k1, procs, files);
    var g := BornKin(k1, procs, files);
    StaysShaped(k1, BEAR, Exact);
    var k2 := Next(k1, BEAR);
    KinStepsAre(k2, g);
    KinIsLive(k2, g);
    KinWaits(k2, g);
    var claim2 := Unless(Exact, Leaks(k1, BEAR));
    StaysShaped(k2, WAIT_GROUP, claim2);
    var k3 := Next(k2, WAIT_GROUP);
    var away, back := RegroupStep(1, 2, g + 1, true), RegroupStep(1, 2, g, true);
    KinStepsAre(k3, g + 1);
    KinRegroups(k3, g, g, false, g + 1);
    var claim3 := Unless(claim2, Leaks(k2, WAIT_GROUP));
    StaysShaped(k3, away, claim3);
    var k4 := Next(k3, away);
    KinStepsAre(k4, g);
    KinExits(k4, g);
    StaysShaped(k4, LEAVE_SECOND, Unless(claim3, Leaks(k3, away)));
    var k5 := Next(k4, LEAVE_SECOND);
    KinStepsAre(k5, g);
    KinReveals(k5, g);
    states, steps := [k0, k1, k2, k3, k4, k5, Next(k5, back)], [BOOT, BEAR, WAIT_GROUP, away, LEAVE_SECOND, back];
  }

  /** The first process, without a parent, and a child of it that is running. */
  ghost predicate Family(procs: Procs) {
    && 2 <= |procs| && procs[0].Some? && procs[0].value.pid == 1 && procs[0].value.parent.None?
    && procs[1].Some? && procs[1].value.pid == 2 && procs[1].value.parent == Some(1)
    && procs[1].value.state != Zombie && (forall i: nat :: 2 <= i < |procs| ==> procs[i].None?)
  }

  lemma ExitInFamily(k: KernelState)
    requires |k.queues| == |k.procs| && Family(k.procs)
    ensures var k2 := Exit(k, 1, 0, true, (_: ThreadId) => true); Family(k2.procs) && !LiveCaller(k2, 1)
  {
    hide First, Swept, Drop, RevokeTask;
    FirstIs(k.procs, HasPid(1), 0);
    var k2 := Exit(k, 1, 0, true, (_: ThreadId) => true);
    FirstIs(k2.procs, HasPid(1), 0);
  }

  lemma WaitingForFamily(k: KernelState)
    requires Family(k.procs)
    ensures Wait(k, 1, None, -1, true, false, true).1 == Waiting
  {
    hide First, Swept;
    FirstIs(k.procs, HasPid(1), 0);
    FirstIs(k.procs, ZombieMatching(1, AnyChild), |k.procs|);
    FirstIs(k.procs, ChildMatching(1, AnyChild), 1);
  }

  lemma BornFamily(k: KernelState, procs: nat, files: nat)
    requires Booted(k, 1) && Sized(k, procs, files) && 2 <= procs && 3 <= files && TablesOk(k.procs)
    ensures Family(Spawn(k, Some(1), TALKER, SPACE, true).0.procs)
  {
    BootedLocates(k, 1, 0);
    hide Booted, Spawn;
    ChildSpawned(k, procs, files);
  }

  /** A task spawns a child, exits, and would then turn blocked if it waited for the child. */
  lemma ExitedParentWaits(procs: nat, depth: nat, files: nat) returns (states: seq<KernelState>, steps: seq<Step>)
    requires 2 <= procs <= MAX_PROCESSES && 4 <= files
    ensures IsRun(states, steps) && |steps| == 3 && states[0] == InitialState(procs, depth, files)
    ensures var (after, r) := Wait(states[3], 1, None, -1, true, false, true);
            !LiveCaller(states[3], 1) && r == Waiting && !SameLife(states[3].procs, after.procs)
  {
    hide Booted, Next, Admissible, TablesOk, InitialState, Invariant, Spawn, Exit, Wait, SameLife, First, Sized,
      Family, LiveCaller, Leaks;
    var k0, k1, _ := BootTwice(procs, depth, files);
    BootedSound(k1, 1);
    BearIs(k1);
    SizedShape(k1, procs, files);
    BornFamily(k1, procs, files);
    StepKeepsInvariant(k1, BEAR, Exact);
    var k2 := Next(k1, BEAR);
    InvariantShape(k2, Unless(Exact, Leaks(k1, BEAR)));
    LeaveStep(k2);
    ExitInFamily(k2);
    var k3 := Next(k2, LEAVE);
    WaitingForFamily(k3);
    WaitingKeepsLife(k3, 1, None, -1, true, true);
    states, steps := [k0, k1, k2, k3], [BOOT, BEAR, LEAVE];
  }

  lemma SizedShape(k: KernelState, procs: nat, files: nat)
    requires Shaped(k) && Sized(k, procs, files)
    ensures TablesOk(k.procs) && |k.procs| == procs && |k.counts| == files
  {
  }

  // ---------------------------------------------------------------------
  // A thread of a process that has exited
  // ---------------------------------------------------------------------

  const DOUBLE: Step := CloneThreadStep(1, true)

  lemma DoubleIs(k: KernelState)
    requires Shaped(k)
    ensures Admissible(k, DOUBLE) && Next(k, DOUBLE) == CloneThread(k, 1, true).0
    ensures ByThread(k, BOOT) && ByThread(k, LEAVE)
  {
    hide CloneThread;
  }

  lemma LeavingFreesThread(k: KernelState)
    requires Booted(k, 1) && |k.queues| == |k.procs| && |k.threads| > 1
    ensures var k2 := Exit(k, 1, 0, true, (_: ThreadId) => true); FreeThreadSlot(k2) < |k2.threads|
  {
    BootedLocates(k, 1, 0);
    hide Invariant, First, Swept, Drop, RevokeTask, ProcsBooted, DomainsBooted, RecordsBooted, CountsBooted;
    var k2 := Exit(k, 1, 0, true, (_: ThreadId) => true);
    assert k2.threads[1].None?;
  }

  lemma StaysUnhaunted(k: KernelState, step: Step)
    requires Invariant(k, Exact) && Shaped(k) && Unhaunted(k) && ByThread(k, step)
    ensures Unhaunted(Next(k, step))
  {
    SoundParts(k, Exact);
    hide Invariant, Unhaunted, Next, ByThread, IpcInvariant, ThreadIds, Security.Below;
    StepLeavesNoGhost(k, step);
  }

  /** A task exits and clones a thread, which then belongs to nobody alive. */
  lemma HauntedRun(procs: nat, depth: nat, files: nat) returns (states: seq<KernelState>, steps: seq<Step>)
    requires 2 <= procs <= MAX_PROCESSES && 4 <= files
    ensures IsRun(states, steps) && |steps| == 3 && states[0] == InitialState(procs, depth, files)
    ensures Unhaunted(states[2]) && !Unhaunted(states[3])
  {
    var k0, k1, k2, k3: KernelState;
    hide Booted, Next, Admissible, TablesOk, InitialState, Invariant, Exit, CloneThread, First, Sized, Unhaunted,
      LiveCaller, ByThread, ProcIds, ThreadIds, Security.Below;
    k0, k1, k3 := BootTwice(procs, depth, files);
    InitialIsUnhaunted(procs, depth, files);
    InitialIsExact(procs, depth, files);
    BootedSound(k1, 1);
    DoubleIs(k0);
    DoubleIs(k1);
    StaysUnhaunted(k0, BOOT);
    LeaveIs(k1);
    SizedThreads(k1, procs, files);
    LeavingBuries(k1);
    LeavingFreesThread(k1);
    StaysUnhaunted(k1, LEAVE);
    k2 := Next(k1, LEAVE);
    InvariantShape(k2, Exact);
    DoubleIs(k2);
    CloningHaunts(k2, 1, true);
    states, steps := [k0, k1, k2, Next(k2, DOUBLE)], [BOOT, LEAVE, DOUBLE];
  }

  lemma InitialIsExact(procs: nat, depth: nat, files: nat)
    requires procs <= MAX_PROCESSES
    ensures Invariant(InitialState(procs, depth, files), Exact)
  {
    hide Invariant, InitialState;
    InitialIsBooted(procs, depth, files);
    BootedSound(InitialState(procs, depth, files), 0);
  }

  lemma SizedThreads(k: KernelState, procs: nat, files: nat)
    requires Shaped(k) && Sized(k, procs, files)
    ensures |k.threads| > 1 && |k.queues| == |k.procs| && |k.counts| == files
  {
  }

  // ---------------------------------------------------------------------
  // A rolled-back wake-up that blocks a ready thread
  // ---------------------------------------------------------------------

  const QUIT: Step := TerminateThreadStep(1)
  const JOIN: Step := CloneThreadStep(2, true)

  lemma QuitAndJoin(k: KernelState)
    requires Shaped(k)
    ensures Admissible(k, QUIT) && Next(k, QUIT) == RemoveThread(k, 1)
    ensures Admissible(k, JOIN) && Next(k, JOIN) == CloneThread(k, 2, true).0
  {
    hide CloneThread, RemoveThread;
  }

  lemma ReceivingBlocks(k: KernelState, pid: ProcessId, i: nat)
    requires |k.queues| == |k.procs| && i == Locate(k.procs, pid) && i < |k.procs| && k.queues[i] == []
    ensures var a := ReceiveOrBlock(k, pid, true).0;
            && a.procs == WithState(k.procs, i, Blocked)
            && a.threads == Swept(k.threads, ThreadOf(pid), BlockedThread)
  {
    hide First, Swept;
  }

  lemma SecondBlocked(k: KernelState)
    requires Booted(k, 2) && |k.queues| == |k.procs|
    ensures var a := ReceiveOrBlock(k, 2, true).0;
            && a.procs == WithState(k.procs, 1, Blocked) && 2 <= |a.threads|
            && BootedThread(a.threads[0], 0) && BootedThread(a.threads[1], 1)
            && a.threads[1].value.state == ThreadBlocked
  {
    BootedQueue(k);
    hide Booted, First, Swept, ReceiveOrBlock, Locate, LocateThread, Security.DomainOf, TablesOk;
    BootedLocates(k, 2, 0);
    BootedLocates(k, 2, 1);
    ReceivingBlocks(k, 2, 1);
  }

  lemma BootedQueue(k: KernelState)
    requires Booted(k, 2) && |k.queues| == |k.procs|
    ensures 1 < |k.queues| && k.queues[1] == []
  {
    hide Invariant, ThreadsBooted, CountsBooted, DomainsBooted, RecordsBooted;
  }

  /** After the second task has blocked, the first one's thread ends and the second one gets another in its place. */
  lemma ReadyBeforeBlocked(k: KernelState)
    requires Booted(k, 2) && |k.queues| == |k.procs|
    ensures var a := ReceiveOrBlock(k, 2, true).0;
            var b := RemoveThread(a, 1);
            var c := CloneThread(b, 2, true).0;
            && 2 <= |c.threads| && c.threads[0] == Some(Tcb(b.nextThread, 2, ThreadReady, None))
            && c.threads[1].Some? && c.threads[1].value.process == 2 && c.threads[1].value.state == ThreadBlocked
  {
    SecondBlocked(k);
    BootedLocates(k, 2, 1);
    hide Booted, ReceiveOrBlock, First, Counted;
    var a := ReceiveOrBlock(k, 2, true).0;
    FirstIs(a.threads, HasThread(1), 0);
    var b := RemoveThread(a, 1);
    FirstIs(b.threads, FreeThread, 0);
    SecondStays(k, a, b);
  }

  lemma SecondStays(k: KernelState, a: KernelState, b: KernelState)
    requires Locate(k.procs, 2) == 1 < |k.procs| && k.procs[1].Some? && k.procs[1].value.pid == 2
    requires a.procs == WithState(k.procs, 1, Blocked) && (exists pid :: b.procs == Counted(a.procs, pid, false))
    ensures Locate(b.procs, 2) < |b.procs|
  {
    hide First;
    var pid :| b.procs == Counted(a.procs, pid, false);
    assert HasPid(2)(a.procs[1]);
    assert HasPid(2)(b.procs[1]);
  }

  lemma StuckSecond(threads: Threads)
    requires 2 <= |threads| && threads[0].Some? && threads[0].value.process == 2
             && threads[0].value.state == ThreadReady
    requires threads[1].Some? && threads[1].value.process == 2 && threads[1].value.state == ThreadBlocked
    ensures var (after, ok) := Woken(threads, 2, (_: ThreadId) => false); !ok && after != threads
  {
    var wakes := (_: ThreadId) => false;
    FirstIs(threads, StuckThreadOf(2, wakes), 1);
    hide First, Woken;
    WakingIsAllOrNothing(threads, 2, wakes);
    assert ThreadOf(2)(threads[0]);
    WokenStops(threads, 2, wakes);
  }

  lemma WokenStops(threads: Threads, pid: ProcessId, wakes: ThreadId -> bool)
    ensures Woken(threads, pid, wakes).1 <==> First(threads, StuckThreadOf(pid, wakes)) == |threads|
  {
    hide First, Swept;
  }

  /** Waking the second task fails at its old thread and leaves its new one, which was ready, blocked. */
  lemma WakingBlocks(procs: nat, depth: nat, files: nat) returns (states: seq<KernelState>, steps: seq<Step>)
    requires 2 <= procs <= MAX_PROCESSES && 4 <= files
    ensures IsRun(states, steps) && |steps| == 5 && states[0] == InitialState(procs, depth, files)
    ensures var (after, ok) := Woken(states[5].threads, 2, (_: ThreadId) => false); !ok && after != states[5].threads
  {
    hide Booted, Next, Admissible, TablesOk, InitialState, Invariant, ReceiveOrBlock, RemoveThread, CloneThread,
      First, Sized, Woken, Leaks;
    var k0, k1, k2 := BootTwice(procs, depth, files);
    BootedSound(k2, 2);
    ListenIs(k2);
    var a := Next(k2, LISTEN);
    StaysShaped(k2, LISTEN, Exact);
    QuitAndJoin(a);
    var b := Next(a, QUIT);
    StaysShaped(a, QUIT, Unless(Exact, Leaks(k2, LISTEN)));
    QuitAndJoin(b);
    var c := Next(b, JOIN);
    ReadyBeforeBlocked(k2);
    StuckSecond(c.threads);
    states, steps := [k0, k1, k2, a, b, c], [BOOT, BOOT, LISTEN, QUIT, JOIN];
  }

  lemma StaysShaped(k: KernelState, step: Step, claim: Claim)
    requires Invariant(k, claim) && Admissible(k, step)
    ensures Shaped(k) && Shaped(Next(k, step)) && Invariant(Next(k, step), Unless(claim, Leaks(k, step)))
  {
    hide Invariant, Next, Admissible, Leaks, TablesOk;
    StepKeepsInvariant(k, step, claim);
    InvariantShape(Next(k, step), Unless(claim, Leaks(k, step)));
  }

  // ---------------------------------------------------------------------
  // An exec that strips its caller
  // ---------------------------------------------------------------------

  const STRIP: Step := SecurityStep(Security.RevokeAll(1))
  const LEAVE_ONE: Step := SecurityStep(Security.GrantTo(1, ModuleLoad, 0))
  const FILL: Step := SecurityStep(Security.GrantTo(2, ModuleLoad, 0))

  /** Both tasks are there, the first with a thread. */
  ghost predicate Staged(k: KernelState) {
    && Invariant(k, Exact)
    && Security.DomainOf(k.security.domains, 1) == Some(Security.TaskDomain(1, TALKER, 0))
    && Security.DomainOf(k.security.domains, 2).Some?
    && Locate(k.procs, 1) < |k.procs| && First(k.threads, ThreadOf(1)) < |k.threads|
  }

  /** The first task holds one capability record. */
  ghost predicate HoldsOne(records: Records) {
    Vacancies(Without(records, 1)) == Vacancies(records) + 1 && !Security.HoldsNothing(records, 1)
  }

  lemma BootedVacancies(k: KernelState)
    requires Booted(k, 2)
    ensures Vacancies(k.security.ledger.records) > 0
  {
    hide Invariant, Vacancies, ProcsBooted, ThreadsBooted, CountsBooted, DomainsBooted, Given;
  }

  lemma BootedIsStaged(k: KernelState)
    requires Booted(k, 2)
    ensures Staged(k) && Vacancies(k.security.ledger.records) > 0
  {
    hide Booted, Invariant, First, Vacancies, Security.DomainOf, Locate, LocateThread, LiveCaller, TablesOk;
    BootedSound(k, 2);
    BootedVacancies(k);
    BootedLocates(k, 2, 0);
    BootedLocates(k, 2, 1);
    FirstIs(k.threads, ThreadOf(1), 0);
  }

  lemma SecurityStepIs(k: KernelState, op: Security.Operation)
    requires Shaped(k) && !op.Register? && !op.Derive?
    ensures Admissible(k, SecurityStep(op)) && !Leaks(k, SecurityStep(op))
    ensures Next(k, SecurityStep(op)) == k.(security := Security.Apply(k.security, op).0)
  {
    hide Security.Apply;
  }

  /** An operation that leaves the domains alone leaves the stage. */
  lemma StaysStaged(k: KernelState, op: Security.Operation)
    requires Staged(k) && !op.Register? && !op.Derive? && Security.Apply(k.security, op).0.domains == k.security.domains
    ensures Shaped(k) && Admissible(k, SecurityStep(op)) && Staged(Next(k, SecurityStep(op)))
    ensures Next(k, SecurityStep(op)).security == Security.Apply(k.security, op).0
  {
    hide Invariant, Next, Admissible, Leaks, First, Security.DomainOf, Security.Apply, TablesOk;
    InvariantShape(k, Exact);
    SecurityStepIs(k, op);
    StepKeepsInvariant(k, SecurityStep(op), Exact);
  }

  lemma StrippingHoldsNothing(records: Records)
    requires Vacancies(records) > 0
    ensures Security.HoldsNothing(Without(records, 1), 1) && Vacancies(Without(records, 1)) > 0
  {
    hide Sum, Swept;
    var left := Without(records, 1);
    if forall i :: 0 <= i < |records| ==> records[i].Some? {
      SumZero(records, VacantSlot);
    } else {
      var i :| 0 <= i < |records| && records[i].None?;
      SumAtLeast(left, VacantSlot, i);
    }
  }

  lemma GrantToNothing(l: Ledger, g: Grant)
    requires Security.HoldsNothing(l.records, 1) && Vacancies(l.records) > 0
    ensures HoldsOne(InsertOne(l, 1, g).0.records)
  {
    InsertOneFits(l, 1, g);
    InsertOneAdds(l, 1, g);
    var after := InsertOne(l, 1, g).0.records;
    assert InsertOne(l, 1, g).1;
    assert after[First(l.records, Vacant)].value.owner == 1 && Owned(1)(after[First(l.records, Vacant)]);
    hide First, InsertOne, Vacancies, Without;
    RevokingUndoesAdding(l.records, after, 1);
  }

  lemma EnteredForOther(records: Records, slot: nat, record: CapabilityRecord)
    requires slot < |records| && records[slot].None? && record.owner != 1
    ensures Without(records[slot := Some(record)], 1) == Without(records, 1)[slot := Some(record)]
    ensures Without(records, 1)[slot].None?
  {
    hide Swept;
  }

  lemma EnteredStillHolds(records: Records, slot: nat, record: CapabilityRecord)
    requires slot < |records| && records[slot].None? && !Security.HoldsNothing(records, 1)
    ensures !Security.HoldsNothing(records[slot := Some(record)], 1)
  {
    var i :| 0 <= i < |records| && Owned(1)(records[i]);
    assert Owned(1)(records[slot := Some(record)][i]);
  }

  lemma GrantToOther(l: Ledger, g: Grant)
    requires HoldsOne(l.records) && Vacancies(l.records) > 0
    ensures var after := InsertOne(l, 2, g).0.records;
            HoldsOne(after) && Vacancies(after) == Vacancies(l.records) - 1
  {
    InsertOneFits(l, 2, g);
    hide First, Sum, Without, Security.HoldsNothing;
    var slot := First(l.records, Vacant);
    var record := CapabilityRecord(l.nextId, 2, g.target, g.rights, g.parent);
    assert InsertOne(l, 2, g).0.records == l.records[slot := Some(record)];
    EnteredStillHolds(l.records, slot, record);
    EnteredForOther(l.records, slot, record);
    SumUpdate(Without(l.records, 1), VacantSlot, slot, Some(record));
  }

  lemma OneGranted(s: Security.SecurityState, owner: ProcessId)
    requires Security.DomainOf(s.domains, owner).Some?
    ensures Security.Apply(s, Security.GrantTo(owner, ModuleLoad, 0)).0
            == s.(ledger := InsertOne(s.ledger, owner, Grant(ModuleLoad, 0, None)).0)
  {
    hide First, Security.DomainOf, InsertOne, InsertAll;
    Security.OneGrant(s.ledger, owner, Grant(ModuleLoad, 0, None));
  }

  /** The state `n` further grants to the second task lead to. */
  lemma {:induction false} FillRun(states: seq<KernelState>, steps: seq<Step>)
    returns (states2: seq<KernelState>, steps2: seq<Step>)
    requires IsRun(states, steps) && Staged(states[|steps|]) && HoldsOne(states[|steps|].security.ledger.records)
    ensures IsRun(states2, steps2) && states2[0] == states[0] && Staged(states2[|steps2|])
    ensures var records := states2[|steps2|].security.ledger.records; HoldsOne(records) && Vacancies(records) == 0
    decreases Vacancies(states[|steps|].security.ledger.records)
  {
    hide Next, Admissible, Staged, HoldsOne, TablesOk, Vacancies, Security.Apply, InsertOne, Security.DomainOf;
    var k := states[|steps|];
    if Vacancies(k.security.ledger.records) == 0 {
      return states, steps;
    }
    StagedDomains(k);
    OneGranted(k.security, 2);
    GrantToOther(k.security.ledger, Grant(ModuleLoad, 0, None));
    StaysStaged(k, FILL.op);
    RunExtends(states, steps, FILL);
    states2, steps2 := FillRun(states + [Next(k, FILL)], steps + [FILL]);
  }

  lemma StagedDomains(k: KernelState)
    requires Staged(k)
    ensures Security.DomainOf(k.security.domains, 1).Some? && Security.DomainOf(k.security.domains, 2).Some?
  {
  }

  lemma RunExtends(states: seq<KernelState>, steps: seq<Step>, step: Step)
    requires IsRun(states, steps) && Shaped(states[|steps|]) && Admissible(states[|steps|], step)
    ensures IsRun(states + [Next(states[|steps|], step)], steps + [step])
  {
    hide Next, Admissible, TablesOk;
    var longer, more := states + [Next(states[|steps|], step)], steps + [step];
    forall i | 0 <= i < |more|
      ensures Shaped(longer[i]) && Admissible(longer[i], more[i]) && longer[i + 1] == Next(longer[i], more[i])
    {
      if i < |steps| {
        assert longer[i] == states[i] && longer[i + 1] == states[i + 1] && more[i] == steps[i];
      }
    }
  }

  /** With no vacancy but its own record's, the first task cannot be registered anew. */
  lemma CannotReseed(s: Security.SecurityState)
    requires Security.DomainOf(s.domains, 1).Some? && HoldsOne(s.ledger.records) && Vacancies(s.ledger.records) == 0
    ensures Security.Apply(s, Security.Register(1, TALKER)).1.Err?
  {
    TalkerSeeds(1);
    hide First, Vacancies, Without, InsertAll, Security.SeedGrants, Security.HoldsNothing;
    Security.RegistrationSucceeds(s.domains, s.ledger, 1, TALKER);
    assert |Security.SeedGrants(1, TALKER)| == 2;
    hide Security.Registered;
  }

  lemma DaemonBegins(k: KernelState)
    requires Staged(k)
    ensures ExecBegins(k, DAEMON) && Carried(k.threads, 1, None)
  {
    hide Invariant, First, Security.DomainOf;
  }

  lemma ExecFails(k: KernelState)
    requires Security.Apply(k.security, Security.Register(1, TALKER)).1.Err?
    ensures !Exec(k, DAEMON, None, 4096, true, true).1
  {
    hide First, Swept, Drop, KeptFiles, ClosedFiles, Reimaged, Security.Apply, Security.DomainOf, Security.ExecAllowed;
  }

  /** With the table full, the first task replaces its image: the exec fails and has taken its one capability. */
  lemma ExecStripped(k: KernelState)
    requires Staged(k) && HoldsOne(k.security.ledger.records) && Vacancies(k.security.ledger.records) == 0
    ensures var (after, ok) := Exec(k, DAEMON, None, 4096, true, true);
            && !ok && after.security.domains == k.security.domains
            && !Security.HoldsNothing(k.security.ledger.records, 1)
            && after.security.ledger.records == Without(k.security.ledger.records, 1)
            && after.security.ledger.records != k.security.ledger.records
  {
    StagedDomains(k);
    CannotReseed(k.security);
    ExecFails(k);
    DaemonBegins(k);
    StagedThreads(k);
    hide Exec, Staged, Vacancies, Without, Security.HoldsNothing, ThreadIds, ExecBegins, Carried;
    FailedExecStrips(k, DAEMON, None, 4096, true, true);
  }

  lemma StagedThreads(k: KernelState)
    requires Staged(k)
    ensures ThreadIds(k.threads, k.nextThread)
  {
    hide First, Security.DomainOf;
    InvariantShape(k, Exact);
  }

  /** Two tasks are booted, the first left with one capability and the table filled: its exec fails and strips it. */
  lemma StrippedByExec(procs: nat, depth: nat, files: nat) returns (states: seq<KernelState>, steps: seq<Step>)
    requires 2 <= procs <= MAX_PROCESSES && 4 <= files
    ensures IsRun(states, steps) && states[0] == InitialState(procs, depth, files)
    ensures var k := states[|steps|];
            var (after, ok) := Exec(k, DAEMON, None, 4096, true, true);
            && !ok && after.security.domains == k.security.domains
            && !Security.HoldsNothing(k.security.ledger.records, 1)
            && after.security.ledger.records == Without(k.security.ledger.records, 1)
  {
    hide Booted, Next, Admissible, TablesOk, InitialState, Exec, Staged, HoldsOne, Vacancies, Without, InsertOne,
      Security.HoldsNothing, Security.DomainOf, Sized;
    var k0, k1, k2 := BootTwice(procs, depth, files);
    BootedIsStaged(k2);
    StrippingHoldsNothing(k2.security.ledger.records);
    StaysStaged(k2, STRIP.op);
    var k3 := Next(k2, STRIP);
    StagedDomains(k3);
    OneGranted(k3.security, 1);
    GrantToNothing(k3.security.ledger, Grant(ModuleLoad, 0, None));
    StaysStaged(k3, LEAVE_ONE.op);
    states, steps := [k0, k1, k2, k3, Next(k3, LEAVE_ONE)], [BOOT, BOOT, STRIP, LEAVE_ONE];
    states, steps := FillRun(states, steps);
    ExecStripped(states[|steps|]);
  }

  // ---------------------------------------------------------------------
  // A failed exec that has closed a descriptor
  // ---------------------------------------------------------------------

  const OPEN_CLOSING: Step := OpenStep(1, true)

  lemma OpenIs(k: KernelState)
    requires Shaped(k) && LiveCaller(k, 1)
    ensures Admissible(k, OPEN_CLOSING) && Next(k, OPEN_CLOSING) == Open(k, 1, true).0 && !Leaks(k, OPEN_CLOSING)
  {
    hide Open, LiveCaller;
  }

  /** The first task opens a file that is to be closed on exec. */
  lemma OpensClosing(k: KernelState)
    requires Booted(k, 1) && 3 <= |k.counts|
    ensures var k2 := Open(k, 1, true).0;
            && Locate(k2.procs, 1) == 0 < |k2.procs| && !NoneClosing(k2.procs[0].value.files)
            && k2.security == k.security
  {
    BootedLocates(k, 1, 0);
    FirstIs(k.counts, FreeCount, 2);
    hide Invariant, First, ProcsBooted, ThreadsBooted, CountsBooted, DomainsBooted, RecordsBooted;
    var files := k.procs[0].value.files;
    assert files[0..] == files;
    FirstIs(files, FreeDescriptor, 0);
    var k2 := Open(k, 1, true).0;
    assert k2.procs == k.procs[0 := Some(k.procs[0].value.(files := files[0 := Some(Descriptor(2, true))]))];
    FirstIs(k2.procs, HasPid(1), 0);
    assert ClosesOnExec(k2.procs[0].value.files[0]);
  }

  lemma DaemonBeginsAgain(k: KernelState, k2: KernelState)
    requires Booted(k, 1) && k2.security == k.security && Locate(k2.procs, 1) < |k2.procs|
    ensures ExecBegins(k2, DAEMON)
  {
    BootedLocates(k, 1, 0);
    hide Booted, First, Security.DomainOf;
  }

  lemma RefusedExecFails(k: KernelState)
    ensures !Exec(k, DAEMON, None, 4096, false, true).1
  {
    hide First, Swept, Drop, KeptFiles, ClosedFiles, Reimaged, Security.Apply, Security.DomainOf, Security.ExecAllowed;
  }

  /** The scheduler refuses the exec when the file is closed already. */
  lemma ClosedByFailedExec(procs: nat, depth: nat, files: nat) returns (states: seq<KernelState>, steps: seq<Step>)
    requires 2 <= procs <= MAX_PROCESSES && 4 <= files
    ensures IsRun(states, steps) && |steps| == 2 && states[0] == InitialState(procs, depth, files)
    ensures var (after, ok) := Exec(states[2], DAEMON, None, 4096, false, true);
            !ok && after.counts != states[2].counts
  {
    hide Booted, Next, Admissible, TablesOk, InitialState, Invariant, Open, Exec, First, Sized, LiveCaller,
      NoneClosing, FilesInvariant, ExecBegins, Leaks, Undisturbed, KeptFiles;
    var k0, k1, _ := BootTwice(procs, depth, files);
    BootedSound(k1, 1);
    BootedLocates(k1, 1, 0);
    SizedShape(k1, procs, files);
    OpenIs(k1);
    OpensClosing(k1);
    StaysShaped(k1, OPEN_CLOSING, Exact);
    var k2 := Next(k1, OPEN_CLOSING);
    SoundFiles(k2, Exact);
    DaemonBeginsAgain(k1, k2);
    RefusedExecFails(k2);
    ExecDisturbs(k2, DAEMON, None, 4096, false, true, Exact);
    states, steps := [k0, k1, k2], [BOOT, OPEN_CLOSING];
  }
}
