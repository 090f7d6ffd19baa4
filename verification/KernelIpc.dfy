/** Messages: addressed to the process in whose slot they wait, in the order they were sent. */
module KernelIpc {
  import opened Prelude
  import opened Tables
  import opened Labels
  import opened Capabilities
  import Security
  import opened Ipc
  import opened Descriptors
  import opened KernelSteps
  import opened KernelIds
  import opened KernelFrame
  import opened KernelCreate
  import opened KernelFileSteps
  import opened KernelThreadSteps

  /** What may wait in the queue of a slot. */
  ghost predicate QueueFits(slot: Option<Pcb>, q: seq<Message>) {
    && (slot.None? || slot.value.state == Zombie ==> q == [])
    && (slot.Some? ==> forall m :: 0 <= m < |q| ==> q[m].receiver == slot.value.pid)
  }

  /** Every message names the live process in its slot, and other slots have no messages. */
  ghost predicate Addressed(procs: Procs, queues: seq<seq<Message>>) {
    |queues| == |procs| && forall i :: 0 <= i < |procs| ==> QueueFits(procs[i], queues[i])
  }

  predicate LivePid(procs: Procs, pid: ProcessId) {
    LiveAt(procs, Locate(procs, pid))
  }

  /** Every task domain belongs to a live process. */
  ghost predicate DomainsLive(procs: Procs, domains: Security.Domains) {
    forall pid :: Security.DomainOf(domains, pid).Some? ==> LivePid(procs, pid)
  }

  ghost predicate IpcInvariant(k: KernelState) {
    && Addressed(k.procs, k.queues) && ProcIds(k.procs, k.nextPid)
    && Security.DistinctDomains(k.security.domains) && DomainsLive(k.procs, k.security.domains)
  }

  lemma LocateSame(p: Procs, q: Procs, pid: ProcessId)
    requires SameLife(p, q)
    ensures Locate(p, pid) == Locate(q, pid) && (LivePid(p, pid) <==> LivePid(q, pid))
  {
    hide First;
    FirstIs(q, HasPid(pid), Locate(p, pid));
  }

  lemma SameLifeKeepsDomains(p: Procs, q: Procs, domains: Security.Domains)
    requires SameLife(p, q) && DomainsLive(p, domains)
    ensures DomainsLive(q, domains)
  {
    hide SameLife, LivePid, Security.DomainOf;
    forall pid | Security.DomainOf(domains, pid).Some?
      ensures LivePid(q, pid)
    {
      LocateSame(p, q, pid);
    }
  }

  lemma SameLifeKeepsQueues(p: Procs, q: Procs, queues: seq<seq<Message>>)
    requires SameLife(p, q) && Addressed(p, queues)
    ensures Addressed(q, queues)
  {
    forall i | 0 <= i < |q|
      ensures QueueFits(q[i], queues[i])
    {
      assert SameSlot(p[i], q[i]) && QueueFits(p[i], queues[i]);
    }
  }

  /** Steps that keep every process and every message where it is. */
  lemma QuietKeeps(k: KernelState, k2: KernelState)
    requires IpcInvariant(k) && SameLife(k.procs, k2.procs) && k2.nextPid == k.nextPid
    requires k2.queues == k.queues && k2.security.domains == k.security.domains
    ensures IpcInvariant(k2)
  {
    hide SameLife, Addressed, DomainsLive, ProcIds, Security.DistinctDomains;
    SameIsNoneNew(k.procs, k2.procs);
    NoneNewKeepsIds(k.procs, k2.procs, k.nextPid);
    SameLifeKeepsQueues(k.procs, k2.procs, k.queues);
    SameLifeKeepsDomains(k.procs, k2.procs, k.security.domains);
  }

  /** One queue changes. */
  lemma QueueKeeps(procs: Procs, queues: seq<seq<Message>>, i: nat, q: seq<Message>)
    requires Addressed(procs, queues) && i < |procs| && QueueFits(procs[i], q)
    ensures Addressed(procs, queues[i := q])
  {
  }

  // ---------------------------------------------------------------------
  // Send and receive
  // ---------------------------------------------------------------------

  /** The queues after a send: one message more for the receiver, or nothing. */
  lemma SendQueues(k: KernelState, sender: ProcessId, receiver: ProcessId, payload: MessagePayload,
                   readyOk: bool, wakes: ThreadId -> bool, blockOk: bool)
    requires |k.queues| == |k.procs|
    ensures var (k2, r) := Send(k, sender, receiver, payload, readyOk, wakes, blockOk);
            var i := Locate(k.procs, receiver);
            && (k2.sequence == k.sequence || k2.sequence == NextSequence(k.sequence))
            && (r.Ok? || r == Err(NotReady) ==>
                  && i < |k.procs| && IpcAuthorised(k.security, sender, receiver, payload.securityClass)
                  && k2.queues == k.queues[i := k.queues[i] + [Message(sender, receiver, k.sequence, payload)]]
                  && k2.sequence == NextSequence(k.sequence))
            && (r.Err? && r.error != NotReady ==> k2.queues == k.queues)
  {
    hide First, IpcAuthorised, Woken;
  }

  /**
   * A failed send leaves every queue as it was, unless it failed because the
   * blocked receiver could not be made ready; then the message stays.
   */
  lemma SendFailure(k: KernelState, sender: ProcessId, receiver: ProcessId, payload: MessagePayload,
                    readyOk: bool, wakes: ThreadId -> bool, blockOk: bool)
    requires |k.queues| == |k.procs| && Send(k, sender, receiver, payload, readyOk, wakes, blockOk).1.Err?
    ensures var i := Locate(k.procs, receiver);
            Send(k, sender, receiver, payload, readyOk, wakes, blockOk).0.queues == k.queues
            <==> !(&& IpcAuthorised(k.security, sender, receiver, payload.securityClass)
                   && i < |k.procs| && |k.queues[i]| < k.depth && k.procs[i].value.state == Blocked && !readyOk)
  {
    hide First, IpcAuthorised, Woken;
    var i := Locate(k.procs, receiver);
    if i < |k.procs| {
      var q := k.queues[i] + [Message(sender, receiver, k.sequence, payload)];
      assert k.queues[i := q][i] == q && |q| == |k.queues[i]| + 1;
    }
  }

  /** A process that may be sent to has a domain, so it is live. */
  lemma AuthorisedIsLive(k: KernelState, sender: ProcessId, receiver: ProcessId, class_: SecurityClass)
    requires IpcInvariant(k) && IpcAuthorised(k.security, sender, receiver, class_)
    ensures LivePid(k.procs, receiver)
  {
    hide LivePid, Security.DomainOf, First, Addressed, ProcIds, Security.DistinctDomains;
  }

  /** A message for the process of a slot joins its queue. */
  lemma QueuedKeeps(k: KernelState, k2: KernelState, i: nat, m: Message)
    requires IpcInvariant(k) && IpcInvariant(k2.(queues := k.queues)) && LiveAt(k.procs, i)
             && SameLife(k.procs, k2.procs)
    requires |k.queues| == |k.procs| && k2.queues == k.queues[i := k.queues[i] + [m]]
             && m.receiver == k.procs[i].value.pid
    ensures IpcInvariant(k2)
  {
    hide DomainsLive, ProcIds, Security.DistinctDomains;
    SameSlotAt(k.procs, k2.procs, i);
    assert QueueFits(k.procs[i], k.queues[i]);
    QueueKeeps(k2.procs, k.queues, i, k2.queues[i]);
  }

  lemma SendKeeps(k: KernelState, sender: ProcessId, receiver: ProcessId, payload: MessagePayload,
                  readyOk: bool, wakes: ThreadId -> bool, blockOk: bool)
    requires IpcInvariant(k)
    ensures |k.queues| == |k.procs| && IpcInvariant(Send(k, sender, receiver, payload, readyOk, wakes, blockOk).0)
  {
    IpcShape(k);
    SendFrame(k, sender, receiver, payload, readyOk, wakes, blockOk);
    SendRest(k, sender, receiver, payload, readyOk, wakes, blockOk);
    SendQueues(k, sender, receiver, payload, readyOk, wakes, blockOk);
    hide Send, SameLife, SameFiles, SameWaits, SameCounts, First, IpcInvariant, IpcAuthorised;
    var (k2, r) := Send(k, sender, receiver, payload, readyOk, wakes, blockOk);
    QuietKeeps(k, k2.(queues := k.queues));
    if r.Ok? || r == Err(NotReady) {
      AuthorisedIsLive(k, sender, receiver, payload.securityClass);
      QueuedKeeps(k, k2, Locate(k.procs, receiver), Message(sender, receiver, k.sequence, payload));
    } else {
      assert k2 == k2.(queues := k.queues);
    }
  }

  lemma SameSlotAt(p: Procs, q: Procs, i: nat)
    requires SameLife(p, q) && i < |p|
    ensures i < |q| && SameSlot(p[i], q[i])
  {
  }

  lemma ReceiveKeeps(k: KernelState, pid: ProcessId)
    requires IpcInvariant(k)
    ensures |k.queues| == |k.procs| && IpcInvariant(Receive(k, pid).0)
  {
    hide First, DomainsLive, ProcIds, Security.DistinctDomains;
    var i := Locate(k.procs, pid);
    if i < |k.procs| && k.queues[i] != [] {
      assert QueueFits(k.procs[i], k.queues[i]);
      QueueKeeps(k.procs, k.queues, i, k.queues[i][1..]);
    }
  }

  lemma ReceiveOrBlockKeeps(k: KernelState, pid: ProcessId, blockOk: bool)
    requires IpcInvariant(k) && LiveCaller(k, pid)
    ensures |k.queues| == |k.procs| && IpcInvariant(ReceiveOrBlock(k, pid, blockOk).0)
  {
    ReceiveKeeps(k, pid);
    ReceiveOrBlockFrame(k, pid, blockOk);
    hide First, IpcInvariant, SameLife, SameFiles, SameWaits, SameCounts, Swept;
    var k2 := ReceiveOrBlock(k, pid, blockOk).0;
    if k2.queues == k.queues {
      QuietKeeps(k, k2);
    }
  }

  // ---------------------------------------------------------------------
  // Processes that come and go
  // ---------------------------------------------------------------------

  /** Only slots of process `pid` change, and only to that process or to nothing. */
  ghost predicate OnlyTouches(p: Procs, q: Procs, pid: ProcessId) {
    && |p| == |q|
    && forall i :: 0 <= i < |p| ==>
         || SameSlot(p[i], q[i])
         || ((p[i].Some? ==> p[i].value.pid == pid) && (q[i].Some? ==> q[i].value.pid == pid))
  }

  lemma OthersStayLive(p: Procs, q: Procs, pid: ProcessId, other: ProcessId)
    requires OnlyTouches(p, q, pid) && other != pid && LivePid(p, other)
    ensures LivePid(q, other)
  {
    hide First;
    var i := Locate(p, other);
    forall k | 0 <= k < i
      ensures !HasPid(other)(q[k])
    {
      assert !HasPid(other)(p[k]);
    }
    FirstIs(q, HasPid(other), i);
  }

  lemma RevokedDomains(s: Security.SecurityState, pid: ProcessId)
    ensures RevokeTask(s, pid).domains == Security.DomainRevoked(s.domains, pid)
  {
  }

  /** A process leaves the table, or turns into a zombie, and its domain is revoked. */
  lemma LeaverKeepsDomains(p: Procs, q: Procs, s: Security.SecurityState, pid: ProcessId)
    requires Security.DistinctDomains(s.domains) && DomainsLive(p, s.domains) && OnlyTouches(p, q, pid)
    ensures Security.DistinctDomains(RevokeTask(s, pid).domains) && DomainsLive(q, RevokeTask(s, pid).domains)
  {
    hide LivePid, Security.DomainOf, Security.DomainRevoked, RevokeTask, OnlyTouches, Security.DistinctDomains;
    RevokedDomains(s, pid);
    var after := RevokeTask(s, pid).domains;
    Security.RevocationIsLocal(s.domains, pid, pid);
    forall other | Security.DomainOf(after, other).Some?
      ensures LivePid(q, other)
    {
      Security.RevocationIsLocal(s.domains, pid, other);
      OthersStayLive(p, q, pid, other);
    }
  }

  lemma BuriedKeepsIpc(k: KernelState, i: nat, status: int)
    requires IpcInvariant(k) && i < |k.procs| == |k.queues| && k.procs[i].Some?
    ensures IpcInvariant(Buried(k, i, status))
  {
    hide Drop, Swept, RevokeTask, DomainsLive, ProcIds, Security.DistinctDomains;
    var b := Buried(k, i, status);
    assert OnlyTouches(k.procs, b.procs, k.procs[i].value.pid);
    LeaverKeepsDomains(k.procs, b.procs, k.security, k.procs[i].value.pid);
    assert NoneNew(k.procs, b.procs);
    NoneNewKeepsIds(k.procs, b.procs, k.nextPid);
    forall j | 0 <= j < |b.procs|
      ensures QueueFits(b.procs[j], b.queues[j])
    {
      assert QueueFits(k.procs[j], k.queues[j]);
    }
  }

  lemma ExitKeepsIpc(k: KernelState, pid: ProcessId, status: int, readyOk: bool, wakes: ThreadId -> bool)
    requires IpcInvariant(k)
    ensures |k.queues| == |k.procs| && IpcInvariant(Exit(k, pid, status, readyOk, wakes))
  {
    IpcShape(k);
    hide First, IpcInvariant, Buried, ParentWoken, SameLife, SameFiles, SameCounts;
    var i := Locate(k.procs, pid);
    if i < |k.procs| && k.procs[i].value.state != Zombie {
      var b := Buried(k, i, status);
      BuriedKeepsIpc(k, i, status);
      BuriedSlot(k, i, status);
      ParentWokenFrame(b, i, readyOk, wakes);
      ParentWokenRest(b, i, readyOk, wakes);
      QuietKeeps(b, ParentWoken(b, i, readyOk, wakes));
    }
  }

  lemma IpcShape(k: KernelState)
    requires IpcInvariant(k)
    ensures |k.queues| == |k.procs|
  {
  }

  lemma ReapedKeepsIpc(k: KernelState, k2: KernelState, i: nat, z: nat)
    requires IpcInvariant(k) && i < |k.procs| && k.procs[i].Some? && z < |k.procs|
    requires k.procs[z].Some? && k.procs[z].value.state == Zombie
    requires k2.procs == k.procs[i := Some(k.procs[i].value.(childWait := None))][z := None]
    requires k2.security == RevokeTask(k.security, k.procs[z].value.pid) && k2.queues == k.queues
             && k2.nextPid == k.nextPid
    ensures IpcInvariant(k2)
  {
    hide RevokeTask, DomainsLive, ProcIds, Security.DistinctDomains;
    assert OnlyTouches(k.procs, k2.procs, k.procs[z].value.pid);
    LeaverKeepsDomains(k.procs, k2.procs, k.security, k.procs[z].value.pid);
    assert NoneNew(k.procs, k2.procs);
    NoneNewKeepsIds(k.procs, k2.procs, k.nextPid);
    forall j | 0 <= j < |k2.procs|
      ensures QueueFits(k2.procs[j], k2.queues[j])
    {
      assert QueueFits(k.procs[j], k.queues[j]);
    }
  }

  lemma WaitKeepsIpc(k: KernelState, parent: ProcessId, thread: Option<ThreadId>, selector: int,
                     writeOk: bool, noHang: bool, blockOk: bool)
    requires IpcInvariant(k) && LiveCaller(k, parent)
    ensures IpcInvariant(Wait(k, parent, thread, selector, writeOk, noHang, blockOk).0)
  {
    hide Wait, First, IpcInvariant, SameLife, SameFiles, SameCounts;
    var (k2, r) := Wait(k, parent, thread, selector, writeOk, noHang, blockOk);
    WaitRest(k, parent, thread, selector, writeOk, noHang, blockOk);
    if r.Reaped? {
      ReapedTable(k, parent, thread, selector, writeOk, noHang, blockOk);
      var i := Locate(k.procs, parent);
      var z := First(k.procs, ZombieMatching(parent, DecodeSelector(selector, k.procs[i].value.group)));
      ReapedKeepsIpc(k, k2, i, z);
    } else {
      WaitFrame(k, parent, thread, selector, writeOk, noHang, blockOk);
      WaitKeepsSecurity(k, parent, thread, selector, writeOk, noHang, blockOk);
      QuietKeeps(k, k2);
    }
  }

  lemma WaitKeepsSecurity(k: KernelState, parent: ProcessId, thread: Option<ThreadId>, selector: int,
                          writeOk: bool, noHang: bool, blockOk: bool)
    ensures var (k2, r) := Wait(k, parent, thread, selector, writeOk, noHang, blockOk);
            !r.Reaped? ==> k2.security == k.security
  {
    hide First, Swept, LocateThread, RevokeTask;
  }

  /** A new process enters a free slot, whose queue is empty, together with its domain. */
  lemma EnteredKeepsIpc(k: KernelState, k2: KernelState, slot: nat, p: Pcb, creds: Credentials)
    requires IpcInvariant(k) && slot < |k.procs| && k.procs[slot].None? && p.pid == k.nextPid && p.state == Ready
    requires k2.procs == k.procs[slot := Some(p)] && k2.queues == k.queues && k2.nextPid == k.nextPid + 1
    requires RegisterOk(k.security, p, creds) && k2.security == Joined(k.security, p, creds).0
    ensures IpcInvariant(k2)
  {
    JoinedDomains(k.security, p, creds);
    hide Joined, RegisterOk, Security.Registered, Security.DomainOf, Security.DistinctDomains;
    var pid := p.pid;
    assert OnlyTouches(k.procs, k2.procs, pid);
    assert ProcIds(k2.procs, k2.nextPid);
    LocateIs(k2.procs, k2.nextPid, slot);
    hide ProcIds;
    forall other | Security.DomainOf(k2.security.domains, other).Some?
      ensures LivePid(k2.procs, other)
    {
      if other != pid {
        Security.RegistrationIsLocal(k.security.domains, k.security.ledger, pid, creds, other);
        OthersStayLive(k.procs, k2.procs, pid, other);
      }
    }
    Security.RegistrationIsLocal(k.security.domains, k.security.ledger, pid, creds, pid);
    forall j | 0 <= j < |k2.procs|
      ensures QueueFits(k2.procs[j], k2.queues[j])
    {
      assert QueueFits(k.procs[j], k.queues[j]);
    }
  }

  lemma JoinedDomains(s: Security.SecurityState, p: Pcb, creds: Credentials)
    ensures RegisterOk(s, p, creds) ==>
              Joined(s, p, creds).0.domains == Security.Registered(s.domains, s.ledger, p.pid, creds).domains
  {
    hide InsertAll, First, Security.SeedGrants, Security.DerivedGrants, Without, Security.Registered;
  }

  lemma CreateKeepsIpc(k: KernelState, prepared: Prepared, creds: Credentials, mtssOk: bool)
    requires IpcInvariant(k) && ThreadIds(k.threads, k.nextThread) && FreeSlot(k) < |k.procs|
             && Security.Below(k.security, k.nextPid)
    requires prepared.pcb.Some? ==> var p := prepared.pcb.value;
             p.pid == k.nextPid && p.threadCount == 0 && p.state == Ready
    ensures IpcInvariant(CreateFrom(k, prepared, creds, mtssOk).0)
    ensures SilentChild(CreateFrom(k, prepared, creds, mtssOk))
  {
    var (k2, created) := CreateFrom(k, prepared, creds, mtssOk);
    CreateFromOutcome(k, prepared, creds, mtssOk);
    hide CreateFrom, IpcInvariant, First, Joined, RegisterOk, Drop, ThreadIds, Security.Below;
    if created.Some? {
      var slot := FreeSlot(k);
      EnteredKeepsIpc(k, k2, slot, prepared.pcb.value.(threadCount := 1), creds);
      JoinIgnoresCounts(k.security, prepared.pcb.value, 1, creds);
      VacantIsSilent(k, slot);
      IpcIds(k2);
      LocateIs(k2.procs, k2.nextPid, slot);
    } else {
      SelfFrame(k.procs);
      QuietKeepsIds(k, k2);
    }
  }

  /** A process that has just been created has no messages. */
  ghost predicate SilentChild(r: (KernelState, Option<ProcessId>)) {
    r.1.Some? ==> var i := Locate(r.0.procs, r.1.value); i < |r.0.procs| == |r.0.queues| && r.0.queues[i] == []
  }

  lemma VacantIsSilent(k: KernelState, slot: nat)
    requires IpcInvariant(k) && slot < |k.procs| && k.procs[slot].None?
    ensures |k.queues| == |k.procs| && k.queues[slot] == []
  {
    assert QueueFits(k.procs[slot], k.queues[slot]);
  }

  lemma IpcIds(k: KernelState)
    requires IpcInvariant(k)
    ensures ProcIds(k.procs, k.nextPid)
  {
  }

  lemma JoinIgnoresCounts(s: Security.SecurityState, p: Pcb, n: nat, creds: Credentials)
    ensures Joined(s, p.(threadCount := n), creds) == Joined(s, p, creds)
    ensures RegisterOk(s, p.(threadCount := n), creds) == RegisterOk(s, p, creds)
  {
    hide Security.Apply;
  }

  lemma QuietKeepsIds(k: KernelState, k2: KernelState)
    requires IpcInvariant(k) && k2.procs == k.procs && k2.nextPid == k.nextPid + 1
    requires k2.queues == k.queues && k2.security.domains == k.security.domains
    ensures IpcInvariant(k2)
  {
    hide Addressed, DomainsLive;
  }

  lemma SpawnKeepsIpc(k: KernelState, parent: Option<ProcessId>, creds: Credentials, cloned: Space, mtssOk: bool)
    requires IpcInvariant(k) && ThreadIds(k.threads, k.nextThread) && TablesOk(k.procs)
             && Security.Below(k.security, k.nextPid)
    ensures IpcInvariant(Spawn(k, parent, creds, cloned, mtssOk).0)
    ensures SilentChild(Spawn(k, parent, creds, cloned, mtssOk))
  {
    hide IpcInvariant, Spawn, Prepare, CreateFrom, First, MaySpawn, TablesOk, ThreadIds, Security.Below;
    SpawnIs(k, parent, creds, cloned, mtssOk);
    if Spawn(k, parent, creds, cloned, mtssOk) != (k, None) {
      CreateKeepsIpc(k, Prepare(k, parent, cloned), creds, mtssOk);
    }
  }

  lemma CloneProcessKeepsIpc(k: KernelState, caller: ProcessId, creds: Credentials, cloned: Space, mtssOk: bool)
    requires IpcInvariant(k) && ThreadIds(k.threads, k.nextThread) && TablesOk(k.procs)
             && Security.Below(k.security, k.nextPid)
    ensures IpcInvariant(CloneProcess(k, caller, creds, cloned, mtssOk).0)
  {
    hide IpcInvariant, CloneProcess, PrepareShell, CreateFrom, First, MaySpawn, TablesOk, ThreadIds, Security.Below;
    CloneProcessIs(k, caller, creds, cloned, mtssOk);
    if CloneProcess(k, caller, creds, cloned, mtssOk) != (k, None) {
      CreateKeepsIpc(k, PrepareShell(k, caller, cloned), creds, mtssOk);
    }
  }

  lemma RollbackShellKeepsIpc(k: KernelState, pid: ProcessId)
    requires IpcInvariant(k) && SilentChild((k, Some(pid)))
    ensures IpcInvariant(RollbackShell(k, pid))
  {
    hide First, Drop, RevokeTask, DomainsLive, ProcIds, Security.DistinctDomains;
    var k2 := RollbackShell(k, pid);
    assert OnlyTouches(k.procs, k2.procs, pid);
    LeaverKeepsDomains(k.procs, k2.procs, k.security, pid);
    assert NoneNew(k.procs, k2.procs);
    NoneNewKeepsIds(k.procs, k2.procs, k.nextPid);
    forall j | 0 <= j < |k2.procs|
      ensures QueueFits(k2.procs[j], k2.queues[j])
    {
      assert QueueFits(k.procs[j], k.queues[j]);
    }
  }

  lemma SpawnLoadedKeepsIpc(k: KernelState, parent: ProcessId, creds: Credentials, cloned: Space, mtssOk: bool,
                            loadOk: bool)
    requires IpcInvariant(k) && ThreadIds(k.threads, k.nextThread) && TablesOk(k.procs)
             && Security.Below(k.security, k.nextPid)
    ensures IpcInvariant(SpawnLoaded(k, parent, creds, cloned, mtssOk, loadOk).0)
  {
    hide IpcInvariant, Spawn, RollbackShell, SilentChild;
    SpawnKeepsIpc(k, Some(parent), creds, cloned, mtssOk);
    var (k1, child) := Spawn(k, Some(parent), creds, cloned, mtssOk);
    if child.Some? {
      assert (k1, Some(child.value)) == Spawn(k, Some(parent), creds, cloned, mtssOk);
      RollbackShellKeepsIpc(k1, child.value);
    }
  }

  lemma RegisterKeepsDomains(procs: Procs, s: Security.SecurityState, pid: ProcessId, creds: Credentials)
    requires Security.DistinctDomains(s.domains) && DomainsLive(procs, s.domains) && LivePid(procs, pid)
    ensures var after := Security.Apply(s, Security.Register(pid, creds)).0.domains;
            Security.DistinctDomains(after) && DomainsLive(procs, after)
  {
    hide LivePid, Security.DomainOf, Security.Registered, Security.DistinctDomains;
    var after := Security.Apply(s, Security.Register(pid, creds)).0.domains;
    Security.RegistrationIsLocal(s.domains, s.ledger, pid, creds, pid);
    forall other | Security.DomainOf(after, other).Some?
      ensures LivePid(procs, other)
    {
      Security.RegistrationIsLocal(s.domains, s.ledger, pid, creds, other);
    }
  }

  lemma ExecRest(k: KernelState, request: Security.ExecRequest, current: Option<ThreadId>, root: nat, mtssOk: bool,
                 readyOk: bool)
    ensures var k2 := Exec(k, request, current, root, mtssOk, readyOk).0;
            && k2.queues == k.queues && k2.nextPid == k.nextPid && k2.depth == k.depth && k2.sequence == k.sequence
            && (|| k2.security == k.security
                || (Security.DomainOf(k.security.domains, request.caller).Some?
                    && k2.security
                         == Security.Apply(k.security, Security.Register(request.caller, request.requested)).0))
  {
    hide First, Swept, Drop, KeptFiles, ClosedFiles, Reimaged, Security.Apply, Security.DomainOf, Security.ExecAllowed;
    var i := Locate(k.procs, request.caller);
    if i < |k.procs| {
      var files := k.procs[i].value.files;
      var k1 := k.(procs := WithFiles(k.procs, i, KeptFiles(files)), counts := Drop(k.counts, ClosedFiles(files)));
      ReimagedRest(k1, i, current, root);
    }
  }

  lemma ExecKeepsIpc(k: KernelState, request: Security.ExecRequest, current: Option<ThreadId>, root: nat, mtssOk: bool,
                     readyOk: bool)
    requires IpcInvariant(k)
    ensures IpcInvariant(Exec(k, request, current, root, mtssOk, readyOk).0)
  {
    hide Exec, Security.Apply, Security.DomainOf, SameLife, SameWaits, First;
    ExecRest(k, request, current, root, mtssOk, readyOk);
    var k2 := Exec(k, request, current, root, mtssOk, readyOk).0;
    if Security.DomainOf(k.security.domains, request.caller).Some? {
      assert LivePid(k.procs, request.caller);
      RegisterKeepsDomains(k.procs, k.security, request.caller, request.requested);
      ExecFrame(k, request, current, root, mtssOk, readyOk);
    } else {
      ExecRefused(k, request, current, root, mtssOk, readyOk);
      SelfFrame(k.procs);
    }
    var k1 := k.(security := k2.security);
    assert IpcInvariant(k1);
    QuietKeeps(k1, k2);
  }

  lemma ExecRefused(k: KernelState, request: Security.ExecRequest, current: Option<ThreadId>, root: nat, mtssOk: bool,
                    readyOk: bool)
    requires Security.DomainOf(k.security.domains, request.caller).None?
    ensures Exec(k, request, current, root, mtssOk, readyOk) == (k, false)
  {
  }

  /** A caller with a domain is live. */
  lemma ExecCallerIsLive(k: KernelState, request: Security.ExecRequest)
    requires IpcInvariant(k)
    ensures Security.DomainOf(k.security.domains, request.caller).Some? ==> LiveCaller(k, request.caller)
  {
    hide Security.DomainOf, First;
    assert Security.DomainOf(k.security.domains, request.caller).Some? ==> LivePid(k.procs, request.caller);
  }

  lemma SecurityKeepsIpc(k: KernelState, op: Security.Operation)
    requires IpcInvariant(k) && !op.Register?
    ensures IpcInvariant(k.(security := Security.Apply(k.security, op).0))
  {
    var k2 := k.(security := Security.Apply(k.security, op).0);
    Security.DomainsKept(k.security, op);
    SelfFrame(k.procs);
    if op.RevokeTask? {
      hide DomainsLive, Security.DistinctDomains, ProcIds, Addressed;
      assert OnlyTouches(k.procs, k.procs, op.pid);
      LeaverKeepsDomains(k.procs, k.procs, k.security, op.pid);
    } else {
      hide IpcInvariant, Security.Apply, SameLife;
      QuietKeeps(k, k2);
    }
  }

  // ---------------------------------------------------------------------
  // Every step
  // ---------------------------------------------------------------------

  lemma StepKeepsIpc(k: KernelState, step: Step)
    requires IpcInvariant(k) && ThreadIds(k.threads, k.nextThread) && TablesOk(k.procs) && CallerIsLive(k, step)
    requires Security.Below(k.security, k.nextPid)
    ensures |k.queues| == |k.procs| && IpcInvariant(Next(k, step))
  {
    IpcShape(k);
    SelfFrame(k.procs);
    hide IpcInvariant, SameLife, SameFiles, SameWaits, SameCounts, Locate, ThreadIds, TablesOk, Security.Below,
      Security.Apply, Send, Receive, ReceiveOrBlock, Exit, Wait, Open, Close, Duplicate, DuplicateTo, Spawn,
      SpawnLoaded, CloneThread, CloneProcess, Exec, RemoveThread, Regrouped;
    if Quiet(step) {
      hide Next;
      QuietFrame(k, step);
      QuietKeeps(k, Next(k, step));
      return;
    }
    match step
    case SendStep(s, r, payload, readyOk, wakes, blockOk) => SendKeeps(k, s, r, payload, readyOk, wakes, blockOk);
    case ReceiveStep(pid) => ReceiveKeeps(k, pid);
    case ReceiveOrBlockStep(pid, blockOk) => ReceiveOrBlockKeeps(k, pid, blockOk);
    case ExitStep(pid, status, readyOk, wakes) => ExitKeepsIpc(k, pid, status, readyOk, wakes);
    case WaitStep(pid, thread, selector, writeOk, noHang, blockOk) =>
      WaitKeepsIpc(k, pid, thread, selector, writeOk, noHang, blockOk);
    case SpawnStep(parent, creds, cloned, mtssOk) => SpawnKeepsIpc(k, parent, creds, cloned, mtssOk);
    case SpawnLoadedStep(parent, creds, cloned, mtssOk, loadOk) =>
      SpawnLoadedKeepsIpc(k, parent, creds, cloned, mtssOk, loadOk);
    case CloneProcessStep(pid, creds, cloned, mtssOk) => CloneProcessKeepsIpc(k, pid, creds, cloned, mtssOk);
    case ExecStep(request, thread, root, mtssOk, readyOk) => ExecKeepsIpc(k, request, thread, root, mtssOk, readyOk);
    case SecurityStep(op) =>
      if !op.Register? {
        SecurityKeepsIpc(k, op);
      }
  }
}
