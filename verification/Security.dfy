/** The security kernel of `src/subkernel/mod.rs`: task domains and the capability table. */
module Security {
  import opened Prelude
  import opened Tables
  import opened Labels
  import opened Capabilities

  datatype TaskDomain = TaskDomain(pid: ProcessId, creds: Credentials, quarantineEvents: nat)

  datatype IsolationError = UnknownTask | PolicyViolation | CapabilityMissing | CapabilityTableFull

  type Domains = seq<Option<TaskDomain>>

  predicate Unassigned(slot: Option<TaskDomain>) {
    slot.None?
  }

  function DomainFor(pid: ProcessId): Option<TaskDomain> -> bool {
    (slot: Option<TaskDomain>) => slot.Some? && slot.value.pid == pid
  }

  /** `find_domain_index` and the domain it finds. */
  function DomainOf(domains: Domains, pid: ProcessId): (d: Option<TaskDomain>)
    ensures d.Some? ==> d.value.pid == pid
  {
    var idx := First(domains, DomainFor(pid));
    if idx == |domains| then None else domains[idx]
  }

  // ---------------------------------------------------------------------
  // What registration and inheritance insert
  // ---------------------------------------------------------------------

  function IpcSeed(pid: ProcessId): seq<Grant> {
    [Grant(IpcEndpoint(pid), IPC_ENDPOINT_RIGHTS, None), Grant(IpcEndpoint(ANY_64), IPC_ENDPOINT_RIGHTS, None)]
  }

  function IoSeed(): seq<Grant> {
    [Grant(PciDevice(ANY_64), IO_RIGHTS, None), Grant(DmaRegion(0, ANY_64), IO_RIGHTS, None),
     Grant(IrqLine(ANY_16), IO_RIGHTS, None), Grant(MmioRegion(0, ANY_64), IO_RIGHTS, None)]
  }

  function SystemSeed(pid: ProcessId): seq<Grant> {
    [Grant(ServiceControl, CONTROL_RIGHTS, None), Grant(ModuleLoad, CONTROL_RIGHTS, None),
     Grant(ProcessHandle(pid), CONTROL_RIGHTS, None), Grant(ProcessHandle(ANY_64), CONTROL_RIGHTS, None),
     Grant(MemoryObject(ANY_64), MEMORY_RIGHTS, None)]
  }

  /** The grants of `seed_initial_capabilities`; none of them has a parent. */
  function SeedGrants(pid: ProcessId, creds: Credentials): (r: seq<Grant>)
    ensures |r| <= 11
    ensures forall k :: 0 <= k < |r| ==> r[k].parent.None?
  {
    (if Allows(creds.capabilities, CAP_IPC) then IpcSeed(pid) else [])
    + (if Allows(creds.capabilities, CAP_IO) then IoSeed() else [])
    + (if SystemPrivileged(creds) then SystemSeed(pid) else [])
  }

  function Transferable(owner: ProcessId): Option<CapabilityRecord> -> bool {
    (slot: Option<CapabilityRecord>) => slot.Some? && slot.value.owner == owner && HasRight(slot.value.rights, TRANSFER)
  }

  /** The grant that hands a record on. */
  function Handed(slot: Option<CapabilityRecord>): Grant {
    if slot.Some? then Grant(slot.value.target, Inherited(slot.value.rights), Some(slot.value.id))
    else Grant(ModuleLoad, 0, None)
  }

  function DerivedGrants(records: Records, parent: ProcessId): (r: seq<Grant>)
    ensures |r| <= |records|
  {
    Collect(records, Transferable(parent), Handed)
  }

  lemma {:induction false} DerivedAreGrounded(l: Ledger, parent: ProcessId, n: nat)
    requires n <= |l.records|
    ensures forall k :: 0 <= k < |DerivedGrants(l.records[..n], parent)| ==>
              Grounded(l, DerivedGrants(l.records[..n], parent)[k])
    decreases n
  {
    hide RightsWithin, Inherited, HasRight;
    if n > 0 {
      assert l.records[..n][..n - 1] == l.records[..n - 1];
      DerivedAreGrounded(l, parent, n - 1);
      var slot := l.records[n - 1];
      var front, all := DerivedGrants(l.records[..n - 1], parent), DerivedGrants(l.records[..n], parent);
      assert all == if Transferable(parent)(slot) then front + [Handed(slot)] else front;
      hide DerivedGrants;
      if Transferable(parent)(slot) {
        RightsReflexive(Inherited(slot.value.rights));
        assert Live(l.records, n - 1);
        assert Grounded(l, Handed(slot));
      }
    }
  }

  // ---------------------------------------------------------------------
  // Registration
  // ---------------------------------------------------------------------

  datatype Registration = Registration(domains: Domains, ledger: Ledger, result: Result<(), IsolationError>)

  /**
   * `register_task`. A task that is already known is cleaned up after a failed
   * seeding; for a new one the records seeded so far stay behind.
   */
  function Registered(domains: Domains, l: Ledger, pid: ProcessId, creds: Credentials): Registration {
    var domain := TaskDomain(pid, creds, 0);
    var idx := First(domains, DomainFor(pid));
    var slot := First(domains, Unassigned);
    if idx < |domains| then
      var (after, ok) := InsertAll(Ledger(Without(l.records, pid), l.nextId), pid, SeedGrants(pid, creds));
      if ok then Registration(domains[idx := Some(domain)], after, Ok(()))
      else Registration(domains, Ledger(Without(after.records, pid), after.nextId), Err(CapabilityTableFull))
    else if slot < |domains| then
      var (after, ok) := InsertAll(l, pid, SeedGrants(pid, creds));
      if ok then Registration(domains[slot := Some(domain)], after, Ok(()))
      else Registration(domains, after, Err(CapabilityTableFull))
    else Registration(domains, l, Err(PolicyViolation))
  }

  ghost predicate DistinctDomains(domains: Domains) {
    forall i, j :: 0 <= i < j < |domains| && domains[i].Some? && domains[j].Some? ==>
      domains[i].value.pid != domains[j].value.pid
  }

  ghost predicate Unknown(domains: Domains, records: Records, pid: ProcessId) {
    && (forall i :: 0 <= i < |domains| ==> !DomainFor(pid)(domains[i]))
    && (forall i :: 0 <= i < |records| ==> !Owned(pid)(records[i]))
  }

  /** A registration that succeeds gives the task its credentials and no other task anything. */
  lemma RegistrationIsLocal(domains: Domains, l: Ledger, pid: ProcessId, creds: Credentials, other: ProcessId)
    requires DistinctDomains(domains)
    ensures var r := Registered(domains, l, pid, creds);
            && |r.domains| == |domains| && DistinctDomains(r.domains)
            && (r.result.Ok? ==> DomainOf(r.domains, pid) == Some(TaskDomain(pid, creds, 0)))
            && (r.result.Err? ==> r.domains == domains)
            && (other != pid ==> DomainOf(r.domains, other) == DomainOf(domains, other))
  {
    hide First, InsertAll, Without, SeedGrants;
    var r := Registered(domains, l, pid, creds);
    var i := First(domains, DomainFor(other));
    if r.result.Ok? {
      var idx := First(domains, DomainFor(pid));
      var at := if idx < |domains| then idx else First(domains, Unassigned);
      assert r.domains == domains[at := Some(TaskDomain(pid, creds, 0))];
      FirstIs(r.domains, DomainFor(pid), at);
      if other != pid {
        FirstIs(r.domains, DomainFor(other), i);
      }
    }
  }

  /** `revoke_task` undoes the registration of a new task and everything it was handed since. */
  lemma RevocationUndoesRegistration(domains: Domains, l: Ledger, pid: ProcessId, creds: Credentials, later: Ledger)
    requires Unknown(domains, l.records, pid)
    requires Registered(domains, l, pid, creds).result.Ok?
    requires AddedFor(Registered(domains, l, pid, creds).ledger.records, later.records, pid)
    ensures DomainRevoked(Registered(domains, l, pid, creds).domains, pid) == domains
    ensures Without(later.records, pid) == l.records
  {
    hide First, InsertAll, SeedGrants;
    var r := Registered(domains, l, pid, creds);
    var slot := First(domains, Unassigned);
    InsertAllAdds(l, pid, SeedGrants(pid, creds));
    assert AddedFor(l.records, later.records, pid);
    RevokingUndoesAdding(l.records, later.records, pid);
    assert First(domains, DomainFor(pid)) == |domains|;
    FirstIs(r.domains, DomainFor(pid), slot);
  }

  function DomainRevoked(domains: Domains, pid: ProcessId): Domains {
    var idx := First(domains, DomainFor(pid));
    if idx < |domains| then domains[idx := None] else domains
  }

  lemma RevocationIsLocal(domains: Domains, pid: ProcessId, other: ProcessId)
    requires DistinctDomains(domains)
    ensures DistinctDomains(DomainRevoked(domains, pid))
    ensures other != pid ==> DomainOf(DomainRevoked(domains, pid), other) == DomainOf(domains, other)
    ensures DomainOf(DomainRevoked(domains, pid), pid).None?
  {
    hide First;
    var after := DomainRevoked(domains, pid);
    var idx := First(domains, DomainFor(pid));
    FirstIs(after, DomainFor(pid), |after|);
    if other != pid {
      FirstIs(after, DomainFor(other), First(domains, DomainFor(other)));
    }
  }

  /** A registration of an unknown task that fails leaves records behind exactly when there was room for one. */
  lemma FailedSeedingLeavesRecords(domains: Domains, l: Ledger, pid: ProcessId, creds: Credentials)
    requires Unknown(domains, l.records, pid) && Registered(domains, l, pid, creds).result.Err?
    ensures Registered(domains, l, pid, creds).ledger.records == l.records
            <==> First(domains, Unassigned) == |domains| || First(l.records, Vacant) == |l.records|
  {
    hide First, SeedGrants, DomainFor;
    assert First(domains, DomainFor(pid)) == |domains|;
    if First(domains, Unassigned) < |domains| {
      FailureFillsTheTable(l, pid, SeedGrants(pid, creds));
      var after := InsertAll(l, pid, SeedGrants(pid, creds)).0;
      var v := First(l.records, Vacant);
      if v < |l.records| {
        assert after.records[v] != l.records[v];
      } else {
        InsertAllAdds(l, pid, SeedGrants(pid, creds));
        assert after.records == l.records;
      }
    }
  }

  /** A registration succeeds exactly when there is a domain slot, and a vacancy for every seeded record. */
  lemma RegistrationSucceeds(domains: Domains, l: Ledger, pid: ProcessId, creds: Credentials)
    ensures var known := First(domains, DomainFor(pid)) < |domains|;
            var left := if known then Without(l.records, pid) else l.records;
            Registered(domains, l, pid, creds).result.Ok?
            <==> (known || First(domains, Unassigned) < |domains|) && |SeedGrants(pid, creds)| <= Vacancies(left)
  {
    hide First, InsertAll, SeedGrants, Without, Vacancies;
    InsertAllFits(l, pid, SeedGrants(pid, creds));
    InsertAllFits(Ledger(Without(l.records, pid), l.nextId), pid, SeedGrants(pid, creds));
  }

  ghost predicate HoldsNothing(records: Records, pid: ProcessId) {
    forall i :: 0 <= i < |records| ==> !Owned(pid)(records[i])
  }

  /**
   * A known task whose registration fails keeps its domain and loses every
   * record it had; the table is as before exactly when it had none.
   */
  lemma FailedReseedingStrips(domains: Domains, l: Ledger, pid: ProcessId, creds: Credentials)
    requires First(domains, DomainFor(pid)) < |domains| && Registered(domains, l, pid, creds).result.Err?
    ensures var r := Registered(domains, l, pid, creds);
            && r.domains == domains && r.ledger.records == Without(l.records, pid)
               && HoldsNothing(r.ledger.records, pid)
            && (r.ledger.records == l.records <==> HoldsNothing(l.records, pid))
  {
    hide First, InsertAll, SeedGrants, Swept;
    var left := Without(l.records, pid);
    InsertAllAdds(Ledger(left, l.nextId), pid, SeedGrants(pid, creds));
    RevokingUndoesAdding(left, InsertAll(Ledger(left, l.nextId), pid, SeedGrants(pid, creds)).0.records, pid);
    if HoldsNothing(l.records, pid) {
      assert forall i :: 0 <= i < |left| ==> left[i] == l.records[i];
    }
  }

  /** A run of insertions fails only on a full table. */
  lemma {:induction false} FailureFillsTheTable(l: Ledger, owner: ProcessId, grants: seq<Grant>)
    ensures var (after, ok) := InsertAll(l, owner, grants);
            |after.records| == |l.records| && (!ok ==> forall i :: 0 <= i < |after.records| ==> after.records[i].Some?)
    decreases |grants|
  {
    hide First;
    if grants != [] {
      FailureFillsTheTable(l, owner, grants[..|grants| - 1]);
    }
  }

  // ---------------------------------------------------------------------
  // Every operation on the tables, and runs of them
  // ---------------------------------------------------------------------

  datatype SecurityState = SecurityState(domains: Domains, ledger: Ledger)

  /** `SecurityKernel::new`. */
  function EmptySecurity(max: nat): SecurityState {
    SecurityState(seq(max, i => None), Ledger(seq(MAX_CAPABILITY_RECORDS, i => None), 1))
  }

  datatype Operation =
    | Register(pid: ProcessId, creds: Credentials)
    | RevokeTask(pid: ProcessId)
    | GrantTo(owner: ProcessId, target: CapabilityObject, rights: bv16)
    | Revoke(id: nat)
    | Transfer(source: ProcessId, receiver: ProcessId, id: nat)
    | Derive(parent: ProcessId, child: ProcessId)
    | RevokeAll(owner: ProcessId)

  function Apply(s: SecurityState, op: Operation): (SecurityState, Result<(), IsolationError>) {
    match op
    case Register(pid, creds) =>
      var r := Registered(s.domains, s.ledger, pid, creds);
      (SecurityState(r.domains, r.ledger), r.result)
    case RevokeTask(pid) =>
      (SecurityState(DomainRevoked(s.domains, pid), s.ledger.(records := Without(s.ledger.records, pid))), Ok(()))
    case GrantTo(owner, target, rights) =>
      if DomainOf(s.domains, owner).None? then (s, Err(UnknownTask))
      else Inserted(s, owner, [Grant(target, rights, None)])
    case Revoke(id) =>
      if First(s.ledger.records, Identified(id)) == |s.ledger.records| then (s, Err(CapabilityMissing))
      else (s.(ledger := s.ledger.(records := Revoked(s.ledger.records, id))), Ok(()))
    case Transfer(source, receiver, id) =>
      if DomainOf(s.domains, source).None? || DomainOf(s.domains, receiver).None? then (s, Err(UnknownTask))
      else
        var idx := First(s.ledger.records, Identified(id));
        if idx == |s.ledger.records| || !Transferable(source)(s.ledger.records[idx]) then (s, Err(CapabilityMissing))
        else Inserted(s, receiver, [Handed(s.ledger.records[idx])])
    case Derive(parent, child) =>
      if DomainOf(s.domains, parent).None? || DomainOf(s.domains, child).None? then (s, Err(UnknownTask))
      else Inserted(s, child, DerivedGrants(s.ledger.records, parent))
    case RevokeAll(owner) =>
      (s.(ledger := s.ledger.(records := Without(s.ledger.records, owner))), Ok(()))
  }

  function Inserted(s: SecurityState, owner: ProcessId, grants: seq<Grant>)
    : (SecurityState, Result<(), IsolationError>) {
    var (after, ok) := InsertAll(s.ledger, owner, grants);
    (s.(ledger := after), if ok then Ok(()) else Err(CapabilityTableFull))
  }

  /** Every operation keeps the forest, unless the id counter wraps around in it. */
  lemma OperationKeepsForest(s: SecurityState, op: Operation)
    requires Forest(s.ledger) && |s.ledger.records| == MAX_CAPABILITY_RECORDS
    requires Apply(s, op).0.ledger.nextId >= s.ledger.nextId
    ensures Forest(Apply(s, op).0.ledger) && |Apply(s, op).0.ledger.records| == MAX_CAPABILITY_RECORDS
  {
    hide Forest, Grounded, InsertAll, Revoked, DerivedGrants, SeedGrants, First, Registered;
    var l := s.ledger;
    match op
    case Register(pid, creds) =>
      RegisterKeepsForest(s.domains, l, pid, creds);
    case RevokeTask(pid) =>
      RemovalKeepsForest(l, Without(l.records, pid));
    case GrantTo(owner, target, rights) =>
      var grants := [Grant(target, rights, None)];
      assert Grounded(l, grants[0]) by { ParentlessIsGrounded(l, grants[0]); }
      GrantsKeepForest(l, owner, grants);
    case Revoke(id) =>
      RevokedExactly(l, id);
    case Transfer(source, receiver, id) =>
      var idx := First(l.records, Identified(id));
      if idx < |l.records| && Transferable(source)(l.records[idx]) {
        var grants := [Handed(l.records[idx])];
        HandedIsGrounded(l, idx);
        GrantsKeepForest(l, receiver, grants);
      }
    case Derive(parent, child) =>
      assert l.records[..|l.records|] == l.records;
      DerivedAreGrounded(l, parent, |l.records|);
      GrantsKeepForest(l, child, DerivedGrants(l.records, parent));
    case RevokeAll(owner) =>
      RemovalKeepsForest(l, Without(l.records, owner));
  }

  lemma ParentlessIsGrounded(l: Ledger, g: Grant)
    requires g.parent.None?
    ensures Grounded(l, g)
  {
  }

  lemma HandedIsGrounded(l: Ledger, idx: nat)
    requires Live(l.records, idx)
    ensures Grounded(l, Handed(l.records[idx]))
  {
    hide RightsWithin, Inherited;
    RightsReflexive(Inherited(l.records[idx].value.rights));
  }

  lemma GrantsKeepForest(l: Ledger, owner: ProcessId, grants: seq<Grant>)
    requires Forest(l) && |grants| <= MAX_CAPABILITY_RECORDS
    requires forall k :: 0 <= k < |grants| ==> Grounded(l, grants[k])
    ensures var after := InsertAll(l, owner, grants).0;
            |after.records| == |l.records| && (after.nextId >= l.nextId ==> Forest(after))
  {
    InsertAllAdds(l, owner, grants);
    if InsertAll(l, owner, grants).0.nextId >= l.nextId {
      InsertAllKeepsForest(l, owner, grants);
    }
  }

  lemma RegisterKeepsForest(domains: Domains, l: Ledger, pid: ProcessId, creds: Credentials)
    requires Forest(l) && Registered(domains, l, pid, creds).ledger.nextId >= l.nextId
    ensures var after := Registered(domains, l, pid, creds).ledger;
            Forest(after) && |after.records| == |l.records|
  {
    hide Forest, Grounded, InsertAll, First;
    var grants := SeedGrants(pid, creds);
    var base := Ledger(Without(l.records, pid), l.nextId);
    RemovalKeepsForest(l, base.records);
    forall m: Ledger, k | 0 <= k < |grants|
      ensures Grounded(m, grants[k])
    {
      ParentlessIsGrounded(m, grants[k]);
    }
    GrantsKeepForest(l, pid, grants);
    GrantsKeepForest(base, pid, grants);
    var after := InsertAll(base, pid, grants).0;
    if after.nextId >= l.nextId {
      RemovalKeepsForest(after, Without(after.records, pid));
    }
  }

  /** The state after a run. */
  function After(s: SecurityState, ops: seq<Operation>): SecurityState {
    if ops == [] then s else Apply(After(s, ops[..|ops| - 1]), ops[|ops| - 1]).0
  }

  /** No operation of the run wraps the id counter. */
  ghost predicate NoWrap(s: SecurityState, ops: seq<Operation>) {
    ops != [] ==>
      var front := ops[..|ops| - 1];
      NoWrap(s, front) && After(s, ops).ledger.nextId >= After(s, front).ledger.nextId
  }

  /** In every run before id wrap-around the live records form a forest of shrinking authority. */
  lemma {:induction false} EveryRunKeepsForest(s: SecurityState, ops: seq<Operation>)
    requires Forest(s.ledger) && |s.ledger.records| == MAX_CAPABILITY_RECORDS && NoWrap(s, ops)
    ensures Forest(After(s, ops).ledger) && |After(s, ops).ledger.records| == MAX_CAPABILITY_RECORDS
    decreases |ops|
  {
    hide Forest, Apply;
    if ops != [] {
      var front := ops[..|ops| - 1];
      EveryRunKeepsForest(s, front);
      OperationKeepsForest(After(s, front), ops[|ops| - 1]);
    }
  }

  lemma {:induction false} AfterAppend(s: SecurityState, first: seq<Operation>, then_: seq<Operation>)
    ensures After(s, first + then_) == After(After(s, first), then_)
    decreases |then_|
  {
    hide Apply;
    var whole := first + then_;
    if then_ == [] {
      assert whole == first;
    } else {
      assert whole[..|whole| - 1] == first + then_[..|then_| - 1];
      AfterAppend(s, first, then_[..|then_| - 1]);
    }
  }

  lemma AfterOne(s: SecurityState, op: Operation)
    ensures After(s, []) == s && After(s, [op]) == Apply(s, op).0
  {
    assert [op][..0] == [];
  }

  /** One operation moves the id counter by at most a table of records, or wraps it. */
  ghost predicate Advances(before: nat, after: nat, most: nat) {
    && 0 < after < TWO_64
    && (before <= after <= before + most || (before + most >= TWO_64 && after <= most))
  }

  lemma InsertAllAdvances(l: Ledger, owner: ProcessId, grants: seq<Grant>)
    requires 0 < l.nextId < TWO_64 && |grants| <= MAX_CAPABILITY_RECORDS
    ensures var after := InsertAll(l, owner, grants).0;
            Advances(l.nextId, after.nextId, MAX_CAPABILITY_RECORDS) && |after.records| == |l.records|
  {
    IdsAdvance(l, owner, grants);
    InsertAllAdds(l, owner, grants);
  }

  lemma OperationAdvances(s: SecurityState, op: Operation)
    requires 0 < s.ledger.nextId < TWO_64 && |s.ledger.records| == MAX_CAPABILITY_RECORDS
    ensures var l := Apply(s, op).0.ledger;
            Advances(s.ledger.nextId, l.nextId, MAX_CAPABILITY_RECORDS) && |l.records| == MAX_CAPABILITY_RECORDS
  {
    hide First, InsertAll, SeedGrants, DerivedGrants, Swept, DomainOf, HasRight, Inherited;
    var l := s.ledger;
    match op
    case Register(pid, creds) =>
      InsertAllAdvances(l, pid, SeedGrants(pid, creds));
      InsertAllAdvances(Ledger(Without(l.records, pid), l.nextId), pid, SeedGrants(pid, creds));
    case RevokeTask(pid) =>
    case GrantTo(owner, target, rights) => InsertAllAdvances(l, owner, [Grant(target, rights, None)]);
    case Revoke(id) =>
    case Transfer(source, receiver, id) =>
      var idx := First(l.records, Identified(id));
      if idx < |l.records| {
        InsertAllAdvances(l, receiver, [Handed(l.records[idx])]);
      }
    case Derive(parent, child) => InsertAllAdvances(l, child, DerivedGrants(l.records, parent));
    case RevokeAll(owner) =>
  }

  /** A short run wraps the counter exactly once or not at all. */
  lemma {:induction false} RunAdvances(s: SecurityState, ops: seq<Operation>)
    requires 0 < s.ledger.nextId < TWO_64 && |s.ledger.records| == MAX_CAPABILITY_RECORDS && |ops| <= 8
    ensures var l, most := After(s, ops).ledger, MAX_CAPABILITY_RECORDS * |ops|;
            && 0 < l.nextId < TWO_64 && |l.records| == MAX_CAPABILITY_RECORDS
            && (|| (NoWrap(s, ops) && s.ledger.nextId <= l.nextId <= s.ledger.nextId + most)
                || (s.ledger.nextId + most >= TWO_64 && l.nextId <= most))
    decreases |ops|
  {
    hide Apply;
    if ops != [] {
      RunAdvances(s, ops[..|ops| - 1]);
      OperationAdvances(After(s, ops[..|ops| - 1]), ops[|ops| - 1]);
    }
  }

  /** A short run keeps the forest unless the id counter ends below where it began. */
  lemma ShortRunKeepsForest(s: SecurityState, ops: seq<Operation>)
    requires Forest(s.ledger) && |s.ledger.records| == MAX_CAPABILITY_RECORDS && |ops| <= 8
    requires After(s, ops).ledger.nextId >= s.ledger.nextId
    ensures Forest(After(s, ops).ledger) && |After(s, ops).ledger.records| == MAX_CAPABILITY_RECORDS
  {
    ForestCounter(s.ledger);
    hide Forest, After;
    RunAdvances(s, ops);
    EveryRunKeepsForest(s, ops);
  }

  /** Only registration and task revocation touch the domains. */
  lemma DomainsKept(s: SecurityState, op: Operation)
    ensures !op.Register? && !op.RevokeTask? ==> Apply(s, op).0.domains == s.domains
  {
    hide First, InsertAll, DerivedGrants, Swept, Revoked, Without;
  }

  // ---------------------------------------------------------------------
  // Ids that no table knows yet
  // ---------------------------------------------------------------------

  /** Every task the tables mention has an id below `n`. */
  ghost predicate Below(s: SecurityState, n: nat) {
    && (forall i :: 0 <= i < |s.domains| && s.domains[i].Some? ==> s.domains[i].value.pid < n)
    && (forall i :: 0 <= i < |s.ledger.records| && s.ledger.records[i].Some? ==> s.ledger.records[i].value.owner < n)
  }

  lemma KnownIsBelow(s: SecurityState, pid: ProcessId, n: nat)
    requires Below(s, n) && DomainOf(s.domains, pid).Some?
    ensures pid < n
  {
  }

  lemma NewIsUnknown(s: SecurityState, n: nat)
    requires Below(s, n)
    ensures Unknown(s.domains, s.ledger.records, n)
  {
  }

  /** Only registration names a task that has no domain yet. */
  lemma OperationStaysBelow(s: SecurityState, op: Operation, n: nat)
    requires Below(s, n) && (op.Register? ==> op.pid < n)
    ensures Below(Apply(s, op).0, n)
  {
    hide First, InsertAll, SeedGrants, DerivedGrants, Swept, HasRight, Inherited, InsertOne, DomainOf;
    match op
    case Register(pid, creds) =>
      var base := Without(s.ledger.records, pid);
      InsertAllAdds(s.ledger, pid, SeedGrants(pid, creds));
      InsertAllAdds(Ledger(base, s.ledger.nextId), pid, SeedGrants(pid, creds));
    case RevokeTask(pid) =>
    case GrantTo(owner, target, rights) =>
      InsertAllAdds(s.ledger, owner, [Grant(target, rights, None)]);
      if DomainOf(s.domains, owner).Some? {
        KnownIsBelow(s, owner, n);
      }
    case Revoke(id) =>
    case Transfer(source, receiver, id) =>
      if DomainOf(s.domains, receiver).Some? {
        KnownIsBelow(s, receiver, n);
        var idx := First(s.ledger.records, Identified(id));
        if idx < |s.ledger.records| {
          InsertAllAdds(s.ledger, receiver, [Handed(s.ledger.records[idx])]);
        }
      }
    case Derive(parent, child) =>
      InsertAllAdds(s.ledger, child, DerivedGrants(s.ledger.records, parent));
      if DomainOf(s.domains, child).Some? {
        KnownIsBelow(s, child, n);
      }
    case RevokeAll(owner) =>
  }

  // ---------------------------------------------------------------------
  // Decisions
  // ---------------------------------------------------------------------

  /** The records decide a request: an owned record that matches the object and has the right. */
  ghost predicate Permits(records: Records, owner: ProcessId, requested: CapabilityObject, right: bv16) {
    exists i :: Live(records, i) && Allowing(owner, requested, right)(records[i])
  }

  function Allowing(owner: ProcessId, requested: CapabilityObject, right: bv16): Option<CapabilityRecord> -> bool {
    (slot: Option<CapabilityRecord>) =>
      slot.Some? && slot.value.owner == owner && ObjectMatches(slot.value.target, requested)
        && HasRight(slot.value.rights, right)
  }

  predicate SpawnAllowed(holder: Credentials, requested: Credentials) {
    Allows(holder.capabilities, CAP_SPAWN) && (SystemPrivileged(holder) || CanDelegate(holder, requested))
  }

  datatype ExecRequest = ExecRequest(caller: ProcessId, requested: Credentials, executable: bool, truncated: bool,
                                     signedDaemon: bool)

  predicate ExecAllowed(holder: Credentials, request: ExecRequest) {
    && request.executable && !request.truncated
    && (SystemPrivileged(holder) || CanDelegate(holder, request.requested) || request.signedDaemon)
  }

  predicate IpcAllowed(sender: Credentials, receiver: Credentials, class_: SecurityClass) {
    && Allows(sender.capabilities, CAP_IPC)
    && sender.clearance.Dominates(class_.AsLabel()) && receiver.clearance.Dominates(class_.AsLabel())
    && !(sender.isolation.VirtualMachine? && receiver.isolation.NoIsolation?)
  }

  // ---------------------------------------------------------------------
  // The kernel object
  // ---------------------------------------------------------------------

  class SecurityKernel {
    var domains: Domains
    var capabilities: Records
    var nextCapabilityId: nat

    ghost function State(): SecurityState
      reads this
    {
      SecurityState(domains, Ledger(capabilities, nextCapabilityId))
    }

    constructor (max: nat)
      ensures State() == EmptySecurity(max) && Forest(State().ledger)
    {
      domains := seq(max, i => None);
      capabilities := seq(MAX_CAPABILITY_RECORDS, i => None);
      nextCapabilityId := 1;
    }

    method FindDomainIndex(pid: ProcessId) returns (idx: nat)
      ensures idx == First(domains, DomainFor(pid))
    {
      hide First;
      idx := 0;
      while idx < |domains|
        invariant idx <= |domains|
        invariant forall k :: 0 <= k < idx ==> !DomainFor(pid)(domains[k])
      {
        if domains[idx].Some? && domains[idx].value.pid == pid {
          break;
        }
        idx := idx + 1;
      }
      FirstIs(domains, DomainFor(pid), idx);
    }

    method FindDomain(pid: ProcessId) returns (d: Option<TaskDomain>)
      ensures d == DomainOf(domains, pid)
    {
      var idx := FindDomainIndex(pid);
      return if idx == |domains| then None else domains[idx];
    }

    method FindCapabilityIndex(id: nat) returns (idx: nat)
      ensures idx == First(capabilities, Identified(id))
    {
      hide First;
      idx := 0;
      while idx < |capabilities|
        invariant idx <= |capabilities|
        invariant forall k :: 0 <= k < idx ==> !Identified(id)(capabilities[k])
      {
        if capabilities[idx].Some? && capabilities[idx].value.id == id {
          break;
        }
        idx := idx + 1;
      }
      FirstIs(capabilities, Identified(id), idx);
    }

    method InsertCapability(owner: ProcessId, grant: Grant) returns (r: Result<nat, IsolationError>)
      modifies this`capabilities, this`nextCapabilityId
      ensures (State().ledger, r.Ok?) == InsertOne(old(State().ledger), owner, grant)
      ensures r == if r.Ok? then Ok(old(nextCapabilityId)) else Err(CapabilityTableFull)
    {
      hide First;
      var idx := 0;
      while idx < |capabilities|
        invariant idx <= |capabilities|
        invariant capabilities == old(capabilities) && nextCapabilityId == old(nextCapabilityId)
        invariant forall k :: 0 <= k < idx ==> !Vacant(capabilities[k])
      {
        if capabilities[idx].None? {
          FirstIs(capabilities, Vacant, idx);
          var id := nextCapabilityId;
          nextCapabilityId := if id + 1 >= TWO_64 then 1 else id + 1;
          capabilities :=
            capabilities[idx := Some(CapabilityRecord(id, owner, grant.target, grant.rights, grant.parent))];
          return Ok(id);
        }
        idx := idx + 1;
      }
      FirstIs(capabilities, Vacant, idx);
      return Err(CapabilityTableFull);
    }

    /** A run of insertions that stops at the first failure. */
    method InsertCapabilities(owner: ProcessId, grants: seq<Grant>) returns (r: Result<(), IsolationError>)
      modifies this`capabilities, this`nextCapabilityId
      ensures (State(), r) == Inserted(old(State()), owner, grants)
    {
      hide InsertOne;
      for i := 0 to |grants|
        invariant domains == old(domains)
        invariant InsertAll(old(State().ledger), owner, grants[..i]) == (State().ledger, true)
      {
        InsertAllStep(old(State().ledger), owner, grants, i);
        var inserted := InsertCapability(owner, grants[i]);
        if inserted.Err? {
          InsertAllStops(old(State().ledger), owner, grants, i + 1);
          return Err(CapabilityTableFull);
        }
      }
      assert grants[..|grants|] == grants;
      return Ok(());
    }

    method SeedInitialCapabilities(pid: ProcessId, creds: Credentials) returns (r: Result<(), IsolationError>)
      modifies this`capabilities, this`nextCapabilityId
      ensures (State(), r) == Inserted(old(State()), pid, SeedGrants(pid, creds))
    {
      r := InsertCapabilities(pid, SeedGrants(pid, creds));
    }

    method RevokeAllCapabilities(owner: ProcessId)
      modifies this`capabilities
      ensures State() == Apply(old(State()), RevokeAll(owner)).0
    {
      hide Swept;
      var idx := 0;
      while idx < |capabilities|
        invariant idx <= |capabilities| == |old(capabilities)|
        invariant forall k :: 0 <= k < |capabilities| ==>
                    capabilities[k] == if k < idx && Owned(owner)(old(capabilities[k])) then None
                      else old(capabilities[k])
      {
        if capabilities[idx].Some? && capabilities[idx].value.owner == owner {
          capabilities := capabilities[idx := None];
        }
        idx := idx + 1;
      }
      assert capabilities == Without(old(capabilities), owner);
    }

    method RegisterTask(pid: ProcessId, creds: Credentials) returns (r: Result<(), IsolationError>)
      modifies this
      ensures (State(), r) == Apply(old(State()), Register(pid, creds))
    {
      hide First, InsertAll, SeedGrants, Without;
      var idx := FindDomainIndex(pid);
      if idx < |domains| {
        var previous := domains[idx];
        domains := domains[idx := Some(TaskDomain(pid, creds, 0))];
        RevokeAllCapabilities(pid);
        r := SeedInitialCapabilities(pid, creds);
        if r.Err? {
          RevokeAllCapabilities(pid);
          domains := domains[idx := previous];
          assert domains == old(domains);
        }
        return;
      }
      idx := FindUnassigned();
      if idx == |domains| {
        return Err(PolicyViolation);
      }
      domains := domains[idx := Some(TaskDomain(pid, creds, 0))];
      r := SeedInitialCapabilities(pid, creds);
      if r.Err? {
        domains := domains[idx := None];
        assert domains == old(domains);
      }
    }

    method FindUnassigned() returns (idx: nat)
      ensures idx == First(domains, Unassigned)
    {
      hide First;
      idx := 0;
      while idx < |domains|
        invariant idx <= |domains|
        invariant forall k :: 0 <= k < idx ==> !Unassigned(domains[k])
      {
        if domains[idx].None? {
          break;
        }
        idx := idx + 1;
      }
      FirstIs(domains, Unassigned, idx);
    }

    method RevokeTask(pid: ProcessId)
      modifies this
      ensures State() == Apply(old(State()), Operation.RevokeTask(pid)).0
    {
      var idx := FindDomainIndex(pid);
      if idx < |domains| {
        domains := domains[idx := None];
      }
      RevokeAllCapabilities(pid);
    }

    method GrantCapability(owner: ProcessId, target: CapabilityObject, rights: bv16)
      returns (r: Result<nat, IsolationError>)
      modifies this`capabilities, this`nextCapabilityId
      ensures State() == Apply(old(State()), GrantTo(owner, target, rights)).0
      ensures r == match Apply(old(State()), GrantTo(owner, target, rights)).1
                   case Ok(_) => Ok(old(nextCapabilityId))
                   case Err(error) => Err(error)
    {
      hide InsertOne;
      var domain := FindDomain(owner);
      if domain.None? {
        return Err(UnknownTask);
      }
      OneGrant(State().ledger, owner, Grant(target, rights, None));
      r := InsertCapability(owner, Grant(target, rights, None));
    }

    method RevokeCapability(id: nat) returns (r: Result<(), IsolationError>)
      modifies this`capabilities
      ensures (State(), r) == Apply(old(State()), Revoke(id))
    {
      hide First, Swept;
      var idx := FindCapabilityIndex(id);
      if idx == |capabilities| {
        return Err(CapabilityMissing);
      }
      ghost var cut := capabilities[idx := None];
      capabilities := capabilities[idx := None];
      var child := 0;
      while child < |capabilities|
        invariant child <= |capabilities| == |cut|
        invariant forall k :: 0 <= k < |cut| ==>
                    capabilities[k] == if k < child && ChildOf(id)(cut[k]) then None else cut[k]
      {
        if capabilities[child].Some? && capabilities[child].value.parent == Some(id) {
          capabilities := capabilities[child := None];
        }
        child := child + 1;
      }
      assert capabilities == Swept(cut, ChildOf(id), Emptied);
      return Ok(());
    }

    method TransferCapability(source: ProcessId, receiver: ProcessId, id: nat) returns (r: Result<nat, IsolationError>)
      modifies this`capabilities, this`nextCapabilityId
      ensures State() == Apply(old(State()), Transfer(source, receiver, id)).0
      ensures r == match Apply(old(State()), Transfer(source, receiver, id)).1
                   case Ok(_) => Ok(old(nextCapabilityId))
                   case Err(error) => Err(error)
    {
      hide InsertOne, HasRight, Inherited;
      var from := FindDomain(source);
      if from.None? {
        return Err(UnknownTask);
      }
      var to := FindDomain(receiver);
      if to.None? {
        return Err(UnknownTask);
      }
      var idx := FindCapabilityIndex(id);
      if idx == |capabilities| {
        return Err(CapabilityMissing);
      }
      var record := capabilities[idx].value;
      if record.owner != source || !HasRight(record.rights, TRANSFER) {
        return Err(CapabilityMissing);
      }
      OneGrant(State().ledger, receiver, Grant(record.target, Inherited(record.rights), Some(id)));
      r := InsertCapability(receiver, Grant(record.target, Inherited(record.rights), Some(id)));
    }

    method DeriveInheritedChildCapabilities(parent: ProcessId, child: ProcessId) returns (r: Result<(), IsolationError>)
      modifies this`capabilities, this`nextCapabilityId
      ensures (State(), r) == Apply(old(State()), Derive(parent, child))
    {
      hide InsertOne, HasRight, Inherited, InsertAll;
      var from := FindDomain(parent);
      if from.None? {
        return Err(UnknownTask);
      }
      var to := FindDomain(child);
      if to.None? {
        return Err(UnknownTask);
      }
      var snapshot := capabilities;
      ghost var start := State().ledger;
      NoGrants(start, child);
      var idx := 0;
      while idx < |snapshot|
        invariant idx <= |snapshot| && domains == old(domains)
        invariant InsertAll(start, child, DerivedGrants(snapshot[..idx], parent)) == (State().ledger, true)
      {
        DerivedStep(start, child, snapshot, parent, idx);
        if snapshot[idx].Some? {
          var record := snapshot[idx].value;
          if record.owner == parent && HasRight(record.rights, TRANSFER) {
            var inserted := InsertCapability(child, Grant(record.target, Inherited(record.rights), Some(record.id)));
            if inserted.Err? {
              DerivedStops(start, child, snapshot, parent, idx + 1);
              return Err(CapabilityTableFull);
            }
          }
        }
        idx := idx + 1;
      }
      assert snapshot[..|snapshot|] == snapshot;
      return Ok(());
    }

    method HasCapability(owner: ProcessId, requested: CapabilityObject, right: bv16) returns (found: bool)
      ensures found <==> Permits(capabilities, owner, requested, right)
    {
      hide HasRight, ObjectMatches;
      var idx := 0;
      while idx < |capabilities|
        invariant idx <= |capabilities|
        invariant forall k :: 0 <= k < idx ==> !Allowing(owner, requested, right)(capabilities[k])
      {
        if capabilities[idx].Some? {
          var record := capabilities[idx].value;
          if record.owner == owner && ObjectMatches(record.target, requested) && HasRight(record.rights, right) {
            assert Live(capabilities, idx);
            return true;
          }
        }
        idx := idx + 1;
      }
      return false;
    }

    method CheckCapability(owner: ProcessId, requested: CapabilityObject, right: bv16)
      returns (r: Result<(), IsolationError>)
      ensures r.Ok? <==> DomainOf(domains, owner).Some? && Permits(capabilities, owner, requested, right)
      ensures r == Err(UnknownTask) <==> DomainOf(domains, owner).None?
      ensures r.Err? && DomainOf(domains, owner).Some? ==> r == Err(CapabilityMissing)
    {
      var domain := FindDomain(owner);
      if domain.None? {
        return Err(UnknownTask);
      }
      var found := HasCapability(owner, requested, right);
      return if found then Ok(()) else Err(CapabilityMissing);
    }

    method AuthorizeIpc(sender: ProcessId, receiver: ProcessId, class_: SecurityClass)
      returns (r: Result<(), IsolationError>)
      ensures var s, t := DomainOf(domains, sender), DomainOf(domains, receiver);
              && (r == Err(UnknownTask) <==> s.None? || t.None?)
              && (r == Err(CapabilityMissing) <==>
                    s.Some? && t.Some? && !Permits(capabilities, sender, IpcEndpoint(receiver), SEND))
              && (r.Ok? <==> && s.Some? && t.Some? && Permits(capabilities, sender, IpcEndpoint(receiver), SEND)
                             && IpcAllowed(s.value.creds, t.value.creds, class_))
    {
      hide Allows, Permits;
      var from := FindDomain(sender);
      if from.None? {
        return Err(UnknownTask);
      }
      var to := FindDomain(receiver);
      if to.None? {
        return Err(UnknownTask);
      }
      var checked := CheckCapability(sender, IpcEndpoint(receiver), SEND);
      if checked.Err? {
        return Err(checked.error);
      }
      var s, t := from.value.creds, to.value.creds;
      if !(Allows(s.capabilities, CAP_IPC) && s.clearance.Dominates(class_.AsLabel()))
         || !t.clearance.Dominates(class_.AsLabel()) {
        return Err(PolicyViolation);
      }
      if s.isolation.VirtualMachine? && t.isolation.NoIsolation? {
        return Err(PolicyViolation);
      }
      return Ok(());
    }

    method AuthorizeSpawn(parent: ProcessId, requested: Credentials) returns (r: Result<(), IsolationError>)
      ensures var d := DomainOf(domains, parent);
              && (r == Err(UnknownTask) <==> d.None?)
              && (r == Err(CapabilityMissing) <==> d.Some? && !Allows(d.value.creds.capabilities, CAP_SPAWN))
              && (r.Ok? <==> d.Some? && SpawnAllowed(d.value.creds, requested))
    {
      hide Allows, CanDelegate;
      var domain := FindDomain(parent);
      if domain.None? {
        return Err(UnknownTask);
      }
      if !Allows(domain.value.creds.capabilities, CAP_SPAWN) {
        return Err(CapabilityMissing);
      }
      if !SystemPrivileged(domain.value.creds) && !CanDelegate(domain.value.creds, requested) {
        return Err(PolicyViolation);
      }
      return Ok(());
    }

    method AuthorizeExec(request: ExecRequest) returns (r: Result<(), IsolationError>)
      ensures var d := DomainOf(domains, request.caller);
              && (r == Err(UnknownTask) <==> d.None?)
              && (r.Ok? <==> d.Some? && ExecAllowed(d.value.creds, request))
    {
      hide Allows, CanDelegate;
      var domain := FindDomain(request.caller);
      if domain.None? {
        return Err(UnknownTask);
      }
      if !request.executable {
        return Err(PolicyViolation);
      }
      if request.truncated {
        return Err(PolicyViolation);
      }
      if SystemPrivileged(domain.value.creds) || CanDelegate(domain.value.creds, request.requested) {
        return Ok(());
      }
      if request.signedDaemon {
        return Ok(());
      }
      return Err(PolicyViolation);
    }
  }

  lemma NoGrants(l: Ledger, owner: ProcessId)
    ensures InsertAll(l, owner, []) == (l, true)
  {
  }

  lemma OneGrant(l: Ledger, owner: ProcessId, g: Grant)
    ensures InsertAll(l, owner, [g]) == InsertOne(l, owner, g)
  {
    assert [g][..0] == [];
    NoGrants(l, owner);
  }

  /** One more record of the snapshot is at most one more insertion. */
  lemma DerivedStep(l: Ledger, child: ProcessId, snapshot: Records, parent: ProcessId, idx: nat)
    requires idx < |snapshot| && InsertAll(l, child, DerivedGrants(snapshot[..idx], parent)).1
    ensures var here := InsertAll(l, child, DerivedGrants(snapshot[..idx], parent));
            InsertAll(l, child, DerivedGrants(snapshot[..idx + 1], parent))
            == if Transferable(parent)(snapshot[idx]) then InsertOne(here.0, child, Handed(snapshot[idx])) else here
  {
    hide InsertOne, HasRight, Inherited;
    assert snapshot[..idx + 1][..idx] == snapshot[..idx];
    var front := DerivedGrants(snapshot[..idx], parent);
    var g := Handed(snapshot[idx]);
    assert (front + [g])[..|front|] == front;
  }

  lemma {:induction false} DerivedStops(l: Ledger, child: ProcessId, snapshot: Records, parent: ProcessId, idx: nat)
    requires idx <= |snapshot| && !InsertAll(l, child, DerivedGrants(snapshot[..idx], parent)).1
    ensures InsertAll(l, child, DerivedGrants(snapshot, parent))
              == InsertAll(l, child, DerivedGrants(snapshot[..idx], parent))
    decreases |snapshot| - idx
  {
    hide InsertOne, HasRight, Inherited;
    if idx == |snapshot| {
      assert snapshot[..idx] == snapshot;
    } else {
      assert snapshot[..idx + 1][..idx] == snapshot[..idx];
      var front := DerivedGrants(snapshot[..idx], parent);
      assert (front + [Handed(snapshot[idx])])[..|front|] == front;
      DerivedStops(l, child, snapshot, parent, idx + 1);
    }
  }
}
