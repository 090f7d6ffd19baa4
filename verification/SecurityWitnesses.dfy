/** Runs of security operations that reach what the exact conditions of `Security` and `Capabilities` shut out. */
module SecurityWitnesses {
  import opened Prelude
  import opened Tables
  import opened Labels
  import opened Capabilities
  import opened Security

  const NOBODY := UnixIds(0, 0, 0, 0, [])

  /** A task that registration seeds with nothing. */
  const PLAIN := Credentials(SecurityLabel(PublicLevel, 0), 0, NoIsolation, NOBODY)

  /** A task that may send messages and spawn; registration seeds it with two endpoint records. */
  const TALKER := Credentials(SecurityLabel(PublicLevel, 0), CAP_IPC | CAP_SPAWN, NoIsolation, NOBODY)

  lemma PlainSeeds(pid: ProcessId)
    ensures SeedGrants(pid, PLAIN) == []
  {
  }

  lemma TalkerSeeds(pid: ProcessId)
    ensures SeedGrants(pid, TALKER) == IpcSeed(pid) && !SystemPrivileged(TALKER)
  {
  }

  /** Three domain slots, the first `n` taken by plain tasks 1 to `n`. */
  function Tasks(n: nat): (r: Domains)
    ensures |r| == 3
  {
    seq(3, i requires 0 <= i => if i < n then Some(TaskDomain(i + 1, PLAIN, 0)) else None)
  }

  lemma TaskDomains(n: nat, pid: ProcessId)
    requires n <= 3
    ensures First(Tasks(n), DomainFor(pid)) == if 1 <= pid <= n then pid - 1 else 3
    ensures First(Tasks(n), Unassigned) == n
  {
    FirstIs(Tasks(n), DomainFor(pid), if 1 <= pid <= n then pid - 1 else 3);
    FirstIs(Tasks(n), Unassigned, n);
  }

  lemma RegisterNext(n: nat, l: Ledger)
    requires n < 3
    ensures Apply(SecurityState(Tasks(n), l), Register(n + 1, PLAIN)) == (SecurityState(Tasks(n + 1), l), Ok(()))
  {
    hide First;
    PlainSeeds(n + 1);
    TaskDomains(n, n + 1);
    NoGrants(l, n + 1);
    assert Tasks(n)[n := Some(TaskDomain(n + 1, PLAIN, 0))] == Tasks(n + 1);
  }

  lemma AfterStep(s: SecurityState, ops: seq<Operation>, op: Operation)
    ensures After(s, ops + [op]) == Apply(After(s, ops), op).0
  {
    assert (ops + [op])[..|ops|] == ops;
  }

  // ---------------------------------------------------------------------
  // A grandchild outlives the revocation
  // ---------------------------------------------------------------------

  /** Record `i` belongs to task `i + 1` and was handed on from the record before it. */
  function Handing(n: nat): (l: Ledger)
    ensures |l.records| == MAX_CAPABILITY_RECORDS
  {
    Ledger(seq(MAX_CAPABILITY_RECORDS, i requires 0 <= i =>
                 if i < n then Some(CapabilityRecord(i + 1, i + 1, ModuleLoad, TRANSFER, if i == 0 then None
                                                     else Some(i)))
                 else None), n + 1)
  }

  lemma HandingSlots(n: nat)
    requires n < MAX_CAPABILITY_RECORDS
    ensures First(Handing(n).records, Vacant) == n
    ensures n > 0 ==> First(Handing(n).records, Identified(n)) == n - 1
  {
    FirstIs(Handing(n).records, Vacant, n);
    if n > 0 {
      FirstIs(Handing(n).records, Identified(n), n - 1);
    }
  }

  lemma HandingGrows(n: nat)
    requires n < 3
    ensures InsertOne(Handing(n), n + 1, Grant(ModuleLoad, TRANSFER, if n == 0 then None else Some(n)))
              == (Handing(n + 1), true)
  {
    hide First;
    HandingSlots(n);
    var record := CapabilityRecord(n + 1, n + 1, ModuleLoad, TRANSFER, if n == 0 then None else Some(n));
    assert Handing(n).records[n := Some(record)] == Handing(n + 1).records;
  }

  lemma TransferInherits()
    ensures Inherited(TRANSFER) == TRANSFER && HasRight(TRANSFER, TRANSFER)
  {
  }

  lemma GrantFirst()
    ensures Apply(SecurityState(Tasks(3), Handing(0)), GrantTo(1, ModuleLoad, TRANSFER))
            == (SecurityState(Tasks(3), Handing(1)), Ok(()))
  {
    hide First, InsertOne;
    TaskDomains(3, 1);
    HandingGrows(0);
    OneGrant(Handing(0), 1, Grant(ModuleLoad, TRANSFER, None));
  }

  lemma HandOn(n: nat)
    requires 1 <= n < 3
    ensures Apply(SecurityState(Tasks(3), Handing(n)), Transfer(n, n + 1, n))
              == (SecurityState(Tasks(3), Handing(n + 1)), Ok(()))
  {
    hide First, InsertOne, Inherited, HasRight;
    TaskDomains(3, n);
    TaskDomains(3, n + 1);
    HandingSlots(n);
    HandingGrows(n);
    TransferInherits();
    OneGrant(Handing(n), n + 1, Grant(ModuleLoad, TRANSFER, Some(n)));
  }

  /** Tasks 1, 2 and 3 are registered; task 1 is granted a capability and hands it to 2, which hands it to 3. */
  const HANDED_TWICE: seq<Operation> :=
    [Register(1, PLAIN)] + [Register(2, PLAIN)] + [Register(3, PLAIN)] + [GrantTo(1, ModuleLoad, TRANSFER)]
    + [Transfer(1, 2, 1)] + [Transfer(2, 3, 2)]

  lemma HandedTwice()
    ensures After(EmptySecurity(3), HANDED_TWICE) == SecurityState(Tasks(3), Handing(3))
  {
    hide Apply, After;
    var s := EmptySecurity(3);
    assert s.domains == Tasks(0) && s.ledger.records == Handing(0).records;
    RegisterNext(0, s.ledger);
    RegisterNext(1, s.ledger);
    RegisterNext(2, s.ledger);
    GrantFirst();
    HandOn(1);
    HandOn(2);
    AfterOne(s, Register(1, PLAIN));
    var ops := [Register(1, PLAIN)];
    AfterStep(s, ops, Register(2, PLAIN));
    ops := ops + [Register(2, PLAIN)];
    AfterStep(s, ops, Register(3, PLAIN));
    ops := ops + [Register(3, PLAIN)];
    AfterStep(s, ops, GrantTo(1, ModuleLoad, TRANSFER));
    ops := ops + [GrantTo(1, ModuleLoad, TRANSFER)];
    AfterStep(s, ops, Transfer(1, 2, 1));
    ops := ops + [Transfer(1, 2, 1)];
    AfterStep(s, ops, Transfer(2, 3, 2));
  }

  lemma HandingIsForest(n: nat)
    requires 3 <= n < MAX_CAPABILITY_RECORDS
    ensures Forest(Handing(n)) && Issued(Handing(n).records, 1) && HasGrandchild(Handing(n).records, 1)
  {
    var records := Handing(n).records;
    TransferInherits();
    RightsReflexive(TRANSFER);
    hide Inherited, HasRight, RightsWithin, Handing;
    HandingAt(n);
    assert Live(records, 0) && Live(records, 1) && Live(records, 2);
    assert records[1].value.parent == Some(1) && records[2].value.parent == Some(records[1].value.id);
  }

  ghost predicate HandedRecord(slot: Option<CapabilityRecord>, i: int) {
    && slot.Some? && slot.value.id == i + 1 && slot.value.owner == i + 1 && slot.value.target == ModuleLoad
    && slot.value.rights == TRANSFER && slot.value.parent == if i <= 0 then None else Some(i)
  }

  lemma HandingAt(n: nat)
    ensures Handing(n).nextId == n + 1
    ensures forall i :: Live(Handing(n).records, i) ==> i < n && HandedRecord(Handing(n).records[i], i)
    ensures forall i :: 0 <= i < n && i < MAX_CAPABILITY_RECORDS ==> Live(Handing(n).records, i)
  {
  }

  lemma LastIsLeft(n: nat)
    requires 3 <= n < MAX_CAPABILITY_RECORDS
    ensures Permits(Apply(SecurityState(Tasks(3), Handing(n)), Revoke(1)).0.ledger.records, 3, ModuleLoad, TRANSFER)
  {
    HandingIsForest(n);
    HandingAt(n);
    TransferInherits();
    var records := Handing(n).records;
    FirstIs(records, Identified(1), 0);
    hide Revoked, Forest, HasGrandchild, HasRight, First, Handing, Issued;
    assert Live(records, 2);
    OthersSurvive(Handing(n), 1, 2);
    var left := Revoked(records, 1);
    assert Live(left, 2) && Allowing(3, ModuleLoad, TRANSFER)(left[2]);
  }

  /** The record handed on twice is a grandchild, and task 3 can use it after the first one is revoked. */
  lemma GrandchildOutlives()
    ensures var s := After(EmptySecurity(3), HANDED_TWICE);
            && Forest(s.ledger) && HasGrandchild(s.ledger.records, 1) && DescendantSurvives(s.ledger.records, 1)
            && Permits(Apply(s, Revoke(1)).0.ledger.records, 3, ModuleLoad, TRANSFER)
  {
    hide After, Apply, Forest, HasGrandchild, DescendantSurvives, Permits, Handing, Tasks, EmptySecurity, Issued;
    HandedTwice();
    HandingIsForest(3);
    RevocationReach(Handing(3), 1);
    LastIsLeft(3);
  }

  // ---------------------------------------------------------------------
  // A table that is nearly full
  // ---------------------------------------------------------------------

  /** `n` records: the first belongs to task 1, the others to task 2. */
  function Packed(n: nat): (l: Ledger)
    ensures |l.records| == MAX_CAPABILITY_RECORDS
  {
    Ledger(seq(MAX_CAPABILITY_RECORDS, i requires 0 <= i =>
                 if i < n then Some(CapabilityRecord(i + 1, if i == 0 then 1 else 2, ModuleLoad, 0, None))
                    else None), n + 1)
  }

  function PackOne(n: nat): Operation {
    GrantTo(if n == 0 then 1 else 2, ModuleLoad, 0)
  }

  /** Two plain tasks are registered and `n` capabilities granted. */
  function Packing(n: nat): seq<Operation> {
    if n == 0 then [Register(1, PLAIN)] + [Register(2, PLAIN)] else Packing(n - 1) + [PackOne(n - 1)]
  }

  lemma PackedVacancy(n: nat)
    requires n <= MAX_CAPABILITY_RECORDS
    ensures First(Packed(n).records, Vacant) == n
  {
    FirstIs(Packed(n).records, Vacant, n);
  }

  lemma PackedGrows(n: nat)
    requires n < MAX_CAPABILITY_RECORDS
    ensures Apply(SecurityState(Tasks(2), Packed(n)), PackOne(n)) == (SecurityState(Tasks(2), Packed(n + 1)), Ok(()))
  {
    hide First;
    var owner := if n == 0 then 1 else 2;
    TaskDomains(2, owner);
    PackedVacancy(n);
    OneGrant(Packed(n), owner, Grant(ModuleLoad, 0, None));
    var record := CapabilityRecord(n + 1, owner, ModuleLoad, 0, None);
    assert Packed(n).records[n := Some(record)] == Packed(n + 1).records;
  }

  lemma {:induction false} PackingPacks(n: nat)
    requires n <= MAX_CAPABILITY_RECORDS
    ensures After(EmptySecurity(3), Packing(n)) == SecurityState(Tasks(2), Packed(n))
    decreases n
  {
    hide Apply, After;
    var s := EmptySecurity(3);
    if n == 0 {
      assert s.domains == Tasks(0) && s.ledger.records == Packed(0).records;
      RegisterNext(0, s.ledger);
      RegisterNext(1, s.ledger);
      AfterOne(s, Register(1, PLAIN));
      AfterStep(s, [Register(1, PLAIN)], Register(2, PLAIN));
    } else {
      PackingPacks(n - 1);
      PackedGrows(n - 1);
      AfterStep(s, Packing(n - 1), PackOne(n - 1));
    }
  }

  /** With one vacancy left, a talker gets the first of its two records. */
  lemma HalfSeeded(l: Ledger, pid: ProcessId, v: nat)
    requires v < |l.records| && l.records[v].None?
             && (forall i :: 0 <= i < |l.records| && i != v ==> l.records[i].Some?)
    ensures var (after, ok) := InsertAll(l, pid, SeedGrants(pid, TALKER));
            && !ok && |after.records| == |l.records| && after.records[v].Some? && after.records[v].value.owner == pid
            && after.records == l.records[v := after.records[v]]
  {
    hide First;
    TalkerSeeds(pid);
    hide SeedGrants;
    var grants := IpcSeed(pid);
    assert grants[..1] == [grants[0]] && grants[..2] == grants;
    OneGrant(l, pid, grants[0]);
    InsertAllStep(l, pid, grants, 1);
    FirstIs(l.records, Vacant, v);
    var one := InsertOne(l, pid, grants[0]).0;
    FirstIs(one.records, Vacant, |one.records|);
  }

  /** Task 3 cannot be registered in a table with one vacancy, and a record of it stays behind. */
  lemma SeedingLeavesOne()
    ensures var s := After(EmptySecurity(3), Packing(MAX_CAPABILITY_RECORDS - 1));
            var (t, r) := Apply(s, Register(3, TALKER));
            && Unknown(s.domains, s.ledger.records, 3)
            && r == Err(CapabilityTableFull) && DomainOf(t.domains, 3).None?
            && t.ledger.records != s.ledger.records && !HoldsNothing(t.ledger.records, 3)
  {
    hide First, After, InsertAll, SeedGrants;
    var n := MAX_CAPABILITY_RECORDS - 1;
    PackingPacks(n);
    TaskDomains(2, 3);
    var l := Packed(n);
    HalfSeeded(l, 3, n);
    var after := InsertAll(l, 3, SeedGrants(3, TALKER)).0;
    assert Owned(3)(after.records[n]);
  }

  /** Task 1 cannot be registered anew in a full table; it keeps its domain and loses its record. */
  lemma ReseedingStripsOne()
    ensures var s := After(EmptySecurity(3), Packing(MAX_CAPABILITY_RECORDS));
            var (t, r) := Apply(s, Register(1, TALKER));
            && !HoldsNothing(s.ledger.records, 1)
            && r == Err(CapabilityTableFull) && DomainOf(t.domains, 1) == DomainOf(s.domains, 1)
            && DomainOf(t.domains, 1).Some? && HoldsNothing(t.ledger.records, 1)
  {
    hide First, After, InsertAll, SeedGrants, Swept;
    PackingPacks(MAX_CAPABILITY_RECORDS);
    TaskDomains(2, 1);
    var l := Packed(MAX_CAPABILITY_RECORDS);
    assert Owned(1)(l.records[0]);
    HalfSeeded(Ledger(Without(l.records, 1), l.nextId), 1, 0);
    FailedReseedingStrips(Tasks(2), l, 1, TALKER);
  }
}
