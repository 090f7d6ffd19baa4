/** Capability records and the derivation forest of `src/subkernel/mod.rs`. */
module Capabilities {
  import opened Prelude
  import opened Tables
  import opened Labels

  const MAX_CAPABILITY_RECORDS: nat := 256

  /** The id that stands for every object of its kind. */
  const ANY_64: nat := TWO_64 - 1
  const ANY_16: nat := 0xFFFF

  datatype CapabilityObject =
    | IpcEndpoint(pid: ProcessId)
    | IrqLine(line: nat)
    | DmaRegion(base: nat, length: nat)
    | PciDevice(id: nat)
    | MmioRegion(base: nat, length: nat)
    | VramRegion(base: nat, length: nat)
    | Framebuffer(base: nat, length: nat)
    | HotplugController(id: nat)
    | BlockDeviceRegistry
    | DisplayRegistry
    | FsObject(id: nat)
    | ServiceControl
    | ModuleLoad
    | ProcessHandle(pid: ProcessId)
    | MemoryObject(id: nat)

  predicate IsRegion(o: CapabilityObject) {
    o.DmaRegion? || o.MmioRegion? || o.VramRegion? || o.Framebuffer?
  }

  /** `capability_object_matches`: regions match by range, whatever their kind. */
  predicate ObjectMatches(granted: CapabilityObject, requested: CapabilityObject) {
    || granted == requested
    || (granted.IpcEndpoint? && requested.IpcEndpoint? && granted.pid == ANY_64)
    || (granted.ProcessHandle? && requested.ProcessHandle? && granted.pid == ANY_64)
    || (granted.PciDevice? && requested.PciDevice? && granted.id == ANY_64)
    || (granted.FsObject? && requested.FsObject? && granted.id == ANY_64)
    || (granted.HotplugController? && requested.HotplugController? && granted.id == ANY_64)
    || (granted.MemoryObject? && requested.MemoryObject? && granted.id == ANY_64)
    || (granted.IrqLine? && requested.IrqLine? && granted.line == ANY_16)
    || (IsRegion(granted) && IsRegion(requested)
        && requested.base >= granted.base
        && SaturatingAdd64(requested.base, requested.length) <= SaturatingAdd64(granted.base, granted.length))
  }

  datatype CapabilityRecord = CapabilityRecord(id: nat, owner: ProcessId, target: CapabilityObject, rights: bv16,
                                               parent: Option<nat>)

  type Records = seq<Option<CapabilityRecord>>

  /** The capability table and the id its next record takes. */
  datatype Ledger = Ledger(records: Records, nextId: nat)

  /** What one `insert_capability` call asks for, besides the owner. */
  datatype Grant = Grant(target: CapabilityObject, rights: bv16, parent: Option<nat>)

  predicate Vacant(slot: Option<CapabilityRecord>) {
    slot.None?
  }

  function Owned(owner: ProcessId): Option<CapabilityRecord> -> bool {
    (slot: Option<CapabilityRecord>) => slot.Some? && slot.value.owner == owner
  }

  function Identified(id: nat): Option<CapabilityRecord> -> bool {
    (slot: Option<CapabilityRecord>) => slot.Some? && slot.value.id == id
  }

  function ChildOf(id: nat): Option<CapabilityRecord> -> bool {
    (slot: Option<CapabilityRecord>) => slot.Some? && slot.value.parent == Some(id)
  }

  function Emptied(slot: Option<CapabilityRecord>): Option<CapabilityRecord> {
    None
  }

  function NextId(id: nat): nat {
    if id + 1 >= TWO_64 then 1 else id + 1
  }

  // ---------------------------------------------------------------------
  // Inserting
  // ---------------------------------------------------------------------

  /** One record in the first vacant slot, or nothing when the table is full. */
  function InsertOne(l: Ledger, owner: ProcessId, g: Grant): (Ledger, bool) {
    var idx := First(l.records, Vacant);
    if idx == |l.records| then (l, false)
    else
      var record := CapabilityRecord(l.nextId, owner, g.target, g.rights, g.parent);
      (Ledger(l.records[idx := Some(record)], NextId(l.nextId)), true)
  }

  /** Insertions in order, up to the first that fails. */
  function InsertAll(l: Ledger, owner: ProcessId, grants: seq<Grant>): (Ledger, bool) {
    if grants == [] then (l, true)
    else
      var (front, ok) := InsertAll(l, owner, grants[..|grants| - 1]);
      if ok then InsertOne(front, owner, grants[|grants| - 1]) else (front, false)
  }

  lemma InsertAllStep(l: Ledger, owner: ProcessId, grants: seq<Grant>, i: nat)
    requires i < |grants|
    ensures var (front, ok) := InsertAll(l, owner, grants[..i]);
            InsertAll(l, owner, grants[..i + 1])
            == if ok then InsertOne(front, owner, grants[i]) else (front, false)
  {
    assert grants[..i + 1][..i] == grants[..i];
  }

  /** A failed prefix decides the whole run. */
  lemma {:induction false} InsertAllStops(l: Ledger, owner: ProcessId, grants: seq<Grant>, i: nat)
    requires i <= |grants| && !InsertAll(l, owner, grants[..i]).1
    ensures InsertAll(l, owner, grants) == InsertAll(l, owner, grants[..i])
    decreases |grants| - i
  {
    if i == |grants| {
      assert grants[..i] == grants;
    } else {
      InsertAllStep(l, owner, grants, i);
      InsertAllStops(l, owner, grants, i + 1);
    }
  }

  /** Every slot of `after` is as before, or was vacant and now belongs to `owner`. */
  ghost predicate AddedFor(before: Records, after: Records, owner: ProcessId) {
    && |after| == |before|
    && forall i :: 0 <= i < |before| ==>
         after[i] == before[i] || (before[i].None? && after[i].Some? && after[i].value.owner == owner)
  }

  lemma {:induction false} InsertAllAdds(l: Ledger, owner: ProcessId, grants: seq<Grant>)
    ensures AddedFor(l.records, InsertAll(l, owner, grants).0.records, owner)
    decreases |grants|
  {
    if grants != [] {
      InsertAllAdds(l, owner, grants[..|grants| - 1]);
    }
  }

  function VacantSlot(slot: Option<CapabilityRecord>): nat {
    if slot.None? then 1 else 0
  }

  /** How many records the table can still take. */
  function Vacancies(records: Records): nat {
    Sum(records, VacantSlot)
  }

  lemma InsertOneFits(l: Ledger, owner: ProcessId, g: Grant)
    ensures var (after, ok) := InsertOne(l, owner, g);
            && (ok <==> Vacancies(l.records) > 0)
            && Vacancies(after.records) == if ok then Vacancies(l.records) - 1 else Vacancies(l.records)
  {
    hide First, Sum;
    var idx := First(l.records, Vacant);
    if idx < |l.records| {
      SumUpdate(l.records, VacantSlot, idx, Some(CapabilityRecord(l.nextId, owner, g.target, g.rights, g.parent)));
    } else {
      SumZero(l.records, VacantSlot);
    }
  }

  /** A run of insertions succeeds exactly when there is a vacancy for each. */
  lemma {:induction false} InsertAllFits(l: Ledger, owner: ProcessId, grants: seq<Grant>)
    ensures var (after, ok) := InsertAll(l, owner, grants);
            && (ok <==> |grants| <= Vacancies(l.records))
            && (ok ==> Vacancies(after.records) == Vacancies(l.records) - |grants|)
            && (!ok ==> Vacancies(after.records) == 0)
    decreases |grants|
  {
    hide InsertOne, Vacancies;
    if grants != [] {
      var front := grants[..|grants| - 1];
      InsertAllFits(l, owner, front);
      InsertOneFits(InsertAll(l, owner, front).0, owner, grants[|grants| - 1]);
    }
  }

  /** `owner` holds a record of the grant. */
  ghost predicate Given(records: Records, owner: ProcessId, g: Grant) {
    exists i :: 0 <= i < |records| && records[i].Some?
                && records[i].value.owner == owner && records[i].value.target == g.target
                && records[i].value.rights == g.rights && records[i].value.parent == g.parent
  }

  lemma AddedKeepsGiven(before: Records, after: Records, adder: ProcessId, owner: ProcessId, g: Grant)
    requires AddedFor(before, after, adder) && Given(before, owner, g)
    ensures Given(after, owner, g)
  {
    var i :| 0 <= i < |before| && before[i].Some?
             && before[i].value.owner == owner && before[i].value.target == g.target
             && before[i].value.rights == g.rights && before[i].value.parent == g.parent;
    assert after[i] == before[i];
  }

  lemma InsertOneAdds(l: Ledger, owner: ProcessId, g: Grant)
    ensures AddedFor(l.records, InsertOne(l, owner, g).0.records, owner)
    ensures InsertOne(l, owner, g).1 ==> Given(InsertOne(l, owner, g).0.records, owner, g)
  {
    hide First;
    var (after, ok) := InsertOne(l, owner, g);
    if ok {
      assert after.records[First(l.records, Vacant)].Some?;
    }
  }

  /** A run of insertions that succeeds has inserted every grant. */
  lemma {:induction false} InsertAllGives(l: Ledger, owner: ProcessId, grants: seq<Grant>, k: nat)
    requires k < |grants| && InsertAll(l, owner, grants).1
    ensures Given(InsertAll(l, owner, grants).0.records, owner, grants[k])
    decreases |grants|
  {
    hide InsertOne, Given, AddedFor;
    var n := |grants| - 1;
    var front := InsertAll(l, owner, grants[..n]).0;
    InsertOneAdds(front, owner, grants[n]);
    if k < n {
      InsertAllGives(l, owner, grants[..n], k);
      AddedKeepsGiven(front.records, InsertAll(l, owner, grants).0.records, owner, owner, grants[k]);
    }
  }

  // ---------------------------------------------------------------------
  // Revoking
  // ---------------------------------------------------------------------

  /** `revoke_all_capabilities`. */
  function Without(records: Records, owner: ProcessId): Records {
    Swept(records, Owned(owner), Emptied)
  }

  /** Revoking everything a new owner got restores the table. */
  lemma RevokingUndoesAdding(before: Records, after: Records, owner: ProcessId)
    requires AddedFor(before, after, owner)
    requires forall i :: 0 <= i < |before| ==> !Owned(owner)(before[i])
    ensures Without(after, owner) == before
  {
    hide Swept;
    var w := Without(after, owner);
    assert forall i :: 0 <= i < |before| ==> w[i] == before[i];
  }

  /** `revoke_capability`: the record and its direct children. */
  function Revoked(records: Records, id: nat): Records {
    var idx := First(records, Identified(id));
    if idx == |records| then records else Swept(records[idx := None], ChildOf(id), Emptied)
  }

  // ---------------------------------------------------------------------
  // The forest
  // ---------------------------------------------------------------------

  ghost predicate Live(records: Records, i: int) {
    0 <= i < |records| && records[i].Some?
  }

  /** `child` may hang below `parent`. */
  ghost predicate Derives(child: CapabilityRecord, parent: CapabilityRecord) {
    && parent.id < child.id
    && child.target == parent.target
    && RightsWithin(child.rights, Inherited(parent.rights))
  }

  ghost predicate Forest(l: Ledger) {
    && 0 < l.nextId < TWO_64
    && (forall i :: Live(l.records, i) ==>
         var r := l.records[i].value;
         0 < r.id < l.nextId && (r.parent.Some? ==> r.parent.value < r.id))
    && (forall i, j :: Live(l.records, i) && Live(l.records, j) && l.records[i].value.id == l.records[j].value.id ==>
        i == j)
    && (forall i, j ::
        Live(l.records, i) && Live(l.records, j) && l.records[i].value.parent == Some(l.records[j].value.id) ==>
          Derives(l.records[i].value, l.records[j].value))
  }

  /** The parent a grant names is live and allows it. */
  ghost predicate Grounded(l: Ledger, g: Grant) {
    g.parent.Some? ==>
      exists j :: Live(l.records, j) && l.records[j].value.id == g.parent.value
                  && g.target == l.records[j].value.target
                  && RightsWithin(g.rights, Inherited(l.records[j].value.rights))
  }

  /** The parent that a new record names, if it is live, allows it. */
  ghost predicate HangsBelow(l: Ledger, record: CapabilityRecord) {
    && (record.parent.Some? ==> record.parent.value < record.id)
    && (forall j :: Live(l.records, j) && record.parent == Some(l.records[j].value.id) ==>
        Derives(record, l.records[j].value))
  }

  lemma GroundedHangsBelow(l: Ledger, owner: ProcessId, g: Grant)
    requires Forest(l) && Grounded(l, g)
    ensures HangsBelow(l, CapabilityRecord(l.nextId, owner, g.target, g.rights, g.parent))
  {
    hide RightsWithin, Inherited;
    if g.parent.Some? {
      var j :| Live(l.records, j) && l.records[j].value.id == g.parent.value
               && g.target == l.records[j].value.target
               && RightsWithin(g.rights, Inherited(l.records[j].value.rights));
      assert forall k :: Live(l.records, k) && l.records[k].value.id == g.parent.value ==> k == j;
    }
  }

  lemma EnteredKeepsForest(l: Ledger, idx: nat, record: CapabilityRecord)
    requires Forest(l) && idx < |l.records| && l.records[idx].None? && l.nextId + 1 < TWO_64
    requires record.id == l.nextId && HangsBelow(l, record)
    ensures Forest(Ledger(l.records[idx := Some(record)], l.nextId + 1))
  {
    hide Derives;
    var after := l.records[idx := Some(record)];
    assert forall i :: Live(after, i) && i != idx ==> Live(l.records, i) && after[i] == l.records[i];
  }

  lemma InsertKeepsForest(l: Ledger, owner: ProcessId, g: Grant)
    requires Forest(l) && Grounded(l, g) && l.nextId + 1 < TWO_64
    ensures Forest(InsertOne(l, owner, g).0)
  {
    GroundedHangsBelow(l, owner, g);
    hide First, Forest, Grounded, HangsBelow;
    var idx := First(l.records, Vacant);
    if idx < |l.records| {
      EnteredKeepsForest(l, idx, CapabilityRecord(l.nextId, owner, g.target, g.rights, g.parent));
    }
  }

  lemma InsertKeepsGrounded(l: Ledger, owner: ProcessId, g: Grant, other: Grant)
    requires Grounded(l, other)
    ensures Grounded(InsertOne(l, owner, g).0, other)
  {
    hide First, RightsWithin, Inherited;
    var after := InsertOne(l, owner, g).0;
    if other.parent.Some? {
      var j :| Live(l.records, j) && l.records[j].value.id == other.parent.value
               && other.target == l.records[j].value.target
               && RightsWithin(other.rights, Inherited(l.records[j].value.rights));
      assert Live(after.records, j) && after.records[j] == l.records[j];
    }
  }

  lemma {:induction false} InsertAllKeepsGrounded(l: Ledger, owner: ProcessId, grants: seq<Grant>, other: Grant)
    requires Grounded(l, other)
    ensures Grounded(InsertAll(l, owner, grants).0, other)
    decreases |grants|
  {
    hide Grounded, InsertOne;
    if grants != [] {
      var front := grants[..|grants| - 1];
      InsertAllKeepsGrounded(l, owner, front, other);
      InsertKeepsGrounded(InsertAll(l, owner, front).0, owner, grants[|grants| - 1], other);
    }
  }

  /** Ids only go up, unless the counter wraps. */
  lemma {:induction false} IdsAdvance(l: Ledger, owner: ProcessId, grants: seq<Grant>)
    requires 0 < l.nextId < TWO_64
    ensures var after := InsertAll(l, owner, grants).0.nextId;
            && 0 < after < TWO_64
            && (l.nextId <= after <= l.nextId + |grants| || (l.nextId + |grants| >= TWO_64 && after <= |grants|))
    decreases |grants|
  {
    if grants != [] {
      IdsAdvance(l, owner, grants[..|grants| - 1]);
    }
  }

  /** A run of grounded insertions keeps the forest as long as the id counter does not wrap. */
  lemma {:induction false} InsertAllKeepsForest(l: Ledger, owner: ProcessId, grants: seq<Grant>)
    requires Forest(l) && |grants| <= MAX_CAPABILITY_RECORDS
    requires forall k :: 0 <= k < |grants| ==> Grounded(l, grants[k])
    requires InsertAll(l, owner, grants).0.nextId >= l.nextId
    ensures Forest(InsertAll(l, owner, grants).0)
    decreases |grants|
  {
    hide Forest, Grounded;
    if grants != [] {
      var front, last := grants[..|grants| - 1], grants[|grants| - 1];
      ForestCounter(l);
      IdsAdvance(l, owner, front);
      IdsAdvance(l, owner, grants);
      assert forall k :: 0 <= k < |front| ==> front[k] == grants[k];
      InsertAllKeepsForest(l, owner, front);
      var m := InsertAll(l, owner, front);
      if m.1 && First(m.0.records, Vacant) < |m.0.records| {
        InsertAllKeepsGrounded(l, owner, front, last);
        InsertKeepsForest(m.0, owner, last);
      }
    }
  }

  lemma ForestCounter(l: Ledger)
    requires Forest(l)
    ensures 0 < l.nextId < TWO_64
  {
  }

  /** Removing records keeps the forest. */
  lemma RemovalKeepsForest(l: Ledger, records: Records)
    requires Forest(l) && |records| == |l.records|
    requires forall i :: 0 <= i < |records| ==> records[i] == l.records[i] || records[i].None?
    ensures Forest(Ledger(records, l.nextId))
  {
    assert forall i :: Live(records, i) ==> Live(l.records, i) && records[i] == l.records[i];
  }

  ghost predicate Issued(records: Records, id: nat) {
    exists k :: Live(records, k) && records[k].value.id == id
  }

  /** Revoking a live id removes its record and its direct children, and nothing else. */
  lemma RevokedExactly(l: Ledger, id: nat)
    requires Forest(l)
    ensures var after := Revoked(l.records, id);
            && |after| == |l.records|
            && Forest(Ledger(after, l.nextId))
            && (!Issued(l.records, id) ==> after == l.records)
            && (Issued(l.records, id) ==>
                  forall i :: 0 <= i < |after| ==>
                    after[i] == if Identified(id)(l.records[i]) || ChildOf(id)(l.records[i]) then None
                      else l.records[i])
  {
    hide First, Swept;
    var idx := First(l.records, Identified(id));
    var after := Revoked(l.records, id);
    if idx < |l.records| {
      assert Live(l.records, idx);
      assert forall i :: Live(l.records, i) && i != idx ==> !Identified(id)(l.records[i]);
    } else {
      assert forall i :: Live(l.records, i) ==> !Identified(id)(l.records[i]);
    }
    RemovalKeepsForest(l, after);
  }

  // ---------------------------------------------------------------------
  // Chains of derivation
  // ---------------------------------------------------------------------

  /** `chain` leads from record `chain[0]` up to record `chain[|chain| - 1]`, parent by parent. */
  ghost predicate Chain(records: Records, chain: seq<int>) {
    && |chain| >= 1
    && (forall k :: 0 <= k < |chain| ==> Live(records, chain[k]))
    && (forall k :: 0 <= k < |chain| - 1 ==>
         records[chain[k]].value.parent == Some(records[chain[k + 1]].value.id))
  }

  /** Authority only shrinks down a chain: same object, no new right, and no right to revoke. */
  lemma {:induction false} AuthorityShrinks(l: Ledger, chain: seq<int>)
    requires Forest(l) && Chain(l.records, chain) && |chain| >= 2
    ensures Derives(l.records[chain[0]].value, l.records[chain[|chain| - 1]].value)
    decreases |chain|
  {
    hide RightsWithin, Inherited;
    if |chain| > 2 {
      AuthorityShrinks(l, chain[1..]);
      WithinTransitive(l.records[chain[0]].value.rights, l.records[chain[1]].value.rights,
                       l.records[chain[|chain| - 1]].value.rights);
    }
  }

  /** What the bottom of a chain grants, the top grants too. */
  lemma RequestsPassUpward(l: Ledger, chain: seq<int>, requested: CapabilityObject, right: bv16)
    requires Forest(l) && Chain(l.records, chain) && |chain| >= 2
    requires ObjectMatches(l.records[chain[0]].value.target, requested)
             && HasRight(l.records[chain[0]].value.rights, right)
    ensures ObjectMatches(l.records[chain[|chain| - 1]].value.target, requested)
    ensures HasRight(l.records[chain[|chain| - 1]].value.rights, right)
    ensures right != REVOKE
  {
    hide RightsWithin, Inherited, HasRight, ObjectMatches;
    AuthorityShrinks(l, chain);
    WithinInherited(l.records[chain[0]].value.rights, l.records[chain[|chain| - 1]].value.rights, right);
  }

  /** Some record below `id` outlives its revocation. */
  ghost predicate DescendantSurvives(records: Records, id: nat) {
    exists chain :: Chain(records, chain) && |chain| >= 2
                    && records[chain[|chain| - 1]].value.id == id
                    && Revoked(records, id)[chain[0]].Some?
  }

  /** Some child of `id` has a child of its own. */
  ghost predicate HasGrandchild(records: Records, id: nat) {
    exists child, grandchild :: Live(records, child) && Live(records, grandchild)
                                && records[child].value.parent == Some(id)
                                && records[grandchild].value.parent == Some(records[child].value.id)
  }

  /** Revocation reaches one level: it clears every descendant exactly when there is no grandchild. */
  lemma RevocationReach(l: Ledger, id: nat)
    requires Forest(l) && Issued(l.records, id)
    ensures DescendantSurvives(l.records, id) <==> HasGrandchild(l.records, id)
  {
    var records := l.records;
    RevokedExactly(l, id);
    var after := Revoked(records, id);
    hide Revoked, Forest, Derives;
    if DescendantSurvives(records, id) {
      var chain :| Chain(records, chain) && |chain| >= 2
                   && records[chain[|chain| - 1]].value.id == id && after[chain[0]].Some?;
      assert !ChildOf(id)(records[chain[0]]);
      assert records[chain[0]].value.parent == Some(records[chain[0 + 1]].value.id);
      var child, grandchild := chain[|chain| - 2], chain[|chain| - 3];
      assert records[chain[|chain| - 3]].value.parent == Some(records[chain[|chain| - 3 + 1]].value.id);
      assert Live(records, child) && Live(records, grandchild);
    }
    if HasGrandchild(records, id) {
      GrandchildSurvives(l, id);
    }
  }

  lemma OthersSurvive(l: Ledger, id: nat, i: int)
    requires Forest(l) && Live(l.records, i)
    requires l.records[i].value.id != id && l.records[i].value.parent != Some(id)
    ensures |Revoked(l.records, id)| == |l.records| && Revoked(l.records, id)[i] == l.records[i]
  {
    RevokedExactly(l, id);
  }

  lemma GrandchildSurvives(l: Ledger, id: nat)
    requires Forest(l) && Issued(l.records, id) && HasGrandchild(l.records, id)
    ensures DescendantSurvives(l.records, id)
  {
    var records := l.records;
    var top :| Live(records, top) && records[top].value.id == id;
    var child, grandchild :| Live(records, child) && Live(records, grandchild)
                             && records[child].value.parent == Some(id)
                             && records[grandchild].value.parent == Some(records[child].value.id);
    ParentIsOlder(l, child);
    ParentIsOlder(l, grandchild);
    hide Revoked, Forest, DescendantSurvives, Chain;
    OthersSurvive(l, id, grandchild);
    ThreeLinks(records, grandchild, child, top);
    SurvivesBy(records, id, [grandchild, child, top]);
  }

  lemma ThreeLinks(records: Records, a: int, b: int, c: int)
    requires Live(records, a) && Live(records, b) && Live(records, c)
    requires records[a].value.parent == Some(records[b].value.id)
             && records[b].value.parent == Some(records[c].value.id)
    ensures Chain(records, [a, b, c])
  {
  }

  lemma SurvivesBy(records: Records, id: nat, chain: seq<int>)
    requires Chain(records, chain) && |chain| >= 2 && records[chain[|chain| - 1]].value.id == id
    requires |Revoked(records, id)| == |records| && Revoked(records, id)[chain[0]].Some?
    ensures DescendantSurvives(records, id)
  {
    hide Revoked;
  }

  lemma ParentIsOlder(l: Ledger, i: int)
    requires Forest(l) && Live(l.records, i) && l.records[i].value.parent.Some?
    ensures l.records[i].value.parent.value < l.records[i].value.id
  {
  }
}
