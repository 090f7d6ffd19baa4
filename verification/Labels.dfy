/** Labels, capability flags and rights of `src/subkernel/mod.rs`. */
module Labels {

  datatype SecurityLevel = PublicLevel | InternalLevel | ConfidentialLevel | SystemLevel {
    function Rank(): nat {
      match this
      case PublicLevel => 0
      case InternalLevel => 1
      case ConfidentialLevel => 2
      case SystemLevel => 3
    }
  }

  datatype SecurityLabel = SecurityLabel(level: SecurityLevel, categories: bv32) {
    predicate Dominates(other: SecurityLabel) {
      level.Rank() >= other.level.Rank() && Covers(categories, other.categories)
    }
  }

  datatype SecurityClass = PublicClass | InternalClass | ConfidentialClass | SystemClass {
    function AsLabel(): SecurityLabel {
      match this
      case PublicClass => SecurityLabel(PublicLevel, 0)
      case InternalClass => SecurityLabel(InternalLevel, 0)
      case ConfidentialClass => SecurityLabel(ConfidentialLevel, 0)
      case SystemClass => SecurityLabel(SystemLevel, 0xFFFF_FFFF)
    }
  }

  datatype IsolationLevel = NoIsolation | ProcessIsolation | VirtualMachine

  /** Every bit of `part` is set in `whole`. */
  predicate Covers(whole: bv32, part: bv32) {
    whole & part == part
  }

  lemma CoversTransitive(a: bv32, b: bv32, c: bv32)
    requires Covers(a, b) && Covers(b, c)
    ensures Covers(a, c)
  {
    assert a & c == a & (b & c) == (a & b) & c;
  }

  lemma CoversReflexive(a: bv32)
    ensures Covers(a, a)
  {
  }

  const CAP_IPC: bv32 := 1
  const CAP_SPAWN: bv32 := 2
  const CAP_KERNEL: bv32 := 4
  const CAP_IO: bv32 := 8

  predicate Allows(flags: bv32, cap: bv32) {
    flags & cap != 0
  }

  lemma CoveredAllowsNoMore(whole: bv32, part: bv32, cap: bv32)
    requires Covers(whole, part) && Allows(part, cap)
    ensures Allows(whole, cap)
  {
    assert part & cap == (whole & part) & cap == (whole & cap) & part;
  }

  // ---------------------------------------------------------------------
  // Rights of a capability record
  // ---------------------------------------------------------------------

  const READ: bv16 := 0x01
  const WRITE: bv16 := 0x02
  const SEND: bv16 := 0x04
  const RECEIVE: bv16 := 0x08
  const CONTROL: bv16 := 0x10
  const TRANSFER: bv16 := 0x20
  const REVOKE: bv16 := 0x40

  const IO_RIGHTS: bv16 := READ | WRITE | CONTROL | TRANSFER | REVOKE
  const IPC_ENDPOINT_RIGHTS: bv16 := SEND | RECEIVE | TRANSFER | REVOKE
  const CONTROL_RIGHTS: bv16 := CONTROL | TRANSFER | REVOKE
  const MEMORY_RIGHTS: bv16 := READ | WRITE | CONTROL | TRANSFER | REVOKE

  predicate HasRight(rights: bv16, right: bv16) {
    rights & right != 0
  }

  /** `inherited_child`. */
  function Inherited(rights: bv16): bv16 {
    rights & !REVOKE
  }

  predicate RightsWithin(part: bv16, whole: bv16) {
    part & whole == part
  }

  lemma RightsReflexive(a: bv16)
    ensures RightsWithin(a, a)
  {
  }

  /** What a child may do its parent may do, and revoking stays with the parent. */
  lemma WithinInherited(part: bv16, whole: bv16, right: bv16)
    requires RightsWithin(part, Inherited(whole)) && HasRight(part, right)
    ensures HasRight(whole, right)
    ensures !HasRight(part, REVOKE)
  {
    assert part == part & (whole & !REVOKE);
    assert part & right == (part & !REVOKE & right) & (whole & right);
    assert part & REVOKE == (part & whole) & (!REVOKE & REVOKE);
  }

  lemma WithinTransitive(a: bv16, b: bv16, c: bv16)
    requires RightsWithin(a, Inherited(b)) && RightsWithin(b, Inherited(c))
    ensures RightsWithin(a, Inherited(c))
  {
  }

  // ---------------------------------------------------------------------
  // Credentials and task domains
  // ---------------------------------------------------------------------

  datatype UnixIds = UnixIds(uid: nat, euid: nat, gid: nat, egid: nat, groups: seq<nat>)

  datatype Credentials = Credentials(clearance: SecurityLabel, capabilities: bv32, isolation: IsolationLevel,
                                     ids: UnixIds)

  predicate SystemPrivileged(c: Credentials) {
    c.clearance.level.SystemLevel? || Allows(c.capabilities, CAP_KERNEL)
  }

  predicate CanDelegate(holder: Credentials, requested: Credentials) {
    holder.clearance.Dominates(requested.clearance) && Covers(holder.capabilities, requested.capabilities)
  }

  lemma DelegationTransitive(a: Credentials, b: Credentials, c: Credentials)
    requires CanDelegate(a, b) && CanDelegate(b, c)
    ensures CanDelegate(a, c)
  {
    CoversTransitive(a.capabilities, b.capabilities, c.capabilities);
    CoversTransitive(a.clearance.categories, b.clearance.categories, c.clearance.categories);
  }

  lemma DelegationReflexive(a: Credentials)
    ensures CanDelegate(a, a)
  {
    CoversReflexive(a.capabilities);
    CoversReflexive(a.clearance.categories);
  }

  /** Delegation cannot create system privilege. */
  lemma DelegationGivesNoPrivilege(holder: Credentials, requested: Credentials)
    requires CanDelegate(holder, requested) && !SystemPrivileged(holder)
    ensures !SystemPrivileged(requested)
  {
    if Allows(requested.capabilities, CAP_KERNEL) {
      CoveredAllowsNoMore(holder.capabilities, requested.capabilities, CAP_KERNEL);
    }
  }
}
