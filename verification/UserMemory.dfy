/**
 User address spaces over the kernel heap (`src/kernel/memory.rs`): fork-style
 cloning, teardown, and copying to and from user memory.

 Page tables are oracles: `create` yields a fresh root or fails, and mapping a
 page succeeds or fails as the given function says.
 */
module UserMemory {
  import opened Prelude
  import opened Tables
  import opened Regions
  import opened Alignment
  import opened Heap

  const USER_LIMIT: nat := 0x0000_8000_0000_0000

  datatype AddressSpace = AddressSpace(owner: ProcessId, root: nat, references: nat)

  datatype UserMapping = UserMapping(
    owner: ProcessId, root: nat, userStart: nat, kernelStart: nat, length: nat, protection: MemoryProtection)

  type Spaces = seq<Option<AddressSpace>>
  type Mappings = seq<Option<UserMapping>>

  /** The source's `contains`, with its 64-bit overflow checks. */
  predicate Contains(m: UserMapping, root: nat, address: nat, length: nat, write: bool) {
    && m.root == root
    && (write ==> m.protection.write)
    && address + length < TWO_64
    && m.userStart <= address
    && address + length <= SaturatingAdd64(m.userStart, m.length)
  }

  function Matches(root: nat, address: nat, length: nat, write: bool): Option<UserMapping> -> bool {
    (slot: Option<UserMapping>) => slot.Some? && Contains(slot.value, root, address, length, write)
  }

  /** Where the first mapping that contains the range puts it in kernel memory. */
  function Translate(mappings: Mappings, root: nat, address: nat, length: nat, write: bool): Option<nat> {
    var i := First(mappings, Matches(root, address, length, write));
    if i == |mappings| then None
    else Some(mappings[i].value.kernelStart + (address - mappings[i].value.userStart))
  }

  /** The well-aligned pointer that stands for an empty slice of bytes. */
  const DANGLING: nat := 1

  predicate HasRoot(slot: Option<UserMapping>, root: nat) {
    slot.Some? && slot.value.root == root
  }

  function InRoot(root: nat): Option<UserMapping> -> bool {
    (slot: Option<UserMapping>) => HasRoot(slot, root)
  }

  function SpaceOf(root: nat): Option<AddressSpace> -> bool {
    (slot: Option<AddressSpace>) => slot.Some? && slot.value.root == root
  }

  // ---------------------------------------------------------------------
  // The invariant that ties the mapping table to the heap
  // ---------------------------------------------------------------------

  ghost function Block(m: UserMapping, base: nat): Region
    requires m.kernelStart >= base
  {
    Region(m.kernelStart - base, m.length)
  }

  /** `m` is page-aligned user memory backed by its own live heap record. */
  ghost predicate Backed(m: UserMapping, base: nat, records: Records) {
    && m.userStart % PAGE_SIZE == 0 && m.length % PAGE_SIZE == 0 && m.length > 0
    && m.userStart + m.length <= USER_LIMIT
    && m.root != 0 && m.kernelStart >= base
    && exists j :: 0 <= j < |records| && RecordFor(records[j], m, base)
  }

  ghost predicate RecordFor(slot: Option<AllocationRecord>, m: UserMapping, base: nat) {
    && slot.Some? && slot.value.owner == m.owner && slot.value.kind == Mapping
    && slot.value.offset + base == m.kernelStart && slot.value.size == m.length
  }

  ghost predicate MappingsBacked(mappings: Mappings, base: nat, records: Records) {
    && (forall i :: 0 <= i < |mappings| && mappings[i].Some? ==> Backed(mappings[i].value, base, records))
    && (forall i, j :: 0 <= i < j < |mappings| && mappings[i].Some? && mappings[j].Some?
          ==> mappings[i].value.kernelStart != mappings[j].value.kernelStart)
  }

  /** Roots are unique and every space is referenced. */
  ghost predicate SpacesOk(spaces: Spaces) {
    && (forall i :: 0 <= i < |spaces| && spaces[i].Some? ==>
        spaces[i].value.root != 0 && spaces[i].value.references >= 1)
    && (forall i, j :: 0 <= i < j < |spaces| && spaces[i].Some? && spaces[j].Some?
          ==> spaces[i].value.root != spaces[j].value.root)
  }

  /** Every mapping belongs to the owner of its address space. */
  ghost predicate OwnersAgree(spaces: Spaces, mappings: Mappings) {
    forall i :: 0 <= i < |mappings| && mappings[i].Some? ==> OwnerHas(spaces, mappings[i].value)
  }

  ghost predicate OwnerHas(spaces: Spaces, m: UserMapping) {
    exists k :: 0 <= k < |spaces| && spaces[k].Some? && spaces[k].value.root == m.root
      && spaces[k].value.owner == m.owner
  }

  /** Blocks of different mappings share no byte. */
  lemma BlocksApart(mappings: Mappings, base: nat, records: Records, free: FreeList, bump: nat, i: nat, j: nat)
    requires HeapOk(records, free, bump) && MappingsBacked(mappings, base, records)
    requires i < |mappings| && j < |mappings| && i != j && mappings[i].Some? && mappings[j].Some?
    ensures mappings[i].value.kernelStart >= base && mappings[j].value.kernelStart >= base
    ensures Apart(Block(mappings[i].value, base), Block(mappings[j].value, base))
    ensures Block(mappings[i].value, base).End() <= bump
  {
    var m, n := mappings[i].value, mappings[j].value;
    assert Backed(m, base, records) && Backed(n, base, records);
    assert m.kernelStart != n.kernelStart;
    var a :| 0 <= a < |records| && RecordFor(records[a], m, base);
    var b :| 0 <= b < |records| && RecordFor(records[b], n, base);
    RecordsApart(records, free, bump, a, b);
    RecordInside(records, free, bump, a);
  }

  // ---------------------------------------------------------------------
  // What a process sees
  // ---------------------------------------------------------------------

  function Unwrap(slot: Option<UserMapping>): UserMapping {
    if slot.Some? then slot.value else UserMapping(0, 0, 0, 0, 0, READ_WRITE)
  }

  /** The mappings of one root, in table order. */
  ghost function Of(mappings: Mappings, root: nat): seq<UserMapping> {
    Collect(mappings, InRoot(root), Unwrap)
  }

  function Containing(root: nat, address: nat, length: nat, write: bool): UserMapping -> bool {
    (m: UserMapping) => Contains(m, root, address, length, write)
  }

  /** Only the order among a root's own mappings decides which of them answers. */
  lemma {:induction false} TranslateOf(mappings: Mappings, root: nat, address: nat, length: nat, write: bool)
    ensures var list := Of(mappings, root);
            var k := First(list, Containing(root, address, length, write));
            Translate(mappings, root, address, length, write)
            == if k == |list| then None else Some(list[k].kernelStart + (address - list[k].userStart))
    decreases |mappings|
  {
    if mappings != [] {
      var front, last := mappings[..|mappings| - 1], mappings[|mappings| - 1];
      TranslateOf(front, root, address, length, write);
      var list, shorter := Of(mappings, root), Of(front, root);
      assert mappings == front + [last];
      assert list == if HasRoot(last, root) then shorter + [last.value] else shorter;
      hide First, Of;
      FirstOfMore(front, last, Matches(root, address, length, write));
      if HasRoot(last, root) {
        FirstOfMore(shorter, last.value, Containing(root, address, length, write));
      }
    }
  }

  ghost function Slice(bytes: seq<byte>, from: int, length: nat): seq<byte> {
    if 0 <= from && from + length <= |bytes| then bytes[from..from + length] else []
  }

  /** What `copy_from_user` returns. */
  ghost function ReadUser(mappings: Mappings, bytes: seq<byte>, base: nat, root: nat, address: nat, length: nat)
    : Option<seq<byte>>
  {
    if length == 0 then Some([])
    else
      var at := Translate(mappings, root, address, length, false);
      if at.None? then None else Some(Slice(bytes, at.value - base, length))
  }

  /** `child` repeats `parent` mapping by mapping, with the same bytes behind them. */
  ghost predicate Mirrors(child: seq<UserMapping>, parent: seq<UserMapping>, bytes: seq<byte>, base: nat) {
    && |child| == |parent|
    && forall k :: 0 <= k < |child| ==> Copies(child[k], parent[k], bytes, base)
  }

  ghost predicate Copies(c: UserMapping, p: UserMapping, bytes: seq<byte>, base: nat) {
    && c.userStart == p.userStart && c.length == p.length && c.protection == p.protection
    && c.kernelStart >= base && p.kernelStart >= base
    && c.kernelStart - base + c.length <= |bytes| && p.kernelStart - base + p.length <= |bytes|
    && Alike(Slice(bytes, c.kernelStart - base, c.length), Slice(bytes, p.kernelStart - base, p.length))
  }

  ghost predicate Alike(a: seq<byte>, b: seq<byte>) {
    a == b
  }

  /** Equal slices have equal parts. */
  lemma SubSlice(bytes: seq<byte>, a: nat, b: nat, length: nat, from: nat, size: nat)
    requires a + length <= |bytes| && b + length <= |bytes| && from + size <= length
    requires Slice(bytes, a, length) == Slice(bytes, b, length)
    ensures Slice(bytes, a + from, size) == Slice(bytes, b + from, size)
  {
    SlicePart(bytes, a, length, from, size);
    SlicePart(bytes, b, length, from, size);
    hide Slice;
  }

  lemma SlicePart(bytes: seq<byte>, a: nat, length: nat, from: nat, size: nat)
    requires a + length <= |bytes| && from + size <= length
    ensures |Slice(bytes, a, length)| == length
    ensures Slice(bytes, a + from, size) == Slice(bytes, a, length)[from..from + size]
  {
  }

  lemma MirrorsAnswerAlike(
    cs: seq<UserMapping>, ps: seq<UserMapping>, bytes: seq<byte>, base: nat,
    child: nat, parent: nat, address: nat, length: nat, write: bool)
    requires Mirrors(cs, ps, bytes, base)
    requires forall k :: 0 <= k < |cs| ==> cs[k].root == child && ps[k].root == parent
    ensures First(cs, Containing(child, address, length, write))
              == First(ps, Containing(parent, address, length, write))
  {
    hide First, Slice;
    forall k | 0 <= k < |cs|
      ensures Contains(cs[k], child, address, length, write) == Contains(ps[k], parent, address, length, write)
    {
      assert Copies(cs[k], ps[k], bytes, base);
    }
    FirstIs(cs, Containing(child, address, length, write), First(ps, Containing(parent, address, length, write)));
  }

  /** A mirrored root reads the same bytes and may write the same ranges. */
  lemma MirrorReadsSame(
    mappings: Mappings, bytes: seq<byte>, base: nat, child: nat, parent: nat, address: nat, length: nat)
    requires Mirrors(Of(mappings, child), Of(mappings, parent), bytes, base)
    ensures ReadUser(mappings, bytes, base, child, address, length)
         == ReadUser(mappings, bytes, base, parent, address, length)
    ensures Translate(mappings, child, address, length, true).Some?
       <==> Translate(mappings, parent, address, length, true).Some?
  {
    hide First, Slice, Of, Translate;
    OfHasRoot(mappings, child);
    OfHasRoot(mappings, parent);
    var cs, ps := Of(mappings, child), Of(mappings, parent);
    MirrorsAnswerAlike(cs, ps, bytes, base, child, parent, address, length, false);
    MirrorsAnswerAlike(cs, ps, bytes, base, child, parent, address, length, true);
    TranslateOf(mappings, child, address, length, false);
    TranslateOf(mappings, parent, address, length, false);
    TranslateOf(mappings, child, address, length, true);
    TranslateOf(mappings, parent, address, length, true);
    var k := First(cs, Containing(child, address, length, false));
    if k < |cs| && length > 0 {
      CopiesSlice(cs[k], ps[k], bytes, base, address, length);
    }
  }

  lemma CopiesSlice(c: UserMapping, p: UserMapping, bytes: seq<byte>, base: nat, address: nat, length: nat)
    requires Copies(c, p, bytes, base)
    requires c.userStart <= address && address + length <= c.userStart + c.length
    ensures Slice(bytes, c.kernelStart + (address - c.userStart) - base, length)
         == Slice(bytes, p.kernelStart + (address - p.userStart) - base, length)
  {
    hide Slice;
    SubSlice(bytes, c.kernelStart - base, p.kernelStart - base, c.length, address - c.userStart, length);
  }

  lemma {:induction false} OfHasRoot(mappings: Mappings, root: nat)
    ensures forall k :: 0 <= k < |Of(mappings, root)| ==> Of(mappings, root)[k].root == root
    decreases |mappings|
  {
    if mappings != [] {
      var front, last := mappings[..|mappings| - 1], mappings[|mappings| - 1];
      OfHasRoot(front, root);
      var list := Of(mappings, root);
      assert list == if HasRoot(last, root) then Of(front, root) + [last.value] else Of(front, root);
    }
  }

  // ---------------------------------------------------------------------
  // Keeping the invariant
  // ---------------------------------------------------------------------

  /** Live records are told apart by their offsets. */
  lemma OffsetIdentifies(records: Records, free: FreeList, bump: nat, j: nat)
    requires HeapOk(records, free, bump) && j < |records| && records[j].Some?
    ensures First(records, OwnedAt(records[j].value.owner, records[j].value.offset)) == j
  {
    hide First;
    var owner, offset := records[j].value.owner, records[j].value.offset;
    forall k | 0 <= k < j
      ensures !OwnedAt(owner, offset)(records[k])
    {
      if OwnedAt(owner, offset)(records[k]) {
        RecordInside(records, free, bump, k);
        RecordInside(records, free, bump, j);
        RecordsApart(records, free, bump, k, j);
      }
    }
    FirstIs(records, OwnedAt(owner, offset), j);
  }

  /** A new record leaves the mappings backed. */
  lemma StillBacked(mappings: Mappings, base: nat, records: Records, slot: nat, record: AllocationRecord)
    requires MappingsBacked(mappings, base, records) && slot < |records| && records[slot].None?
    ensures MappingsBacked(mappings, base, records[slot := Some(record)])
  {
    var after := records[slot := Some(record)];
    forall i | 0 <= i < |mappings| && mappings[i].Some?
      ensures Backed(mappings[i].value, base, after)
    {
      assert Backed(mappings[i].value, base, records);
      var j :| 0 <= j < |records| && RecordFor(records[j], mappings[i].value, base);
      assert RecordFor(after[j], mappings[i].value, base);
    }
  }

  /** Entering a mapping for a fresh record keeps the table backed, each mapping by its own record. */
  lemma EnteredIsBacked(
    mappings: Mappings, base: nat, records: Records, free: FreeList, bump: nat, slot: nat, v: nat, m: UserMapping)
    requires HeapOk(records, free, bump) && slot < |records| && records[slot].Some?
    requires MappingsBacked(mappings, base, records[slot := None]) && RecordFor(records[slot], m, base)
    requires v < |mappings| && mappings[v].None?
    requires m.userStart % PAGE_SIZE == 0 && m.length % PAGE_SIZE == 0 && m.length > 0
    requires m.userStart + m.length <= USER_LIMIT && m.root != 0 && m.kernelStart >= base
    ensures MappingsBacked(mappings[v := Some(m)], base, records)
  {
    var after, without := mappings[v := Some(m)], records[slot := None];
    StillBacked(mappings, base, without, slot, records[slot].value);
    assert without[slot := records[slot]] == records;
    forall i | 0 <= i < |after| && after[i].Some?
      ensures Backed(after[i].value, base, records)
      ensures i != v ==> after[i].value.kernelStart != m.kernelStart
    {
      if i != v {
        assert after[i] == mappings[i] && Backed(mappings[i].value, base, without);
        var j :| 0 <= j < |without| && RecordFor(without[j], mappings[i].value, base);
        assert j != slot && without[j] == records[j];
        RecordsApart(records, free, bump, j, slot);
        RecordInside(records, free, bump, j);
        RecordInside(records, free, bump, slot);
      }
    }
  }

  class UserMemory {
    const mm: MemoryManager
    var spaces: Spaces
    var mappings: Mappings

    ghost predicate Valid()
      reads this, mm
    {
      && mm.Valid() && !mm.backing.Disabled?
      && MappingsBacked(mappings, mm.Base(), mm.records)
      && SpacesOk(spaces)
    }

    constructor (manager: MemoryManager, spaceCap: nat, mappingCap: nat)
      requires manager.Valid() && !manager.backing.Disabled?
      ensures Valid() && mm == manager && |spaces| == spaceCap && |mappings| == mappingCap
      ensures forall i :: 0 <= i < spaceCap ==> spaces[i].None?
      ensures forall i :: 0 <= i < mappingCap ==> mappings[i].None?
    {
      mm := manager;
      spaces := seq(spaceCap, i => None);
      mappings := seq(mappingCap, i => None);
    }

    /** Give a block that `MmapFor` has just recorded back to the heap. */
    method Unmap(owner: ProcessId, ptr: nat, ghost slot: nat, length: nat)
      requires mm.Valid() && slot < |mm.records| && mm.records[slot].Some? && !mm.backing.Disabled?
      requires var record := mm.records[slot].value;
               record.owner == owner && record.kind == Mapping && record.size >= length
                 && record.offset + mm.Base() == ptr
      modifies mm`free, mm`records, mm`allocatedBytes
      ensures mm.Valid() && mm.records == old(mm.records)[slot := None]
    {
      hide First, HeapOk, Sum;
      OffsetIdentifies(mm.records, mm.free, mm.bumpOffset, slot);
      RecordInside(mm.records, mm.free, mm.bumpOffset, slot);
      var released := mm.MunmapFor(owner, ptr, length);
    }

    /**
     * What mapping a user range returns: the range is sane, the heap grants it, every page maps, and a slot is vacant.
     */
    ghost function MmapResult(root: nat, address: nat, length: nat, growth: Option<Layout>,
                              pages: nat -> bool): Option<nat>
      reads this, mm
    {
      if root == 0 || length == 0 || address % PAGE_SIZE != 0 || address + length > USER_LIMIT
         || AlignUp(length, PAGE_SIZE).None? || First(mappings, Vacant) == |mappings| then None
      else
        var actual := AlignUp(length, PAGE_SIZE).value;
        if forall k: nat :: k * PAGE_SIZE < actual ==>
           pages(k) then mm.MallocResult(actual, PAGE_SIZE, PAGE_SIZE, growth) else None
    }

    method MmapUserFixed(
      owner: ProcessId, root: nat, address: nat, length: nat, protection: MemoryProtection,
      growth: Option<Layout>, pages: nat -> bool)
      returns (r: Option<nat>)
      requires Valid()
      modifies this`mappings, mm`free, mm`bumpOffset, mm`backing, mm`records, mm`allocatedBytes, mm`peakBytes
      ensures Valid() && mm.Base() == old(mm.Base()) && |mm.records| == |old(mm.records)|
              && mm.Capacity() == old(mm.Capacity())
      ensures r == old(MmapResult(root, address, length, growth, pages))
      ensures r.None? ==> mappings == old(mappings) && mm.records == old(mm.records)
      ensures r.Some? ==>
                var v := First(old(mappings), Vacant);
                && v < |old(mappings)|
                && AlignUp(length, PAGE_SIZE).Some? && length > 0
                && mappings == old(mappings)[v := Some(UserMapping(
                     owner, root, address, r.value, AlignUp(length, PAGE_SIZE).value, protection))]
                && Entered(old(mappings), mappings, old(mm.records), mm.records, root, mm.Base())
                && TailUsed(old(mm.bumpOffset), mm.bumpOffset, mm.Base(), AlignUp(length, PAGE_SIZE).value)
                && Stock(mm.free, mm.bumpOffset) == StockAfter(Stock(old(mm.free), old(mm.bumpOffset)), mm.Base(),
                                                               mm.Capacity(), AlignUp(length, PAGE_SIZE).value)
      ensures SameKind(old(mm.backing), mm.backing)
    {
      hide First, HeapOk, Sum, MappingsBacked, SpacesOk, AlignUp, AlignedAt, IsPowerOfTwo, ListAfter, BumpAfter,
        TailUsed, Bumped, Placement, Backs;
      if root == 0 || length == 0 || address % PAGE_SIZE != 0 || address + length >= TWO_64
         || address + length > USER_LIMIT {
        return None;
      }
      AlignUpSmall(address, length);
      var actual := AlignUp(length, PAGE_SIZE).value;
      AlignUpIsLeast(length, PAGE_SIZE);
      MultipleStays(actual);
      ghost var slot := First(mm.records, Vacant);
      var region := mm.MmapFor(owner, actual, protection, growth);
      if region.None? {
        return None;
      }
      BumpUsesTail(old(mm.bumpOffset), mm.bumpOffset, mm.Base(), actual);
      assert mm.records[slot := None] == old(mm.records);
      var m := UserMapping(owner, root, address, region.value, actual, protection);
      var mapped := MapRegion(m, pages, slot);
      return if mapped then region else None;
    }

    /** Map the pages of a block that has just been recorded and enter it, or give the block back. */
    method MapRegion(m: UserMapping, pages: nat -> bool, ghost slot: nat) returns (ok: bool)
      requires mm.Valid() && !mm.backing.Disabled? && SpacesOk(spaces) && slot < |mm.records|
      requires RecordFor(mm.records[slot], m, mm.Base())
               && MappingsBacked(mappings, mm.Base(), mm.records[slot := None])
      requires m.userStart % PAGE_SIZE == 0 && m.length % PAGE_SIZE == 0 && m.length > 0
      requires m.userStart + m.length <= USER_LIMIT && m.root != 0 && m.kernelStart >= mm.Base()
      modifies this`mappings, mm`free, mm`records, mm`allocatedBytes
      ensures Valid()
      ensures ok <==> && (forall k: nat :: k * PAGE_SIZE < m.length ==> pages(k))
                      && First(old(mappings), Vacant) < |old(mappings)|
      ensures !ok ==> mappings == old(mappings) && mm.records == old(mm.records)[slot := None]
      ensures ok ==> mappings == old(mappings)[First(old(mappings), Vacant) := Some(m)]
                     && mm.records == old(mm.records) && mm.free == old(mm.free)
    {
      hide First, HeapOk, Sum, MappingsBacked, SpacesOk;
      ghost var v := First(mappings, Vacant);
      var mapped := MapPages(m.length, pages);
      if !mapped {
        Unmap(m.owner, m.kernelStart, slot, m.length);
        return false;
      }
      var entered := EnterMapping(m);
      if !entered {
        Unmap(m.owner, m.kernelStart, slot, m.length);
        return false;
      }
      EnteredIsBacked(old(mappings), mm.Base(), mm.records, mm.free, mm.bumpOffset, slot, v, m);
      return true;
    }

    /** The bump tail has room for `need` more bytes of whole pages, and committing them does not fail. */
    ghost predicate RoomFor(need: nat, growth: nat -> Option<Layout>)
      reads this, mm
    {
      && AlignedOffset(mm.Base(), mm.bumpOffset, PAGE_SIZE) + need <= mm.Capacity()
         && mm.Capacity() + PAGE_SIZE <= TWO_64
      && forall i: nat :: growth(i).Some?
    }

    /**
     * Mapping the parent's slot `idx` for the child succeeds only if the heap serves it and its pages map, and fails
     * only if the clone cannot be afforded or the heap does not serve it; it does while the bump tail has room.
     */
    lemma FailureIsDue(table: Mappings, ledger: Records, child: nat, parent: nat, growth: Option<Layout>,
                       pages: (nat, nat) -> bool, here: nat -> bool, start: nat, idx: nat)
      requires Valid() && idx < |table| == |mappings| && HasRoot(table[idx], parent) && mappings[idx] == table[idx]
               && child != 0
      requires Budget(table, mappings, ledger, mm.records, parent, mm.Base(), pages, start, mm.bumpOffset, idx)
      requires forall k: nat :: here(k) == pages(idx, k)
      ensures var m := table[idx].value;
              var r := MmapResult(child, m.userStart, m.length, growth, here);
              var served :=
                Serves(Stock(mm.free, mm.bumpOffset), mm.Base(), mm.Capacity(), mm.backing, m.length, growth);
              && (r.Some? ==> AllPages(m.length, pages, idx) && served)
              && (r.None? ==> !(Affordable(table, ledger, parent, pages) && served))
              && (r.None? ==>
                    !(&& Affordable(table, ledger, parent, pages)
                      && AlignedOffset(mm.Base(), start, PAGE_SIZE) + Sum(table, LengthIn(parent)) <= mm.Capacity()
                      && mm.Capacity() + PAGE_SIZE <= TWO_64 && growth.Some?))
    {
      hide First, MappingsBacked, SpacesOk, HeapOk, Sum, AlignUp, Serves;
      var m := table[idx].value;
      MappingIsPaged(mappings, mm.Base(), mm.records, idx);
      MultipleStays(m.length);
      PagesHere(m.length, pages, here, idx);
      ServedIsGranted(m.length, growth);
      hide AllPages, MemoryManager.MallocResult;
      SumPrefix(table, MapsIn(parent), idx);
      OpenMeansVacant(mappings);
      OpenMeansVacant(mm.records);
      if Affordable(table, ledger, parent, pages) {
        assert AllPages(m.length, pages, idx);
        if && growth.Some? && mm.Capacity() + PAGE_SIZE <= TWO_64
           && AlignedOffset(mm.Base(), start, PAGE_SIZE) + Sum(table, LengthIn(parent)) <= mm.Capacity() {
          SumPrefix(table, LengthIn(parent), idx);
          mm.TailGrants(m.length, growth);
        }
      }
    }

    /** A page request is granted exactly when the heap serves it and has a record slot. */
    lemma ServedIsGranted(length: nat, growth: Option<Layout>)
      requires length > 0 && AlignUp(length, PAGE_SIZE) == Some(length)
      ensures mm.MallocResult(length, PAGE_SIZE, PAGE_SIZE, growth).Some?
         <==> && Serves(Stock(mm.free, mm.bumpOffset), mm.Base(), mm.Capacity(), mm.backing, length, growth)
              && First(mm.records, Vacant) < |mm.records|
    {
      hide First, Placement, Backs, AlignUp;
    }

    method CreateUserAddressSpace(owner: ProcessId, newRoot: Option<nat>) returns (r: Option<nat>)
      requires Valid() && (newRoot.Some? ==> FreshRoot(spaces, mappings, newRoot.value))
      modifies this`spaces
      ensures Valid()
      ensures var v := First(old(spaces), Vacant);
              if newRoot.Some? && v < |old(spaces)| then
                r == newRoot && spaces == old(spaces)[v := Some(AddressSpace(owner, newRoot.value, 1))]
              else r == None && spaces == old(spaces)
    {
      hide First, MappingsBacked;
      if newRoot.None? {
        return None;
      }
      var idx := 0;
      while idx < |spaces|
        invariant idx <= |spaces| && spaces == old(spaces)
        invariant forall k :: 0 <= k < idx ==> spaces[k].Some?
      {
        if spaces[idx].None? {
          spaces := spaces[idx := Some(AddressSpace(owner, newRoot.value, 1))];
          CreatedIsOk(old(spaces), idx, AddressSpace(owner, newRoot.value, 1));
          return newRoot;
        }
        idx := idx + 1;
      }
      return None;
    }

    /** Fork: a new root whose mappings repeat the parent's over fresh copies of their bytes. */
    method CloneUserAddressSpace(
      owner: ProcessId, parentRoot: nat, newRoot: Option<nat>, growth: nat -> Option<Layout>, pages: (nat, nat) -> bool)
      returns (r: Option<nat>)
      requires Valid() && (newRoot.Some? ==> FreshRoot(spaces, mappings, newRoot.value))
      modifies this, mm
      ensures Valid() && mm.Base() == old(mm.Base())
      ensures r.Some? ==> r == newRoot && First(old(spaces), Vacant) < |old(spaces)|
      ensures r.Some? <==>
                && newRoot.Some? && First(old(spaces), Vacant) < |old(spaces)|
                && (|| parentRoot == 0
                    || (&& Affordable(old(mappings), old(mm.records), parentRoot, pages)
                        && Supplied(old(mappings), parentRoot, Stock(old(mm.free), old(mm.bumpOffset)),
                                    old(mm.Base()), old(mm.Capacity()), old(mm.backing), growth,
                                    |old(mappings)|).Some?))
      ensures (&& newRoot.Some? && First(old(spaces), Vacant) < |old(spaces)|
               && (|| parentRoot == 0
                   || (&& Affordable(old(mappings), old(mm.records), parentRoot, pages)
                       && old(RoomFor(Sum(mappings, LengthIn(parentRoot)), growth))))) ==> r == newRoot
      ensures var v := First(old(spaces), Vacant);
              if newRoot.None? || v == |old(spaces)| then
                spaces == old(spaces) && mappings == old(mappings) && mm.records == old(mm.records)
              else
                && spaces == old(spaces)[v := Some(AddressSpace(owner, newRoot.value, 1))]
                && (r.None? ==> Abandoned(old(mappings), mappings, old(mm.records), mm.records, old(mm.bytes), mm.bytes,
                                          mm.Base(), parentRoot, newRoot.value))
      ensures forall root: nat, address: nat, length: nat | Some(root) != newRoot ::
                ReadUser(mappings, mm.bytes, mm.Base(), root, address, length)
                == old(ReadUser(mappings, mm.bytes, mm.Base(), root, address, length))
      ensures r.Some? && parentRoot != 0 ==> forall address: nat, length: nat ::
                && ReadUser(mappings, mm.bytes, mm.Base(), r.value, address, length)
                   == ReadUser(mappings, mm.bytes, mm.Base(), parentRoot, address, length)
                && (Translate(mappings, r.value, address, length, true).Some?
                    <==> Translate(mappings, parentRoot, address, length, true).Some?)
    {
      hide First, MappingsBacked, SpacesOk, Of, Translate, ReadUser, Cloning, HeapOk, Sum, Affordable, Budget,
        LeftBehind, Entered, TailUsed, AllPages, MmapResult, Supplied, StockAfter, Serves;
      r := CreateUserAddressSpace(owner, newRoot);
      if r.None? || parentRoot == 0 {
        return;
      }
      var child := r.value;
      var table := mappings;
      ghost var before, base := mm.bytes, mm.Base();
      CloneStarts(table, before, base, mm.records, mm.free, mm.bumpOffset, parentRoot, child);
      ghost var created, ledger, capacity := spaces, mm.records, mm.Capacity();
      ghost var stock, kind := Stock(mm.free, mm.bumpOffset), mm.backing;
      SupplyStarts(table, parentRoot, stock, base, capacity, kind, growth);
      BudgetStarts(table, ledger, parentRoot, child, base, pages, mm.bumpOffset);
      var idx := 0;
      while idx < |table|
        invariant idx <= |table|
        invariant Valid() && mm.Base() == base && mm.Capacity() == capacity && !HasRootIn(table, child)
                  && spaces == created
        invariant Cloning(table, mappings, before, mm.bytes, base, parentRoot, child, idx)
        invariant Budget(table, mappings, ledger, mm.records, parentRoot, base, pages, old(mm.bumpOffset),
                         mm.bumpOffset, idx)
        invariant LeftBehind(ledger, mm.records, mappings, child, base)
        invariant Supplied(table, parentRoot, stock, base, capacity, kind, growth, idx)
                  == Some(Stock(mm.free, mm.bumpOffset)) && SameKind(kind, mm.backing)
      {
        SupplyStep(table, parentRoot, stock, base, capacity, kind, growth, idx);
        CloningBounds(table, mappings, before, mm.bytes, base, parentRoot, child, idx);
        if table[idx].Some? && table[idx].value.root == parentRoot {
          var current: nat := idx;
          ghost var held, owed, bump := mappings, mm.records, mm.bumpOffset;
          var here := (page: nat) => pages(current, page);
          FailureIsDue(table, ledger, child, parentRoot, growth(idx), pages, here, old(mm.bumpOffset), idx);
          SameService(kind, capacity, table[idx].value.length, growth(idx));
          var ok := CloneMapping(owner, child, table[idx].value, growth(idx), here, table, before, parentRoot, idx);
          if !ok {
            SupplyFails(table, parentRoot, stock, base, capacity, kind, growth, idx);
            CloningKeepsViews(table, mappings, before, mm.bytes, base, parentRoot, child, idx);
            return None;
          }
          BudgetPays(table, held, mappings, ledger, owed, mm.records, parentRoot, child, base, pages,
                     old(mm.bumpOffset), bump, mm.bumpOffset, idx);
        } else {
          CloneSkips(table, mappings, before, mm.bytes, base, parentRoot, child, idx);
          BudgetSkips(table, mappings, ledger, mm.records, parentRoot, base, pages, old(mm.bumpOffset), mm.bumpOffset,
                      idx);
        }
        idx := idx + 1;
      }
      CloningBounds(table, mappings, before, mm.bytes, base, parentRoot, child, idx);
      CloningKeepsViews(table, mappings, before, mm.bytes, base, parentRoot, child, idx);
      BudgetKept(table, mappings, ledger, mm.records, parentRoot, base, pages, old(mm.bumpOffset), mm.bumpOffset, idx);
      CloneDone(table, mappings, before, mm.bytes, base, parentRoot, child);
    }

    lemma SameService(kind: Backing, capacity: nat, length: nat, growth: Option<Layout>)
      requires SameKind(kind, mm.backing) && mm.Capacity() == capacity && (kind.Virtual? ==> kind.capacity == capacity)
      ensures Serves(Stock(mm.free, mm.bumpOffset), mm.Base(), capacity, mm.backing, length, growth)
         <==> Serves(Stock(mm.free, mm.bumpOffset), mm.Base(), capacity, kind, length, growth)
    {
      hide Placement, Backs;
      var place := Placement(mm.free, mm.Base(), capacity, mm.bumpOffset, length, PAGE_SIZE);
      if place.Some? {
        KindDecides(kind, mm.backing, capacity, place.value + length, growth);
      }
    }

    /** One turn of the clone loop that meets a mapping of the parent. */
    method CloneMapping(
      owner: ProcessId, child: nat, mapping: UserMapping, growth: Option<Layout>, pages: nat -> bool,
      ghost table: Mappings, ghost before: seq<byte>, ghost parent: nat, ghost idx: nat)
      returns (ok: bool)
      requires Valid() && parent != child
      requires Cloning(table, mappings, before, mm.bytes, mm.Base(), parent, child, idx)
      requires idx < |table| && table[idx] == Some(mapping) && mapping.root == parent
      requires child != 0
      modifies this`mappings, mm
      ensures Valid() && mm.Base() == old(mm.Base()) && mm.Capacity() == old(mm.Capacity())
      ensures ok == old(MmapResult(child, mapping.userStart, mapping.length, growth, pages)).Some?
      ensures !ok ==> mappings == old(mappings) && mm.records == old(mm.records)
      ensures ok ==> Entered(old(mappings), mappings, old(mm.records), mm.records, child, mm.Base())
      ensures ok ==> TailUsed(old(mm.bumpOffset), mm.bumpOffset, mm.Base(), mapping.length)
      ensures ok ==> Stock(mm.free, mm.bumpOffset) == StockAfter(Stock(old(mm.free), old(mm.bumpOffset)), mm.Base(),
                                                                 mm.Capacity(), mapping.length)
      ensures SameKind(old(mm.backing), mm.backing)
      ensures Cloning(table, mappings, before, mm.bytes, mm.Base(), parent, child, if ok then idx + 1 else idx)
    {
      hide First, MappingsBacked, SpacesOk, Cloning, HeapOk, AlignUp, Sum, Entered, TailUsed, MmapResult, Copied,
        FreeOk, StockAfter;
      ghost var v := First(mappings, Vacant);
      CloningBounds(table, mappings, before, mm.bytes, mm.Base(), parent, child, idx);
      MappingIsPaged(mappings, mm.Base(), mm.records, idx);
      MultipleStays(mapping.length);
      var region := MmapUserFixed(
        owner, child, mapping.userStart, mapping.length, mapping.protection, growth, pages);
      if region.None? {
        return false;
      }
      CloneCopies(table, old(mappings), before, mm.bytes, mm.Base(), parent, child, idx, v, mappings[v].value,
                  mm.records, mm.free, mm.bumpOffset);
      mm.CopyNonoverlapping(mapping.kernelStart - mm.Base(), region.value - mm.Base(), mapping.length);
      return true;
    }

    method ActiveTranslatedSlice(root: nat, address: nat, length: nat, write: bool) returns (r: Option<nat>)
      ensures r == if length == 0 then Some(DANGLING) else Translate(mappings, root, address, length, write)
    {
      hide First;
      if length == 0 {
        return Some(DANGLING);
      }
      var idx := 0;
      while idx < |mappings|
        invariant idx <= |mappings|
        invariant forall k :: 0 <= k < idx ==> !Matches(root, address, length, write)(mappings[k])
      {
        if mappings[idx].Some? && Contains(mappings[idx].value, root, address, length, write) {
          FirstIs(mappings, Matches(root, address, length, write), idx);
          return Some(mappings[idx].value.kernelStart + (address - mappings[idx].value.userStart));
        }
        idx := idx + 1;
      }
      FirstIs(mappings, Matches(root, address, length, write), idx);
      r := None;
    }

    method CopyFromUser(root: nat, address: nat, length: nat) returns (r: Option<seq<byte>>)
      requires Valid()
      ensures r == ReadUser(mappings, mm.bytes, mm.Base(), root, address, length)
    {
      hide First, Translate, HeapOk, MappingsBacked, SpacesOk, Sum;
      if length == 0 {
        return Some([]);
      }
      var source := ActiveTranslatedSlice(root, address, length, false);
      if source.None? {
        return None;
      }
      var _ := TranslatedInside(mappings, mm.Base(), mm.records, mm.free, mm.bumpOffset, root, address, length, false);
      r := Some(mm.bytes[source.value - mm.Base()..source.value - mm.Base() + length]);
    }

    /**
     A write through one root is invisible through every other. It reads back through its own
     exactly when reading meets the mapping that was written, or those bytes were there already.
     */
    method CopyToUser(root: nat, address: nat, input: seq<byte>) returns (ok: bool)
      requires Valid()
      modifies mm`bytes
      ensures Valid()
      ensures ok == (input == [] || Translate(mappings, root, address, |input|, true).Some?)
      ensures !ok ==> mm.bytes == old(mm.bytes)
      ensures forall other: nat, a: nat, n: nat | other != root ::
                ReadUser(mappings, mm.bytes, mm.Base(), other, a, n)
                == old(ReadUser(mappings, mm.bytes, mm.Base(), other, a, n))
      ensures ok && input != [] ==>
                var before := old(ReadUser(mappings, mm.bytes, mm.Base(), root, address, |input|));
                var after := ReadUser(mappings, mm.bytes, mm.Base(), root, address, |input|);
                var same := Translate(mappings, root, address, |input|, false)
                            == Translate(mappings, root, address, |input|, true);
                && after == (if same then Some(input) else before)
                && (after == Some(input) <==> same || before == Some(input))
    {
      hide First, Translate, HeapOk, MappingsBacked, SpacesOk, Sum, Overwritten, Slice, ReadUser;
      if input == [] {
        return true;
      }
      var target := ActiveTranslatedSlice(root, address, |input|, true);
      if target.None? {
        return false;
      }
      ghost var i := TranslatedInside(
        mappings, mm.Base(), mm.records, mm.free, mm.bumpOffset, root, address, |input|, true);
      WriteIsPrivate(mappings, mm.Base(), mm.records, mm.free, mm.bumpOffset, mm.bytes, i,
                     target.value - mm.Base(), input);
      WriteReadsBack(mappings, mm.Base(), mm.records, mm.free, mm.bumpOffset, mm.bytes, root, address, input);
      mm.WriteBytes(target.value - mm.Base(), input);
      return true;
    }

    /** Drop one reference; the last one takes the mappings and their blocks with it. */
    method DestroyUserAddressSpace(root: nat)
      requires Valid()
      modifies this, mm`free, mm`records, mm`allocatedBytes
      ensures Valid() && |spaces| == |old(spaces)| && |mappings| == |old(mappings)|
      ensures var k := First(old(spaces), SpaceOf(root));
              var shared := k < |old(spaces)| && old(spaces)[k].value.references > 1;
              if root == 0 || shared then
                && mappings == old(mappings) && mm.records == old(mm.records)
                && spaces == if root == 0 then old(spaces)
                             else old(spaces)[k := Some(old(spaces)[k].value.(
                                    references := old(spaces)[k].value.references - 1))]
              else
                && spaces == (if k < |old(spaces)| then old(spaces)[k := None] else old(spaces))
                && (forall i :: 0 <= i < |mappings| ==>
                      mappings[i] == if HasRoot(old(mappings)[i], root) then None else old(mappings)[i])
                && Unbacked(old(mappings), |old(mappings)|, root, mm.Base(), old(mm.records), mm.records)
      ensures forall other: nat, a: nat, n: nat | other != root ::
                ReadUser(mappings, mm.bytes, mm.Base(), other, a, n)
                == old(ReadUser(mappings, mm.bytes, mm.Base(), other, a, n))
    {
      hide First, MappingsBacked, HeapOk, Sum, ReadUser;
      if root == 0 {
        return;
      }
      var idx := 0;
      while idx < |spaces|
        invariant idx <= |spaces| && spaces == old(spaces)
        invariant forall k :: 0 <= k < idx ==> !SpaceOf(root)(spaces[k])
      {
        if spaces[idx].Some? && spaces[idx].value.root == root {
          FirstIs(spaces, SpaceOf(root), idx);
          var space := spaces[idx].value;
          if space.references > 1 {
            spaces := spaces[idx := Some(space.(references := space.references - 1))];
            RecountedIsOk(old(spaces), idx, space.references - 1);
            return;
          }
          spaces := spaces[idx := None];
          break;
        }
        idx := idx + 1;
      }
      FirstIs(old(spaces), SpaceOf(root), idx);
      assert mm.Valid() && MappingsBacked(mappings, mm.Base(), mm.records);
      DropMappings(root);
      DroppedIsOk(old(spaces), spaces, idx);
      DroppedViews(old(mappings), mappings, mm.bytes, mm.Base(), mm.records, mm.free, mm.bumpOffset, root);
    }

    method DropMappings(root: nat)
      requires mm.Valid() && !mm.backing.Disabled? && MappingsBacked(mappings, mm.Base(), mm.records)
      modifies this`mappings, mm`free, mm`records, mm`allocatedBytes
      ensures mm.Valid() && MappingsBacked(mappings, mm.Base(), mm.records)
      ensures |mappings| == |old(mappings)|
      ensures forall i :: 0 <= i < |mappings| ==>
                mappings[i] == if HasRoot(old(mappings)[i], root) then None else old(mappings)[i]
      ensures Unbacked(old(mappings), |old(mappings)|, root, mm.Base(), old(mm.records), mm.records)
    {
      hide First, MappingsBacked, HeapOk, Sum, Unbacked;
      UnbackedNone(mappings, root, mm.Base(), mm.records);
      var idx := 0;
      while idx < |mappings|
        invariant idx <= |mappings| == |old(mappings)|
        invariant Unbacked(old(mappings), idx, root, mm.Base(), old(mm.records), mm.records)
        invariant mm.Valid() && MappingsBacked(mappings, mm.Base(), mm.records)
        invariant forall i :: 0 <= i < |mappings| ==>
                    mappings[i] == if i < idx && HasRoot(old(mappings)[i], root) then None else old(mappings)[i]
      {
        if mappings[idx].Some? && mappings[idx].value.root == root {
          var mapping := mappings[idx].value;
          ghost var j := BackingRecord(mappings, mm.Base(), mm.records, idx);
          UnmappedIsBacked(mappings, mm.Base(), mm.records, idx, j);
          UnbackedStep(old(mappings), idx, root, mm.Base(), old(mm.records), mm.records, mm.free, mm.bumpOffset, j);
          mappings := mappings[idx := None];
          Unmap(mapping.owner, mapping.kernelStart, j, mapping.length);
        } else {
          UnbackedSkip(old(mappings), idx, root, mm.Base(), old(mm.records), mm.records);
        }
        idx := idx + 1;
      }
    }

    /** One more process uses the address space. */
    method ShareUserAddressSpace(root: nat) returns (r: Option<nat>)
      requires Valid()
      modifies this`spaces
      ensures Valid()
      ensures var k := First(old(spaces), SpaceOf(root));
              if root == 0 || k == |old(spaces)| then r.None? && spaces == old(spaces)
              else
                && r == Some(root)
                && spaces == old(spaces)[k := Some(old(spaces)[k].value.(
                     references := SaturatingAdd64(old(spaces)[k].value.references, 1)))]
    {
      hide First, MappingsBacked, HeapOk, Sum;
      if root == 0 {
        return None;
      }
      var idx := 0;
      while idx < |spaces|
        invariant idx <= |spaces| && spaces == old(spaces)
        invariant forall k :: 0 <= k < idx ==> !SpaceOf(root)(spaces[k])
      {
        if spaces[idx].Some? && spaces[idx].value.root == root {
          FirstIs(spaces, SpaceOf(root), idx);
          var space := spaces[idx].value;
          spaces := spaces[idx := Some(space.(references := SaturatingAdd64(space.references, 1)))];
          RecountedIsOk(old(spaces), idx, SaturatingAdd64(space.references, 1));
          return Some(root);
        }
        idx := idx + 1;
      }
      FirstIs(spaces, SpaceOf(root), idx);
      r := None;
    }

    /**
     Give up every address space of `owner` and all its heap records. Spaces that others use stay;
     the rest go with their mappings and the records behind them. The invariant holds afterwards
     exactly when no mapping of the owner is left.
     */
    method ReleaseProcess(owner: ProcessId)
      requires Valid()
      modifies this, mm`free, mm`records, mm`allocatedBytes
      ensures mm.Valid() && !mm.backing.Disabled? && SpacesOk(spaces)
      ensures |spaces| == |old(spaces)| && forall k :: 0 <= k < |spaces| ==>
                spaces[k] == Departed(old(spaces)[k], owner)
      ensures |mappings| == |old(mappings)| && forall i :: 0 <= i < |mappings| ==>
                mappings[i] == if Torn(old(spaces), |spaces|, owner, old(mappings)[i]) then None else old(mappings)[i]
      ensures |mm.records| == |old(mm.records)| && forall j :: 0 <= j < |mm.records| ==>
                var record := old(mm.records)[j];
                mm.records[j] == if OwnedBy(owner, record)
                                    || TornAway(old(spaces), |spaces|, owner, old(mappings), mm.Base(), record)
                                 then None else record
      ensures Valid() <==> forall i :: 0 <= i < |mappings| && OwnedMapping(old(mappings)[i], owner) ==>
                             Torn(old(spaces), |spaces|, owner, old(mappings)[i])
      ensures forall other: nat, a: nat, n: nat | !TearsRoot(old(spaces), |spaces|, owner, other) ::
                ReadUser(mappings, mm.bytes, mm.Base(), other, a, n)
                == old(ReadUser(mappings, mm.bytes, mm.Base(), other, a, n))
    {
      hide First, MappingsBacked, HeapOk, Sum, ReadUser, Behind, Torn, TornAway, TearsRoot, SpacesOk, Unbacked;
      var roots := spaces;
      TornNone(roots, owner, mappings, mm.Base(), mm.records);
      var idx := 0;
      while idx < |roots|
        invariant idx <= |roots| == |spaces| && roots == old(spaces)
        invariant Valid()
        invariant forall k :: 0 <= k < |roots| ==> spaces[k] == if k < idx then Departed(roots[k], owner) else roots[k]
        invariant TornTables(roots, idx, owner, old(mappings), mappings, mm.Base(), old(mm.records), mm.records)
        invariant forall other: nat, a: nat, n: nat | !TearsRoot(roots, idx, owner, other) ::
                    ReadUser(mappings, mm.bytes, mm.Base(), other, a, n)
                    == old(ReadUser(mappings, mm.bytes, mm.Base(), other, a, n))
      {
        TearsStep(roots, idx, owner);
        ghost var before, ledger := mappings, mm.records;
        if roots[idx].Some? && roots[idx].value.owner == owner {
          RootIdentifies(spaces, idx);
          DestroyUserAddressSpace(roots[idx].value.root);
        }
        TornStep(roots, idx, owner, old(mappings), before, mappings, mm.Base(), old(mm.records), ledger, mm.records);
        idx := idx + 1;
      }
      ghost var ledger := mm.records;
      mm.ReleaseProcess(owner);
      TornEnds(roots, owner, old(mappings), mappings, mm.Base(), old(mm.records), ledger, mm.records);
    }

    method MapPages(length: nat, pages: nat -> bool) returns (ok: bool)
      ensures ok <==> forall k: nat :: k * PAGE_SIZE < length ==> pages(k)
    {
      var offset, page := 0, 0;
      while offset < length
        invariant offset == page * PAGE_SIZE
        invariant forall k: nat :: k < page ==> pages(k)
      {
        if !pages(page) {
          return false;
        }
        offset, page := offset + PAGE_SIZE, page + 1;
      }
      ok := true;
    }

    method EnterMapping(m: UserMapping) returns (ok: bool)
      modifies this`mappings
      ensures var v := First(old(mappings), Vacant);
              && ok == (v < |old(mappings)|)
              && mappings == if ok then old(mappings)[v := Some(m)] else old(mappings)
    {
      hide First;
      var idx := 0;
      while idx < |mappings|
        invariant idx <= |mappings| && mappings == old(mappings)
        invariant forall k :: 0 <= k < idx ==> mappings[k].Some?
      {
        if mappings[idx].None? {
          mappings := mappings[idx := Some(m)];
          return true;
        }
        idx := idx + 1;
      }
      ok := false;
    }
  }

  /** One mapping of `root` has entered the first vacant slot, over a record in the first vacant slot of the heap's. */
  ghost predicate Entered(before: Mappings, after: Mappings, records: Records, left: Records, root: nat, base: nat) {
    var v, slot := First(before, Vacant), First(records, Vacant);
    && v < |before| == |after| && HasRoot(after[v], root) && after == before[v := after[v]]
    && slot < |records| == |left| && RecordFor(left[slot], after[v].value, base) && left == records[slot := left[slot]]
  }

  // ---------------------------------------------------------------------
  // What a clone costs
  // ---------------------------------------------------------------------

  function OpenSlot<T>(slot: Option<T>): nat {
    if slot.None? then 1 else 0
  }

  function MapsIn(root: nat): Option<UserMapping> -> nat {
    (slot: Option<UserMapping>) => if HasRoot(slot, root) then 1 else 0
  }

  function LengthIn(root: nat): Option<UserMapping> -> nat {
    (slot: Option<UserMapping>) => if HasRoot(slot, root) then slot.value.length else 0
  }

  ghost predicate AllPages(length: nat, pages: (nat, nat) -> bool, i: nat) {
    forall k: nat :: k * PAGE_SIZE < length ==> pages(i, k)
  }

  /**
   * There is a vacant mapping slot and a vacant heap record for every mapping of the parent, and every page of them
   * maps.
   */
  ghost predicate Affordable(mappings: Mappings, records: Records, parent: nat, pages: (nat, nat) -> bool) {
    && Sum(mappings, MapsIn(parent)) <= Sum(mappings, OpenSlot)
    && Sum(mappings, MapsIn(parent)) <= Sum(records, OpenSlot)
    && forall i: nat :: i < |mappings| && HasRoot(mappings[i], parent) ==> AllPages(mappings[i].value.length, pages, i)
  }

  lemma PagesHere(length: nat, pages: (nat, nat) -> bool, here: nat -> bool, i: nat)
    requires forall k: nat :: here(k) == pages(i, k)
    ensures AllPages(length, pages, i) <==> forall k: nat :: k * PAGE_SIZE < length ==> here(k)
  {
    if AllPages(length, pages, i) {
      forall k: nat | k * PAGE_SIZE < length
        ensures here(k)
      {
        assert pages(i, k);
      }
    }
    if forall k: nat :: k * PAGE_SIZE < length ==> here(k) {
      forall k: nat | k * PAGE_SIZE < length
        ensures pages(i, k)
      {
        assert here(k);
      }
    }
  }

  lemma OpenMeansVacant<T>(s: seq<Option<T>>)
    ensures Sum(s, OpenSlot) > 0 <==> First(s, Vacant) < |s|
  {
    hide First, Sum;
    var v := First(s, Vacant);
    if v < |s| {
      SumAtLeast(s, OpenSlot, v);
    } else {
      SumZero(s, OpenSlot);
    }
  }

  lemma FillingCloses<T>(s: seq<Option<T>>, v: nat, x: Option<T>)
    requires v < |s| && s[v].None? && x.Some?
    ensures Sum(s[v := x], OpenSlot) + 1 == Sum(s, OpenSlot)
  {
    hide Sum;
    SumUpdate(s, OpenSlot, v, x);
  }

  /** What the heap can still give: the regions of its free list, and where its bump tail begins. */
  datatype Stock = Stock(free: FreeList, bump: nat)

  /** The heap can place and commit `length` bytes of whole pages. */
  ghost predicate Serves(stock: Stock, base: nat, capacity: nat, backing: Backing, length: nat,
                         growth: Option<Layout>) {
    var place := Placement(stock.free, base, capacity, stock.bump, length, PAGE_SIZE);
    place.Some? && Backs(backing, place.value + length, growth)
  }

  ghost function StockAfter(stock: Stock, base: nat, capacity: nat, length: nat): Stock {
    Stock(ListAfter(stock.free, base, length, PAGE_SIZE),
          BumpAfter(stock.free, base, capacity, stock.bump, length, PAGE_SIZE))
  }

  /**
   * What is left once the parent's mappings among the first `idx` slots have been served one by one, if they all are.
   */
  ghost function Supplied(table: Mappings, parent: nat, stock: Stock, base: nat, capacity: nat, backing: Backing,
                          growth: nat -> Option<Layout>, idx: nat): Option<Stock>
    requires idx <= |table|
  {
    if idx == 0 then Some(stock)
    else
      var left := Supplied(table, parent, stock, base, capacity, backing, growth, idx - 1);
      if left.None? || !HasRoot(table[idx - 1], parent) then left
      else
        var length := table[idx - 1].value.length;
        if Serves(left.value, base, capacity, backing, length, growth(idx - 1))
        then Some(StockAfter(left.value, base, capacity, length)) else None
  }

  lemma {:induction false} SupplyStops(table: Mappings, parent: nat, stock: Stock, base: nat, capacity: nat,
                                       backing: Backing, growth: nat -> Option<Layout>, idx: nat, end: nat)
    requires idx <= end <= |table| && Supplied(table, parent, stock, base, capacity, backing, growth, idx).None?
    ensures Supplied(table, parent, stock, base, capacity, backing, growth, end).None?
    decreases end
  {
    hide Serves, StockAfter, HasRoot;
    if idx < end {
      SupplyStops(table, parent, stock, base, capacity, backing, growth, idx, end - 1);
    }
  }

  lemma SupplyStarts(table: Mappings, parent: nat, stock: Stock, base: nat, capacity: nat, backing: Backing,
                     growth: nat -> Option<Layout>)
    ensures Supplied(table, parent, stock, base, capacity, backing, growth, 0) == Some(stock)
  {
  }

  lemma SupplyStep(table: Mappings, parent: nat, stock: Stock, base: nat, capacity: nat, backing: Backing,
                   growth: nat -> Option<Layout>, idx: nat)
    requires idx < |table| && Supplied(table, parent, stock, base, capacity, backing, growth, idx).Some?
    ensures var left := Supplied(table, parent, stock, base, capacity, backing, growth, idx).value;
            Supplied(table, parent, stock, base, capacity, backing, growth, idx + 1)
            == if !HasRoot(table[idx], parent) then Some(left)
               else if Serves(left, base, capacity, backing, table[idx].value.length, growth(idx))
               then Some(StockAfter(left, base, capacity, table[idx].value.length)) else None
  {
    hide Serves, StockAfter;
  }

  lemma SupplyFails(table: Mappings, parent: nat, stock: Stock, base: nat, capacity: nat, backing: Backing,
                    growth: nat -> Option<Layout>, idx: nat)
    requires idx < |table|
    ensures Supplied(table, parent, stock, base, capacity, backing, growth, idx + 1).None? ==>
              Supplied(table, parent, stock, base, capacity, backing, growth, |table|).None?
  {
    hide Supplied;
    if Supplied(table, parent, stock, base, capacity, backing, growth, idx + 1).None? {
      SupplyStops(table, parent, stock, base, capacity, backing, growth, idx + 1, |table|);
    }
  }

  /** Which kind of backing it is decides what can be committed, not how much has been. */
  lemma KindDecides(a: Backing, b: Backing, capacity: nat, end: nat, growth: Option<Layout>)
    requires SameKind(a, b) && (a.Virtual? ==> a.capacity == capacity) && (b.Virtual? ==> b.capacity == capacity)
    ensures Backs(a, end, growth) == Backs(b, end, growth)
  {
  }

  /** Allocating `length` bytes of whole pages takes at most that much of the bump tail. */
  ghost predicate TailUsed(before: nat, after: nat, base: nat, length: nat) {
    AlignedOffset(base, after, PAGE_SIZE) <= AlignedOffset(base, before, PAGE_SIZE) + length
  }

  lemma BumpUsesTail(before: nat, after: nat, base: nat, length: nat)
    requires length % PAGE_SIZE == 0 && (after == before || Bumped(before, after, base, length, PAGE_SIZE))
    ensures TailUsed(before, after, base, length)
  {
    AlignedOffsetIsLeast(base, before, PAGE_SIZE);
    if after != before {
      var place := AlignedOffset(base, before, PAGE_SIZE);
      assert (base + place) % PAGE_SIZE == 0;
      assert (base + after) % PAGE_SIZE == 0;
    }
  }

  /**
   * What the first `idx` slots of the parent's table have used up: slots, records, bump tail; and their pages all
   * mapped.
   */
  ghost predicate Budget(table: Mappings, mappings: Mappings, ledger: Records, records: Records, parent: nat, base: nat,
                         pages: (nat, nat) -> bool, start: nat, bump: nat, idx: nat)
  {
    && idx <= |table|
    && Sum(mappings, OpenSlot) + Sum(table[..idx], MapsIn(parent)) == Sum(table, OpenSlot)
    && Sum(records, OpenSlot) + Sum(table[..idx], MapsIn(parent)) == Sum(ledger, OpenSlot)
    && AlignedOffset(base, bump, PAGE_SIZE) <= AlignedOffset(base, start, PAGE_SIZE) + Sum(table[..idx],
        LengthIn(parent))
    && forall i: nat :: i < idx && HasRoot(table[i], parent) ==> AllPages(table[i].value.length, pages, i)
  }

  lemma BudgetSkips(table: Mappings, mappings: Mappings, ledger: Records, records: Records, parent: nat, base: nat,
                    pages: (nat, nat) -> bool, start: nat, bump: nat, idx: nat)
    requires Budget(table, mappings, ledger, records, parent, base, pages, start, bump, idx)
    requires idx < |table| && !HasRoot(table[idx], parent)
    ensures Budget(table, mappings, ledger, records, parent, base, pages, start, bump, idx + 1)
  {
    hide Sum, AllPages;
    SumPrefix(table, MapsIn(parent), idx);
    SumPrefix(table, LengthIn(parent), idx);
  }

  /** The records that a clone has added lie behind the child's mappings. */
  ghost predicate LeftBehind(before: Records, after: Records, mappings: Mappings, child: nat, base: nat) {
    && |after| == |before|
    && forall j :: 0 <= j < |after| ==>
         || after[j] == before[j]
         || (before[j].None? && after[j].Some? && Behind(mappings, |mappings|, child, base, after[j].value))
  }

  lemma BudgetStarts(table: Mappings, ledger: Records, parent: nat, child: nat, base: nat, pages: (nat, nat) -> bool,
                     bump: nat)
    ensures Budget(table, table, ledger, ledger, parent, base, pages, bump, bump, 0)
    ensures LeftBehind(ledger, ledger, table, child, base)
  {
    assert table[..0] == [];
  }

  lemma BudgetPays(table: Mappings, held: Mappings, mappings: Mappings, ledger: Records, owed: Records,
                   records: Records,
                   parent: nat, child: nat, base: nat, pages: (nat, nat) -> bool, start: nat, before: nat, bump: nat,
                     idx: nat)
    requires Budget(table, held, ledger, owed, parent, base, pages, start, before, idx)
    requires LeftBehind(ledger, owed, held, child, base)
    requires idx < |table| && HasRoot(table[idx], parent) && AllPages(table[idx].value.length, pages, idx)
    requires Entered(held, mappings, owed, records, child, base)
             && TailUsed(before, bump, base, table[idx].value.length)
    ensures Budget(table, mappings, ledger, records, parent, base, pages, start, bump, idx + 1)
    ensures LeftBehind(ledger, records, mappings, child, base)
  {
    hide Sum, AllPages, First, RecordFor;
    SumPrefix(table, MapsIn(parent), idx);
    SumPrefix(table, LengthIn(parent), idx);
    var v, slot := First(held, Vacant), First(owed, Vacant);
    FillingCloses(held, v, mappings[v]);
    EntryLeaves(held, mappings, ledger, owed, records, child, base);
    RecordIsThere(records[slot], mappings[v].value, base);
    FillingCloses(owed, slot, records[slot]);
  }

  lemma RecordIsThere(slot: Option<AllocationRecord>, m: UserMapping, base: nat)
    requires RecordFor(slot, m, base)
    ensures slot.Some? && slot.value.offset + base == m.kernelStart
  {
  }

  lemma EntryLeaves(held: Mappings, mappings: Mappings, ledger: Records, owed: Records, records: Records, child: nat,
                    base: nat)
    requires LeftBehind(ledger, owed, held, child, base) && Entered(held, mappings, owed, records, child, base)
    ensures LeftBehind(ledger, records, mappings, child, base)
  {
    hide First;
    var v, slot := First(held, Vacant), First(owed, Vacant);
    forall j | 0 <= j < |records| && records[j] != ledger[j]
      ensures ledger[j].None? && records[j].Some? && Behind(mappings, |mappings|, child, base, records[j].value)
    {
      if j == slot {
        assert HasRoot(mappings[v], child) && records[j].value.offset + base == mappings[v].value.kernelStart;
      } else {
        assert records[j] == owed[j];
        var i :| 0 <= i < |held| && HasRoot(held[i], child) && owed[j].value.offset + base == held[i].value.kernelStart;
        assert mappings[i] == held[i];
      }
    }
  }

  /** A finished clone was affordable. */
  lemma BudgetKept(table: Mappings, mappings: Mappings, ledger: Records, records: Records, parent: nat, base: nat,
                   pages: (nat, nat) -> bool, start: nat, bump: nat, idx: nat)
    requires Budget(table, mappings, ledger, records, parent, base, pages, start, bump, idx) && idx == |table|
    ensures Affordable(table, ledger, parent, pages)
  {
    hide Sum, AllPages;
    assert table[..idx] == table;
  }

  /**
   What a failed clone leaves: the child's space, copies of the parent's mappings up to some
   slot of the table, and the heap records behind them; nothing that was there has changed.
   */
  ghost predicate Abandoned(table: Mappings, mappings: Mappings, ledger: Records, records: Records, before: seq<byte>,
                            bytes: seq<byte>, base: nat, parent: nat, child: nat)
  {
    && LeftBehind(ledger, records, mappings, child, base)
    && exists idx: nat :: idx < |table| && HasRoot(table[idx], parent)
                          && Cloning(table, mappings, before, bytes, base, parent, child, idx)
  }

  lemma AlignUpSmall(address: nat, length: nat)
    requires address % PAGE_SIZE == 0 && 0 < length && address + length <= USER_LIMIT
    ensures AlignUp(length, PAGE_SIZE).Some?
    ensures var actual := AlignUp(length, PAGE_SIZE).value;
            actual % PAGE_SIZE == 0 && length <= actual && address + actual <= USER_LIMIT
  {
  }

  // ---------------------------------------------------------------------
  // Views
  // ---------------------------------------------------------------------

  lemma SameSlice(before: seq<byte>, after: seq<byte>, r: Region, from: nat, length: nat)
    requires SameBytes(before, after, r) && r.offset <= from && from + length <= r.End()
    ensures Slice(before, from, length) == Slice(after, from, length)
  {
    var x, y := before[from..from + length], after[from..from + length];
    forall i | 0 <= i < length
      ensures x[i] == y[i]
    {
      assert r.Has(from + i);
    }
  }

  /** A root's view depends on its own mappings and on the bytes behind them only. */
  lemma ViewKept(
    mappings: Mappings, after: Mappings, bytes: seq<byte>, afterBytes: seq<byte>, base: nat,
    root: nat, address: nat, length: nat)
    requires Of(mappings, root) == Of(after, root)
    requires forall m :: m in Of(mappings, root) ==>
               m.kernelStart >= base && SameBytes(bytes, afterBytes, Block(m, base))
    ensures ReadUser(mappings, bytes, base, root, address, length)
         == ReadUser(after, afterBytes, base, root, address, length)
    ensures Translate(mappings, root, address, length, true) == Translate(after, root, address, length, true)
  {
    hide First, Of, Slice, Translate;
    var list := Of(mappings, root);
    TranslateOf(mappings, root, address, length, false);
    TranslateOf(after, root, address, length, false);
    TranslateOf(mappings, root, address, length, true);
    TranslateOf(after, root, address, length, true);
    var k := First(list, Containing(root, address, length, false));
    if length > 0 && k < |list| {
      var m := list[k];
      assert m in list;
      SameSlice(bytes, afterBytes, Block(m, base), m.kernelStart - base + (address - m.userStart), length);
    }
  }

  lemma {:induction false} OfIsInTable(mappings: Mappings, root: nat, m: UserMapping)
    ensures m in Of(mappings, root) <==> exists i :: 0 <= i < |mappings| && mappings[i] == Some(m) && m.root == root
    decreases |mappings|
  {
    if mappings != [] {
      var front, last := mappings[..|mappings| - 1], mappings[|mappings| - 1];
      OfIsInTable(front, root, m);
      assert Of(mappings, root) == if HasRoot(last, root) then Of(front, root) + [last.value] else Of(front, root);
      if exists i :: 0 <= i < |front| && front[i] == Some(m) && m.root == root {
        var i :| 0 <= i < |front| && front[i] == Some(m) && m.root == root;
        assert mappings[i] == Some(m);
      }
      if exists i :: 0 <= i < |mappings| && mappings[i] == Some(m) && m.root == root {
        var i :| 0 <= i < |mappings| && mappings[i] == Some(m) && m.root == root;
        assert i < |front| ==> front[i] == Some(m);
      }
    }
  }

  // ---------------------------------------------------------------------
  // Cloning
  // ---------------------------------------------------------------------

  /**
   After `idx` slots of the parent's table: nothing that was there has changed, the child's
   mappings fill the first vacancies in order, and they mirror the parent's so far.
   */
  ghost predicate Cloning(
    table: Mappings, mappings: Mappings, before: seq<byte>, bytes: seq<byte>, base: nat,
    parent: nat, child: nat, idx: nat)
  {
    && idx <= |table| && |before| == |bytes| && ChildAdded(table, mappings, child)
       && BlocksKept(table, before, bytes, base)
    && Mirrors(Of(mappings, child), Of(table[..idx], parent), bytes, base)
  }

  /** Only mappings of the child have been added, and they come before every vacancy. */
  ghost predicate ChildAdded(table: Mappings, mappings: Mappings, child: nat) {
    && |table| == |mappings|
    && (forall i :: 0 <= i < |table| ==> !HasRoot(table[i], child))
    && (forall i :: 0 <= i < |table| ==> mappings[i] == table[i] || (table[i].None? && HasRoot(mappings[i], child)))
    && (forall i :: 0 <= i < |table| && HasRoot(mappings[i], child) ==> i < First(mappings, Vacant))
  }

  /** The bytes behind every mapping are what they were. */
  ghost predicate BlocksKept(table: Mappings, before: seq<byte>, bytes: seq<byte>, base: nat) {
    forall i :: 0 <= i < |table| && table[i].Some? ==>
      table[i].value.kernelStart >= base && SameBytes(before, bytes, Block(table[i].value, base))
  }

  lemma ChildAddedAgain(table: Mappings, mappings: Mappings, child: nat, v: nat, m: UserMapping)
    requires ChildAdded(table, mappings, child) && v == First(mappings, Vacant) < |mappings| && m.root == child
    ensures ChildAdded(table, mappings[v := Some(m)], child)
  {
    FirstVacancyMoves(mappings, v, m);
    hide First;
  }

  lemma BlocksKeptOn(table: Mappings, mappings: Mappings, child: nat, before: seq<byte>, bytes: seq<byte>,
                     after: seq<byte>,
                     base: nat)
    requires ChildAdded(table, mappings, child) && BlocksKept(table, before, bytes, base)
             && BlocksKept(mappings, bytes, after, base)
    ensures BlocksKept(table, before, after, base)
  {
    hide First, SameBytes;
    forall i | 0 <= i < |table| && table[i].Some?
      ensures SameBytes(before, after, Block(table[i].value, base))
    {
      assert mappings[i] == table[i];
      SameBytesTrans(before, bytes, after, Block(table[i].value, base));
    }
  }

  lemma CloneSkips(
    table: Mappings, mappings: Mappings, before: seq<byte>, bytes: seq<byte>, base: nat,
    parent: nat, child: nat, idx: nat)
    requires Cloning(table, mappings, before, bytes, base, parent, child, idx)
    requires idx < |table| && !HasRoot(table[idx], parent)
    ensures Cloning(table, mappings, before, bytes, base, parent, child, idx + 1)
  {
    hide First;
    assert table[..idx + 1][..idx] == table[..idx];
  }

  /** The copied bytes are the parent's, and no other block has changed. */
  lemma CopyKeepsOthers(bytes: seq<byte>, source: nat, target: nat, length: nat, r: Region)
    requires source + length <= |bytes| && target + length <= |bytes| && r.End() <= |bytes|
    requires Apart(r, Region(target, length))
    ensures |Copied(bytes, source, target, length)| == |bytes|
    ensures SameBytes(bytes, Copied(bytes, source, target, length), r)
    ensures Copied(bytes, source, target, length)[target..target + length] == bytes[source..source + length]
  {
  }

  lemma SameBytesTrans(a: seq<byte>, b: seq<byte>, c: seq<byte>, r: Region)
    requires SameBytes(a, b, r) && SameBytes(b, c, r)
    ensures SameBytes(a, c, r)
  {
  }

  /** Copying into the block of slot `v` leaves the block of every other slot alone. */
  lemma OtherBlockKept(
    mappings: Mappings, base: nat, records: Records, free: FreeList, bump: nat,
    bytes: seq<byte>, source: nat, v: nat, i: nat)
    requires HeapOk(records, free, bump) && MappingsBacked(mappings, base, records) && bump <= |bytes|
    requires v < |mappings| && i < |mappings| && v != i && mappings[v].Some? && mappings[i].Some?
    requires source + mappings[v].value.length <= |bytes|
    ensures mappings[i].value.kernelStart >= base && mappings[v].value.kernelStart >= base
    ensures Block(mappings[v].value, base).End() <= |bytes|
    ensures SameBytes(bytes, Copied(bytes, source, mappings[v].value.kernelStart - base, mappings[v].value.length),
                      Block(mappings[i].value, base))
  {
    hide HeapOk, MappingsBacked;
    BlocksApart(mappings, base, records, free, bump, i, v);
    BlocksApart(mappings, base, records, free, bump, v, i);
    CopyKeepsOthers(bytes, source, mappings[v].value.kernelStart - base, mappings[v].value.length,
                    Block(mappings[i].value, base));
  }

  lemma SliceKept(before: seq<byte>, after: seq<byte>, r: Region)
    requires SameBytes(before, after, r)
    ensures Alike(Slice(before, r.offset, r.size), Slice(after, r.offset, r.size))
  {
    hide SameBytes, Slice;
    SameSlice(before, after, r, r.offset, r.size);
  }

  lemma AlikeThrough(a: seq<byte>, b: seq<byte>, c: seq<byte>, d: seq<byte>)
    requires Alike(a, b) && Alike(a, c) && Alike(b, d)
    ensures Alike(c, d)
  {
  }

  lemma CopiesKept(c: UserMapping, p: UserMapping, bytes: seq<byte>, after: seq<byte>, base: nat)
    requires Copies(c, p, bytes, base) && |bytes| == |after|
    requires SameBytes(bytes, after, Block(c, base)) && SameBytes(bytes, after, Block(p, base))
    ensures Copies(c, p, after, base)
  {
    hide Slice, SameBytes, Alike;
    var from, to := Block(p, base), Block(c, base);
    SliceKept(bytes, after, from);
    SliceKept(bytes, after, to);
    AlikeThrough(Slice(bytes, to.offset, to.size), Slice(bytes, from.offset, from.size),
                 Slice(after, to.offset, to.size), Slice(after, from.offset, from.size));
  }

  lemma FirstVacancyMoves(mappings: Mappings, v: nat, m: UserMapping)
    requires v == First(mappings, Vacant) < |mappings|
    ensures First(mappings[v := Some(m)], Vacant) > v
  {
    hide First;
    var after := mappings[v := Some(m)];
    assert forall k :: 0 <= k <= v ==> after[k].Some?;
  }

  lemma OfExtends(table: Mappings, idx: nat, root: nat)
    requires idx < |table| && HasRoot(table[idx], root)
    ensures Of(table[..idx + 1], root) == Of(table[..idx], root) + [table[idx].value]
  {
    assert table[..idx + 1][..idx] == table[..idx];
  }

  lemma {:induction false} OfPrefix(table: Mappings, idx: nat, root: nat, m: UserMapping)
    requires idx <= |table| && m in Of(table[..idx], root)
    ensures exists i :: 0 <= i < |table| && table[i] == Some(m)
  {
    OfIsInTable(table[..idx], root, m);
    var i :| 0 <= i < idx && table[..idx][i] == Some(m);
    assert table[i] == Some(m);
  }

  lemma CopiedLength(bytes: seq<byte>, source: nat, target: nat, length: nat)
    requires source + length <= |bytes| && target + length <= |bytes|
    ensures |Copied(bytes, source, target, length)| == |bytes|
  {
  }

  /** Copying into the block of the new slot `v` keeps the bytes behind every older mapping. */
  lemma CopyKeepsBlocks(
    mappings: Mappings, after: Mappings, base: nat, records: Records, free: FreeList, bump: nat, bytes: seq<byte>,
      source: nat,
    v: nat)
    requires HeapOk(records, free, bump) && MappingsBacked(after, base, records) && bump <= |bytes|
    requires v < |mappings| == |after| && mappings[v].None? && after[v].Some? && after == mappings[v := after[v]]
    requires source + after[v].value.length <= |bytes|
    requires after[v].value.kernelStart >= base && Block(after[v].value, base).End() <= |bytes|
    ensures BlocksKept(mappings, bytes, Copied(bytes, source, after[v].value.kernelStart - base, after[v].value.length),
                       base)
  {
    hide HeapOk, MappingsBacked, Copied, SameBytes;
    forall i: nat | i < |mappings| && mappings[i].Some?
      ensures mappings[i].value.kernelStart >= base
      ensures SameBytes(bytes, Copied(bytes, source, after[v].value.kernelStart - base, after[v].value.length),
                        Block(mappings[i].value, base))
    {
      assert after[i] == mappings[i];
      OtherBlockKept(after, base, records, free, bump, bytes, source, v, i);
    }
  }

  lemma CloneCopies(
    table: Mappings, mappings: Mappings, before: seq<byte>, bytes: seq<byte>, base: nat,
    parent: nat, child: nat, idx: nat, v: nat, m: UserMapping, records: Records, free: FreeList, bump: nat)
    requires Cloning(table, mappings, before, bytes, base, parent, child, idx)
    requires idx < |table| && HasRoot(table[idx], parent) && parent != child
    requires v == First(mappings, Vacant) < |mappings|
    requires var p := table[idx].value;
             m.root == child && m.userStart == p.userStart && m.length == p.length && m.protection == p.protection
    requires HeapOk(records, free, bump) && bump <= |bytes|
    requires MappingsBacked(mappings[v := Some(m)], base, records)
    ensures table[idx].value.kernelStart >= base && m.kernelStart >= base
    ensures Block(table[idx].value, base).End() <= |bytes| && Block(m, base).End() <= |bytes|
    ensures Apart(Block(table[idx].value, base), Block(m, base))
    ensures Cloning(table, mappings[v := Some(m)], before,
                    Copied(bytes, table[idx].value.kernelStart - base, m.kernelStart - base, m.length),
                    base, parent, child, idx + 1)
  {
    hide First, HeapOk, MappingsBacked, Of, Copied, Mirrors, SameBytes, BlocksKept;
    var after := mappings[v := Some(m)];
    var p := table[idx].value;
    assert after[idx] == mappings[idx] == table[idx];
    ChildAddedAgain(table, mappings, child, v, m);
    hide ChildAdded;
    BlocksApart(after, base, records, free, bump, idx, v);
    BlocksApart(after, base, records, free, bump, v, idx);
    var afterBytes := Copied(bytes, p.kernelStart - base, m.kernelStart - base, m.length);
    CopiedLength(bytes, p.kernelStart - base, m.kernelStart - base, m.length);
    CopyKeepsBlocks(mappings, after, base, records, free, bump, bytes, p.kernelStart - base, v);
    hide Apart;
    BlocksKeptOn(table, mappings, child, before, bytes, afterBytes, base);
    CloneMirrors(table, mappings, bytes, afterBytes, base, parent, child, idx, v, m);
  }

  lemma CloneMirrors(
    table: Mappings, mappings: Mappings, bytes: seq<byte>, afterBytes: seq<byte>, base: nat,
    parent: nat, child: nat, idx: nat, v: nat, m: UserMapping)
    requires idx < |table| == |mappings| && HasRoot(table[idx], parent) && parent != child
    requires v == First(mappings, Vacant) < |mappings|
    requires ChildAdded(table, mappings, child)
    requires Mirrors(Of(mappings, child), Of(table[..idx], parent), bytes, base)
    requires var p := table[idx].value;
             && m.root == child && m.userStart == p.userStart && m.length == p.length && m.protection == p.protection
             && p.kernelStart >= base && m.kernelStart >= base
             && Block(p, base).End() <= |bytes| && Block(m, base).End() <= |bytes|
             && Apart(Block(p, base), Block(m, base))
             && afterBytes == Copied(bytes, p.kernelStart - base, m.kernelStart - base, m.length)
    requires BlocksKept(mappings, bytes, afterBytes, base)
    ensures Mirrors(Of(mappings[v := Some(m)], child), Of(table[..idx + 1], parent), afterBytes, base)
  {
    hide First, Of, Copied, Slice;
    var p := table[idx].value;
    var cs, ps := Of(mappings, child), Of(table[..idx], parent);
    assert Of(mappings[v := Some(m)], child) == cs + [m] by {
      OfAppends(mappings, child, v, m);
    }
    OfExtends(table, idx, parent);
    forall k | 0 <= k < |cs|
      ensures Copies(cs[k], ps[k], afterBytes, base)
    {
      assert cs[k] in cs && ps[k] in ps;
      OfIsInTable(mappings, child, cs[k]);
      OfPrefix(table, idx, parent, ps[k]);
      var i :| 0 <= i < |table| && table[i] == Some(ps[k]);
      assert mappings[i] == table[i];
      assert Copies(cs[k], ps[k], bytes, base);
      CopiesKept(cs[k], ps[k], bytes, afterBytes, base);
    }
    assert Copies(m, p, afterBytes, base) by {
      CopyKeepsOthers(bytes, p.kernelStart - base, m.kernelStart - base, m.length, Block(p, base));
      FreshCopy(bytes, afterBytes, base, p, m);
    }
  }

  lemma FreshCopy(bytes: seq<byte>, afterBytes: seq<byte>, base: nat, p: UserMapping, m: UserMapping)
    requires p.kernelStart >= base && m.kernelStart >= base && m.length == p.length
    requires m.userStart == p.userStart && m.protection == p.protection
    requires |afterBytes| == |bytes| && Block(m, base).End() <= |bytes| && Block(p, base).End() <= |bytes|
    requires SameBytes(bytes, afterBytes, Block(p, base))
    requires afterBytes[m.kernelStart - base..m.kernelStart - base + m.length]
          == bytes[p.kernelStart - base..p.kernelStart - base + p.length]
    ensures Copies(m, p, afterBytes, base)
  {
    SameSlice(bytes, afterBytes, Block(p, base), p.kernelStart - base, p.length);
  }

  lemma OfAppends(mappings: Mappings, root: nat, v: nat, m: UserMapping)
    requires v == First(mappings, Vacant) < |mappings| && m.root == root
    requires forall i :: 0 <= i < |mappings| && HasRoot(mappings[i], root) ==> i < First(mappings, Vacant)
    ensures Of(mappings[v := Some(m)], root) == Of(mappings, root) + [m]
  {
    hide First;
    CollectAppends(mappings, InRoot(root), Unwrap, v, Some(m));
  }

  /** What the page-table oracle promises of a new root. */
  ghost predicate FreshRoot(spaces: Spaces, mappings: Mappings, root: nat) {
    && root != 0
    && (forall i :: 0 <= i < |spaces| && spaces[i].Some? ==> spaces[i].value.root != root)
    && (forall i :: 0 <= i < |mappings| ==> !HasRoot(mappings[i], root))
  }

  lemma CreatedIsOk(spaces: Spaces, v: nat, space: AddressSpace)
    requires SpacesOk(spaces) && v < |spaces| && spaces[v].None? && space.root != 0 && space.references >= 1
    requires forall i :: 0 <= i < |spaces| && spaces[i].Some? ==> spaces[i].value.root != space.root
    ensures SpacesOk(spaces[v := Some(space)])
  {
  }

  ghost predicate HasRootIn(mappings: Mappings, root: nat) {
    exists i :: 0 <= i < |mappings| && HasRoot(mappings[i], root)
  }

  lemma MappingIsPaged(mappings: Mappings, base: nat, records: Records, i: nat)
    requires MappingsBacked(mappings, base, records) && i < |mappings| && mappings[i].Some?
    ensures var m := mappings[i].value;
            && m.userStart % PAGE_SIZE == 0 && m.length % PAGE_SIZE == 0 && m.length > 0
            && m.userStart + m.length <= USER_LIMIT && m.kernelStart >= base
  {
    assert Backed(mappings[i].value, base, records);
  }

  lemma CloningBounds(
    table: Mappings, mappings: Mappings, before: seq<byte>, bytes: seq<byte>, base: nat,
    parent: nat, child: nat, idx: nat)
    requires Cloning(table, mappings, before, bytes, base, parent, child, idx)
    ensures idx <= |table| == |mappings| && |before| == |bytes|
    ensures forall i :: 0 <= i < |table| && table[i].Some? ==> mappings[i] == table[i]
    ensures idx < |table| && HasRoot(table[idx], parent) ==> parent != child
  {
    hide First, Of;
  }

  lemma CloneStarts(
    table: Mappings, bytes: seq<byte>, base: nat, records: Records, free: FreeList, bump: nat, parent: nat, child: nat)
    requires HeapOk(records, free, bump) && bump <= |bytes| && MappingsBacked(table, base, records)
    requires forall i :: 0 <= i < |table| ==> !HasRoot(table[i], child)
    ensures Cloning(table, table, bytes, bytes, base, parent, child, 0)
  {
    hide First, HeapOk;
    NoneOf(table, child);
    forall i | 0 <= i < |table| && table[i].Some?
      ensures table[i].value.kernelStart >= base && SameBytes(bytes, bytes, Block(table[i].value, base))
    {
      assert Backed(table[i].value, base, records);
      var j :| 0 <= j < |records| && RecordFor(records[j], table[i].value, base);
      RecordInside(records, free, bump, j);
    }
  }

  lemma NoneOf(mappings: Mappings, root: nat)
    requires forall i :: 0 <= i < |mappings| ==> !HasRoot(mappings[i], root)
    ensures Of(mappings, root) == []
  {
    CollectSkips(mappings, InRoot(root), Unwrap, 0, |mappings|);
    assert mappings[..|mappings|] == mappings;
  }

  /** While cloning, no root but the child's reads anything new. */
  lemma CloningKeepsViews(
    table: Mappings, mappings: Mappings, before: seq<byte>, bytes: seq<byte>, base: nat,
    parent: nat, child: nat, idx: nat)
    requires Cloning(table, mappings, before, bytes, base, parent, child, idx)
    ensures forall root: nat, address: nat, length: nat | root != child ::
              ReadUser(mappings, bytes, base, root, address, length)
                == ReadUser(table, before, base, root, address, length)
  {
    hide First, Of, ReadUser;
    forall root: nat, address: nat, length: nat | root != child
      ensures ReadUser(mappings, bytes, base, root, address, length)
                == ReadUser(table, before, base, root, address, length)
    {
      OtherRootsKept(table, mappings, root, child);
      forall m | m in Of(table, root)
        ensures m.kernelStart >= base && SameBytes(before, bytes, Block(m, base))
      {
        OfIsInTable(table, root, m);
      }
      ViewKept(table, mappings, before, bytes, base, root, address, length);
    }
  }

  lemma OtherRootsKept(table: Mappings, mappings: Mappings, root: nat, child: nat)
    requires |table| == |mappings| && root != child
    requires forall i :: 0 <= i < |table| ==> mappings[i] == table[i] || (table[i].None? && HasRoot(mappings[i], child))
    ensures Of(mappings, root) == Of(table, root)
  {
    CollectSame(table, mappings, InRoot(root), Unwrap);
  }

  lemma CloneDone(
    table: Mappings, mappings: Mappings, before: seq<byte>, bytes: seq<byte>, base: nat, parent: nat, child: nat)
    requires Cloning(table, mappings, before, bytes, base, parent, child, |table|)
    ensures forall address: nat, length: nat ::
              && ReadUser(mappings, bytes, base, child, address, length)
                 == ReadUser(mappings, bytes, base, parent, address, length)
              && (Translate(mappings, child, address, length, true).Some?
                  <==> Translate(mappings, parent, address, length, true).Some?)
  {
    hide First, Of, ReadUser, Translate;
    assert table[..|table|] == table;
    if parent != child {
      OtherRootsKept(table, mappings, parent, child);
      forall address: nat, length: nat
        ensures ReadUser(mappings, bytes, base, child, address, length)
             == ReadUser(mappings, bytes, base, parent, address, length)
        ensures Translate(mappings, child, address, length, true).Some?
           <==> Translate(mappings, parent, address, length, true).Some?
      {
        MirrorReadsSame(mappings, bytes, base, child, parent, address, length);
      }
    }
  }

  // ---------------------------------------------------------------------
  // Isolation
  // ---------------------------------------------------------------------

  /** A translated range lies in the block of the mapping that answered. */
  lemma TranslatedInside(
    mappings: Mappings, base: nat, records: Records, free: FreeList, bump: nat,
    root: nat, address: nat, length: nat, write: bool) returns (i: nat)
    requires HeapOk(records, free, bump) && MappingsBacked(mappings, base, records)
    requires Translate(mappings, root, address, length, write).Some?
    ensures i < |mappings| && HasRoot(mappings[i], root) && mappings[i].value.kernelStart >= base
    ensures var at := Translate(mappings, root, address, length, write).value;
            var block := Block(mappings[i].value, base);
            && at == mappings[i].value.kernelStart + (address - mappings[i].value.userStart)
            && base + block.offset <= at && at + length <= base + block.End() && block.End() <= bump
  {
    hide First, HeapOk;
    i := First(mappings, Matches(root, address, length, write));
    assert Backed(mappings[i].value, base, records);
    var j :| 0 <= j < |records| && RecordFor(records[j], mappings[i].value, base);
    RecordInside(records, free, bump, j);
  }

  lemma OverwriteKeepsOthers(bytes: seq<byte>, target: nat, input: seq<byte>, block: Region, r: Region)
    requires target + |input| <= |bytes| && r.End() <= |bytes|
    requires block.offset <= target && target + |input| <= block.End() && Apart(r, block)
    ensures |Overwritten(bytes, target, input)| == |bytes|
    ensures SameBytes(bytes, Overwritten(bytes, target, input), r)
  {
  }

  lemma OverwriteReadsBack(bytes: seq<byte>, target: nat, input: seq<byte>)
    requires target + |input| <= |bytes|
    ensures Slice(Overwritten(bytes, target, input), target, |input|) == input
  {
  }

  lemma WriteIsPrivate(
    mappings: Mappings, base: nat, records: Records, free: FreeList, bump: nat, bytes: seq<byte>,
    i: nat, target: nat, input: seq<byte>)
    requires HeapOk(records, free, bump) && MappingsBacked(mappings, base, records) && bump <= |bytes|
    requires i < |mappings| && mappings[i].Some? && mappings[i].value.kernelStart >= base
    requires var block := Block(mappings[i].value, base);
             block.offset <= target && target + |input| <= block.End() <= bump
    ensures forall other: nat, a: nat, n: nat | other != mappings[i].value.root ::
              ReadUser(mappings, Overwritten(bytes, target, input), base, other, a, n)
              == ReadUser(mappings, bytes, base, other, a, n)
    ensures Slice(Overwritten(bytes, target, input), target, |input|) == input
  {
    hide First, HeapOk, MappingsBacked, Of, ReadUser, Overwritten, Slice;
    var after := Overwritten(bytes, target, input);
    OverwriteReadsBack(bytes, target, input);
    forall other: nat, a: nat, n: nat | other != mappings[i].value.root
      ensures ReadUser(mappings, after, base, other, a, n) == ReadUser(mappings, bytes, base, other, a, n)
    {
      forall m | m in Of(mappings, other)
        ensures m.kernelStart >= base && SameBytes(bytes, after, Block(m, base))
      {
        OfIsInTable(mappings, other, m);
        var k :| 0 <= k < |mappings| && mappings[k] == Some(m) && m.root == other;
        BlocksApart(mappings, base, records, free, bump, k, i);
        OverwriteKeepsOthers(bytes, target, input, Block(mappings[i].value, base), Block(m, base));
      }
      ViewKept(mappings, mappings, bytes, after, base, other, a, n);
    }
  }

  /** The mappings that answer a read and a write of the same range are the same, or share no byte. */
  lemma WriteReadsBack(
    mappings: Mappings, base: nat, records: Records, free: FreeList, bump: nat, bytes: seq<byte>,
    root: nat, address: nat, input: seq<byte>)
    requires HeapOk(records, free, bump) && MappingsBacked(mappings, base, records) && bump <= |bytes|
    requires input != [] && Translate(mappings, root, address, |input|, true).Some?
    ensures var target := Translate(mappings, root, address, |input|, true).value;
            && base <= target && target - base + |input| <= |bytes|
            && ReadUser(mappings, Overwritten(bytes, target - base, input), base, root, address, |input|)
               == if Translate(mappings, root, address, |input|, false) == Some(target) then Some(input)
                  else ReadUser(mappings, bytes, base, root, address, |input|)
  {
    hide HeapOk, MappingsBacked, Overwritten, Slice;
    var n := |input|;
    var target := Translate(mappings, root, address, n, true).value;
    var i := TranslatedInside(mappings, base, records, free, bump, root, address, n, true);
    OverwriteReadsBack(bytes, target - base, input);
    ReadableWhereWritable(mappings, root, address, n);
    hide Translate;
    var j := TranslatedInside(mappings, base, records, free, bump, root, address, n, false);
    var source := Translate(mappings, root, address, n, false).value;
    if source != target {
      assert i != j;
      BlocksApart(mappings, base, records, free, bump, j, i);
      var block := Block(mappings[j].value, base);
      OverwriteKeepsOthers(bytes, target - base, input, Block(mappings[i].value, base), block);
      SameSlice(bytes, Overwritten(bytes, target - base, input), block, source - base, n);
    }
  }

  /** Whatever may be written may be read, though perhaps elsewhere. */
  lemma ReadableWhereWritable(mappings: Mappings, root: nat, address: nat, length: nat)
    requires Translate(mappings, root, address, length, true).Some?
    ensures Translate(mappings, root, address, length, false).Some?
  {
    hide First;
    var i := First(mappings, Matches(root, address, length, true));
    assert Matches(root, address, length, false)(mappings[i]);
  }

  // ---------------------------------------------------------------------
  // Teardown
  // ---------------------------------------------------------------------

  predicate OwnedSpace(slot: Option<AddressSpace>, owner: ProcessId) {
    slot.Some? && slot.value.owner == owner
  }

  lemma BackingRecord(mappings: Mappings, base: nat, records: Records, i: nat) returns (j: nat)
    requires MappingsBacked(mappings, base, records) && i < |mappings| && mappings[i].Some?
    ensures j < |records| && RecordFor(records[j], mappings[i].value, base)
  {
    assert Backed(mappings[i].value, base, records);
    j :| 0 <= j < |records| && RecordFor(records[j], mappings[i].value, base);
  }

  lemma UnmappedIsBacked(mappings: Mappings, base: nat, records: Records, i: nat, j: nat)
    requires MappingsBacked(mappings, base, records) && i < |mappings| && mappings[i].Some?
    requires j < |records| && RecordFor(records[j], mappings[i].value, base)
    ensures MappingsBacked(mappings[i := None], base, records[j := None])
  {
    var after, left := mappings[i := None], records[j := None];
    forall k | 0 <= k < |after| && after[k].Some?
      ensures Backed(after[k].value, base, left)
    {
      assert after[k] == mappings[k] && k != i;
      assert mappings[k].value.kernelStart != mappings[i].value.kernelStart;
      assert Backed(mappings[k].value, base, records);
      var b :| 0 <= b < |records| && RecordFor(records[b], mappings[k].value, base);
      assert b != j && left[b] == records[b];
    }
  }

  lemma RecountedIsOk(spaces: Spaces, k: nat, references: nat)
    requires SpacesOk(spaces) && k < |spaces| && spaces[k].Some? && references >= 1
    ensures SpacesOk(spaces[k := Some(spaces[k].value.(references := references))])
  {
  }

  lemma DroppedIsOk(spaces: Spaces, after: Spaces, k: nat)
    requires SpacesOk(spaces) && after == if k < |spaces| then spaces[k := None] else spaces
    ensures SpacesOk(after)
  {
    assert forall i :: 0 <= i < |after| && after[i].Some? ==> after[i] == spaces[i];
  }

  lemma DroppedViews(
    mappings: Mappings, left: Mappings, bytes: seq<byte>, base: nat, records: Records, free: FreeList, bump: nat,
      root: nat)
    requires |left| == |mappings|
    requires forall i :: 0 <= i < |left| ==> left[i] == if HasRoot(mappings[i], root) then None else mappings[i]
    requires HeapOk(records, free, bump) && bump <= |bytes| && MappingsBacked(left, base, records)
    ensures forall other: nat, a: nat, n: nat | other != root ::
              ReadUser(left, bytes, base, other, a, n) == ReadUser(mappings, bytes, base, other, a, n)
  {
    hide First, Of, ReadUser, HeapOk, MappingsBacked;
    forall other: nat, a: nat, n: nat | other != root
      ensures ReadUser(left, bytes, base, other, a, n) == ReadUser(mappings, bytes, base, other, a, n)
    {
      OthersNotDropped(mappings, left, root, other);
      forall m | m in Of(left, other)
        ensures m.kernelStart >= base && SameBytes(bytes, bytes, Block(m, base))
      {
        OfIsInTable(left, other, m);
        var k :| 0 <= k < |left| && left[k] == Some(m) && m.root == other;
        MappingIsPaged(left, base, records, k);
        var j := BackingRecord(left, base, records, k);
        RecordInside(records, free, bump, j);
      }
      ViewKept(left, mappings, bytes, bytes, base, other, a, n);
    }
  }

  lemma OthersNotDropped(mappings: Mappings, left: Mappings, root: nat, other: nat)
    requires |left| == |mappings| && other != root
    requires forall i :: 0 <= i < |left| ==> left[i] == if HasRoot(mappings[i], root) then None else mappings[i]
    ensures Of(left, other) == Of(mappings, other)
  {
    CollectSame(left, mappings, InRoot(other), Unwrap);
  }

  lemma RootIdentifies(spaces: Spaces, k: nat)
    requires SpacesOk(spaces) && k < |spaces| && spaces[k].Some?
    ensures First(spaces, SpaceOf(spaces[k].value.root)) == k && spaces[k].value.root != 0
  {
    hide First;
    FirstIs(spaces, SpaceOf(spaces[k].value.root), k);
  }

  /** What becomes of a space when `owner` goes: a shared one has one user less. */
  function Departed(slot: Option<AddressSpace>, owner: ProcessId): Option<AddressSpace> {
    if !OwnedSpace(slot, owner) then slot
    else if slot.value.references > 1 then Some(slot.value.(references := slot.value.references - 1))
    else None
  }

  /** One of the first `n` spaces has this root, belongs to `owner` and is used by nobody else. */
  ghost predicate TearsRoot(spaces: Spaces, n: nat, owner: ProcessId, root: nat)
    requires n <= |spaces|
  {
    exists k :: 0 <= k < n && OwnedSpace(spaces[k], owner) && spaces[k].value.references <= 1
                && spaces[k].value.root == root
  }

  /** The mapping goes with its space. */
  ghost predicate Torn(spaces: Spaces, n: nat, owner: ProcessId, slot: Option<UserMapping>)
    requires n <= |spaces|
  {
    slot.Some? && TearsRoot(spaces, n, owner, slot.value.root)
  }

  /** The record lies behind a mapping that goes. */
  ghost predicate TornAway(spaces: Spaces, n: nat, owner: ProcessId, mappings: Mappings, base: nat,
                           slot: Option<AllocationRecord>)
    requires n <= |spaces|
  {
    slot.Some? && exists i :: 0 <= i < |mappings| && Torn(spaces, n, owner, mappings[i])
                              && slot.value.offset + base == mappings[i].value.kernelStart
  }

  /** Exactly the mappings of the owner's first `n` unshared spaces are gone, and the records behind them. */
  ghost predicate TornTables(spaces: Spaces, n: nat, owner: ProcessId, before: Mappings, after: Mappings, base: nat,
                             ledger: Records, records: Records)
    requires n <= |spaces|
  {
    && |after| == |before| && |records| == |ledger|
    && (forall i :: 0 <= i < |before| ==> after[i] == if Torn(spaces, n, owner, before[i]) then None else before[i])
    && (forall j :: 0 <= j < |ledger| ==>
          records[j] == if TornAway(spaces, n, owner, before, base, ledger[j]) then None else ledger[j])
  }

  lemma TornNone(spaces: Spaces, owner: ProcessId, mappings: Mappings, base: nat, records: Records)
    ensures forall root: nat :: !TearsRoot(spaces, 0, owner, root)
    ensures TornTables(spaces, 0, owner, mappings, mappings, base, records, records)
  {
  }

  lemma TearsStep(spaces: Spaces, n: nat, owner: ProcessId)
    requires n < |spaces|
    ensures forall root: nat :: TearsRoot(spaces, n + 1, owner, root)
              <==> || TearsRoot(spaces, n, owner, root)
                   || (OwnedSpace(spaces[n], owner) && spaces[n].value.references <= 1 && spaces[n].value.root == root)
  {
  }

  /** One turn of the loop: the next space goes with its mappings, or nothing but its count changes. */
  lemma TornStep(spaces: Spaces, n: nat, owner: ProcessId, start: Mappings, before: Mappings, after: Mappings,
                 base: nat,
                 first: Records, ledger: Records, records: Records)
    requires n < |spaces| && TornTables(spaces, n, owner, start, before, base, first, ledger)
    requires if OwnedSpace(spaces[n], owner) && spaces[n].value.references <= 1 then
               var root := spaces[n].value.root;
               && |after| == |before|
               && (forall i :: 0 <= i < |after| ==> after[i] == if HasRoot(before[i], root) then None else before[i])
               && Unbacked(before, |before|, root, base, ledger, records)
             else after == before && records == ledger
    ensures TornTables(spaces, n + 1, owner, start, after, base, first, records)
  {
    TearsStep(spaces, n, owner);
    hide TearsRoot;
    if OwnedSpace(spaces[n], owner) && spaces[n].value.references <= 1 {
      var root := spaces[n].value.root;
      assert forall i :: 0 <= i < |start| ==>
          (Torn(spaces, n + 1, owner, start[i]) <==> Torn(spaces, n, owner, start[i]) || HasRoot(before[i], root));
      forall j | 0 <= j < |first| && first[j].Some?
        ensures TornAway(spaces, n + 1, owner, start, base, first[j])
                <==> || TornAway(spaces, n, owner, start, base, first[j])
                     || Behind(before, |before|, root, base, first[j].value)
      {
        TornOrBehind(spaces, n, owner, start, before, base, root, first[j]);
      }
    } else {
      assert forall i :: 0 <= i < |start| ==>
          (Torn(spaces, n + 1, owner, start[i]) <==> Torn(spaces, n, owner, start[i]));
    }
  }

  lemma TornOrBehind(spaces: Spaces, n: nat, owner: ProcessId, start: Mappings, before: Mappings, base: nat, root: nat,
                     slot: Option<AllocationRecord>)
    requires n < |spaces| && |before| == |start| && slot.Some?
    requires forall i :: 0 <= i < |start| ==>
               before[i] == if Torn(spaces, n, owner, start[i]) then None else start[i]
    requires forall i :: 0 <= i < |start| ==>
               (Torn(spaces, n + 1, owner, start[i]) <==> Torn(spaces, n, owner, start[i]) || HasRoot(before[i], root))
    ensures TornAway(spaces, n + 1, owner, start, base, slot)
            <==> || TornAway(spaces, n, owner, start, base, slot)
                 || Behind(before, |before|, root, base, slot.value)
  {
    hide Torn;
  }

  /** Dropping the owner's records leaves every mapping backed exactly when none of the mappings is the owner's. */
  lemma ReleasedIsBacked(mappings: Mappings, base: nat, records: Records, left: Records, owner: ProcessId)
    requires MappingsBacked(mappings, base, records) && |left| == |records|
    requires forall j :: 0 <= j < |left| ==> left[j] == if OwnedBy(owner, records[j]) then None else records[j]
    ensures MappingsBacked(mappings, base, left)
       <==> forall i :: 0 <= i < |mappings| ==> !OwnedMapping(mappings[i], owner)
  {
    forall i | 0 <= i < |mappings| && mappings[i].Some?
      ensures Backed(mappings[i].value, base, left) <==> !OwnedMapping(mappings[i], owner)
    {
      assert Backed(mappings[i].value, base, records);
      var j :| 0 <= j < |records| && RecordFor(records[j], mappings[i].value, base);
      assert mappings[i].value.owner != owner ==> left[j] == records[j];
    }
  }

  lemma TornEnds(spaces: Spaces, owner: ProcessId, start: Mappings, mappings: Mappings, base: nat, first: Records,
                 ledger: Records, records: Records)
    requires TornTables(spaces, |spaces|, owner, start, mappings, base, first, ledger) && |records| == |ledger|
    requires MappingsBacked(mappings, base, ledger)
    requires forall j :: 0 <= j < |records| ==> records[j] == if OwnedBy(owner, ledger[j]) then None else ledger[j]
    ensures forall j :: 0 <= j < |records| ==>
              records[j] == if OwnedBy(owner, first[j]) || TornAway(spaces, |spaces|, owner, start, base, first[j])
                            then None else first[j]
    ensures MappingsBacked(mappings, base, records)
       <==> forall i :: 0 <= i < |mappings| && OwnedMapping(start[i], owner) ==> Torn(spaces, |spaces|, owner, start[i])
  {
    hide MappingsBacked, Torn, TornAway;
    ReleasedIsBacked(mappings, base, ledger, records, owner);
  }

  /**
   * Where every mapping belongs to the owner of its space and none of the owner's is shared, all of its mappings go.
   */
  lemma OwnSpacesTear(spaces: Spaces, mappings: Mappings, owner: ProcessId, i: nat)
    requires SpacesOk(spaces) && OwnersAgree(spaces, mappings) && i < |mappings|
    requires forall k :: 0 <= k < |spaces| && OwnedSpace(spaces[k], owner) ==> spaces[k].value.references == 1
    ensures Torn(spaces, |spaces|, owner, mappings[i]) <==> OwnedMapping(mappings[i], owner)
  {
    if mappings[i].Some? {
      assert OwnerHas(spaces, mappings[i].value);
    }
  }

  // ---------------------------------------------------------------------
  // Records behind dropped mappings
  // ---------------------------------------------------------------------

  /** The record lies behind one of the root's first `n` mappings. */
  ghost predicate Behind(mappings: Mappings, n: nat, root: nat, base: nat, record: AllocationRecord)
    requires n <= |mappings|
  {
    exists i :: 0 <= i < n && HasRoot(mappings[i], root) && record.offset + base == mappings[i].value.kernelStart
  }

  /** Exactly the records behind the root's first `n` mappings are gone. */
  ghost predicate Unbacked(mappings: Mappings, n: nat, root: nat, base: nat, before: Records, after: Records)
    requires n <= |mappings|
  {
    && |after| == |before|
    && forall j :: 0 <= j < |before| ==>
         after[j] == if before[j].Some? && Behind(mappings, n, root, base, before[j].value) then None else before[j]
  }

  lemma UnbackedNone(mappings: Mappings, root: nat, base: nat, records: Records)
    ensures Unbacked(mappings, 0, root, base, records, records)
  {
  }

  lemma UnbackedSkip(mappings: Mappings, n: nat, root: nat, base: nat, before: Records, after: Records)
    requires n < |mappings| && !HasRoot(mappings[n], root)
    ensures Unbacked(mappings, n, root, base, before, after) ==> Unbacked(mappings, n + 1, root, base, before, after)
  {
    forall record: AllocationRecord
      ensures Behind(mappings, n + 1, root, base, record) <==> Behind(mappings, n, root, base, record)
    {
    }
  }

  lemma UnbackedStep(
    mappings: Mappings, n: nat, root: nat, base: nat, before: Records, after: Records, free: FreeList, bump: nat,
      j: nat)
    requires n < |mappings| && HasRoot(mappings[n], root) && HeapOk(after, free, bump)
    requires Unbacked(mappings, n, root, base, before, after)
    requires j < |after| && RecordFor(after[j], mappings[n].value, base)
    ensures Unbacked(mappings, n + 1, root, base, before, after[j := None])
  {
    hide HeapOk;
    forall k | 0 <= k < |before| && before[k].Some?
      ensures Behind(mappings, n + 1, root, base, before[k].value)
              <==> Behind(mappings, n, root, base, before[k].value) || k == j
    {
      if after[k].Some? && k != j {
        SameOffsetSameRecord(after, free, bump, j, k);
      }
    }
  }

  lemma SameOffsetSameRecord(records: Records, free: FreeList, bump: nat, j: nat, k: nat)
    requires HeapOk(records, free, bump) && j < |records| && k < |records| && j != k && records[j].Some?
             && records[k].Some?
    ensures records[j].value.offset != records[k].value.offset
  {
    RecordInside(records, free, bump, j);
    RecordInside(records, free, bump, k);
    RecordsApart(records, free, bump, j, k);
  }

  /** Where every mapping belongs to the owner of its space, the records behind the mappings that go are the owner's. */
  lemma DroppedAreOwned(spaces: Spaces, mappings: Mappings, base: nat, records: Records, free: FreeList, bump: nat,
                        owner: ProcessId, j: nat)
    requires SpacesOk(spaces) && OwnersAgree(spaces, mappings)
    requires MappingsBacked(mappings, base, records) && HeapOk(records, free, bump)
    requires j < |records| && TornAway(spaces, |spaces|, owner, mappings, base, records[j])
    ensures OwnedBy(owner, records[j])
  {
    hide HeapOk;
    var i :| 0 <= i < |mappings| && Torn(spaces, |spaces|, owner, mappings[i])
             && records[j].value.offset + base == mappings[i].value.kernelStart;
    assert OwnerHas(spaces, mappings[i].value);
    var b := BackingRecord(mappings, base, records, i);
    if b != j {
      SameOffsetSameRecord(records, free, bump, b, j);
    }
  }


  predicate OwnedMapping(slot: Option<UserMapping>, owner: ProcessId) {
    slot.Some? && slot.value.owner == owner
  }
}
