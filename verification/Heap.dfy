/**
 The kernel heap of `src/kernel/memory.rs`: a bump pointer, a first-fit
 coalescing free list and owner-tagged allocation records.

 Offsets are relative to a symbolic base address. Committing pages for a
 virtual heap (`grow_committed`) is an oracle: each call that may need it takes
 the layout the commit yields, or `None` when it fails.
 */
module Heap {
  import opened Prelude
  import opened Tables
  import opened Regions
  import opened Alignment

  const WORD: nat := 8
  const PAGE_SIZE: nat := 4096

  datatype AllocationKind = Heap | Mapping

  datatype MemoryProtection = MemoryProtection(read: bool, write: bool, execute: bool)

  const READ_WRITE := MemoryProtection(true, true, false)

  datatype AllocationRecord = AllocationRecord(
    owner: ProcessId, offset: nat, size: nat, kind: AllocationKind, protection: MemoryProtection)
  {
    function Span(): Region {
      Region(offset, size)
    }
  }

  datatype Backing = Static | Virtual(base: nat, capacity: nat, committed: nat, frames: nat) | Disabled

  /** What a successful commit reports. */
  datatype Layout = Layout(committed: nat, frames: nat)

  type Records = seq<Option<AllocationRecord>>

  // ---------------------------------------------------------------------
  // The invariant
  // ---------------------------------------------------------------------

  /** Live records are non-empty, word-sized, below `bump`, and pairwise disjoint. */
  ghost predicate LiveOk(records: Records, bump: nat) {
    && (forall i :: 0 <= i < |records| && records[i].Some? ==>
          && 0 < records[i].value.size && records[i].value.size % WORD == 0
          && records[i].value.Span().End() <= bump)
    && (forall i, j :: 0 <= i < |records| && 0 <= j < |records| && i != j && records[i].Some? && records[j].Some?
          ==> Apart(records[i].value.Span(), records[j].value.Span()))
  }

  /** No byte of `r` is free. */
  ghost predicate NotFree(free: FreeList, r: Region) {
    forall x :: r.Has(x) ==> !FreeAt(free, x)
  }

  ghost predicate HeapOk(records: Records, free: FreeList, bump: nat) {
    && LiveOk(records, bump)
    && FreeOk(free, bump)
    && (forall i :: 0 <= i < |records| && records[i].Some? ==> NotFree(free, records[i].value.Span()))
  }

  function SizeOf(slot: Option<AllocationRecord>): nat {
    if slot.Some? then slot.value.size else 0
  }

  function Vacant<T>(slot: Option<T>): bool {
    slot.None?
  }

  function OwnedAt(owner: ProcessId, offset: nat): Option<AllocationRecord> -> bool {
    (slot: Option<AllocationRecord>) => slot.Some? && slot.value.owner == owner && slot.value.offset == offset
  }

  lemma ApartByBytes(a: Region, b: Region)
    requires a.size > 0 && b.size > 0
    requires forall x :: a.Has(x) ==> !b.Has(x)
    ensures Apart(a, b)
  {
    assert !(a.Has(a.offset) && b.Has(a.offset));
    assert !(a.Has(b.offset) && b.Has(b.offset));
  }

  lemma NotFreeIsApart(free: FreeList, bump: nat, r: Region)
    requires FreeOk(free, bump) && r.size > 0 && NotFree(free, r)
    ensures ApartFromAll(free, r)
  {
    forall i | 0 <= i < |free| && free[i].Some?
      ensures Apart(free[i].value, r)
    {
      forall x | free[i].value.Has(x)
        ensures !r.Has(x)
      {
        assert FreeAt(free, x);
      }
      ApartByBytes(free[i].value, r);
    }
  }

  lemma ApartIsNotFree(free: FreeList, r: Region)
    requires ApartFromAll(free, r)
    ensures NotFree(free, r)
  {
  }

  // ---------------------------------------------------------------------
  // Accounting: disjoint records cannot outgrow the bump prefix
  // ---------------------------------------------------------------------

  ghost function Bytes(r: Region): set<nat> {
    set x: nat | r.offset <= x < r.End() && r.Has(x)
  }

  lemma {:induction false} BytesSize(r: Region)
    ensures |Bytes(r)| == r.size
    decreases r.size
  {
    if r.size > 0 {
      var shorter := Region(r.offset, r.size - 1);
      BytesSize(shorter);
      assert forall x: nat :: r.Has(x) <==> shorter.Has(x) || x == r.End() - 1;
      assert Bytes(r) == Bytes(shorter) + {r.End() - 1};
    } else {
      assert Bytes(r) == {};
    }
  }

  ghost function LiveBytes(records: Records, bump: nat): set<nat> {
    set x, i | 0 <= i < |records| && records[i].Some? && 0 <= x < bump && records[i].value.Span().Has(x) :: x
  }

  lemma {:induction false} LiveBytesSize(records: Records, bump: nat)
    requires LiveOk(records, bump)
    ensures |LiveBytes(records, bump)| == Sum(records, SizeOf)
    decreases |records|
  {
    if records != [] {
      var front, last := records[..|records| - 1], records[|records| - 1];
      assert LiveOk(front, bump);
      hide LiveOk, LiveBytes, Bytes;
      LiveBytesSize(front, bump);
      if last.None? {
        SkipLast(records, bump);
      } else {
        BytesSize(last.value.Span());
        SplitLast(records, bump);
      }
    }
  }

  lemma SkipLast(records: Records, bump: nat)
    requires records != [] && records[|records| - 1].None?
    ensures LiveBytes(records, bump) == LiveBytes(records[..|records| - 1], bump)
  {
    var front := records[..|records| - 1];
    assert forall i :: 0 <= i < |front| ==> front[i] == records[i];
    forall x | x in LiveBytes(records, bump)
      ensures x in LiveBytes(front, bump)
    {
      var i :| 0 <= i < |records| && records[i].Some? && records[i].value.Span().Has(x);
      assert front[i] == records[i];
    }
    forall x | x in LiveBytes(front, bump)
      ensures x in LiveBytes(records, bump)
    {
      var i :| 0 <= i < |front| && front[i].Some? && front[i].value.Span().Has(x);
      assert records[i] == front[i];
    }
  }

  lemma SplitLast(records: Records, bump: nat)
    requires LiveOk(records, bump) && records != [] && records[|records| - 1].Some?
    ensures var span := records[|records| - 1].value.Span();
            && LiveBytes(records, bump) == LiveBytes(records[..|records| - 1], bump) + Bytes(span)
            && LiveBytes(records[..|records| - 1], bump) !! Bytes(span)
  {
    var front, last := records[..|records| - 1], records[|records| - 1];
    var span := last.value.Span();
    assert forall i :: 0 <= i < |front| ==> front[i] == records[i];
    forall x | x in LiveBytes(front, bump)
      ensures x in LiveBytes(records, bump) && x !in Bytes(span)
    {
      var i :| 0 <= i < |front| && front[i].Some? && front[i].value.Span().Has(x);
      assert records[i] == front[i];
      assert Apart(records[i].value.Span(), span);
    }
    forall x | x in Bytes(span)
      ensures x in LiveBytes(records, bump)
    {
      assert records[|records| - 1].value.Span().Has(x);
    }
    forall x | x in LiveBytes(records, bump)
      ensures x in LiveBytes(front, bump) || x in Bytes(span)
    {
      var i :| 0 <= i < |records| && records[i].Some? && records[i].value.Span().Has(x);
      assert i < |front| ==> front[i] == records[i];
    }
  }

  lemma {:induction false} RangeSize(n: nat, s: set<nat>)
    requires forall x :: x in s ==> x < n
    ensures |s| <= n
    decreases n
  {
    if n == 0 {
      assert s == {};
    } else {
      RangeSize(n - 1, s - {n - 1});
    }
  }

  /** The live bytes fit below the bump pointer, so the byte counter never saturates. */
  lemma LiveSumBounded(records: Records, bump: nat)
    requires LiveOk(records, bump)
    ensures Sum(records, SizeOf) <= bump
  {
    LiveBytesSize(records, bump);
    RangeSize(bump, LiveBytes(records, bump));
  }

  // ---------------------------------------------------------------------
  // Where a block may be placed
  // ---------------------------------------------------------------------

  /** The first aligned place in `r` leaves room for `size` bytes. */
  predicate Fits(base: nat, size: nat, align: nat, r: Region)
    requires align > 0
  {
    AlignedOffset(base, r.offset, align) + size <= r.End()
  }

  /** Fitting at the first aligned place is fitting at any. */
  lemma FitsMeansRoom(base: nat, size: nat, align: nat, r: Region)
    requires align > 0
    ensures Fits(base, size, align, r)
       <==> exists o: nat :: r.offset <= o && AlignedAt(base, o, align) && o + size <= r.End()
  {
    AlignedOffsetIsLeast(base, r.offset, align);
  }

  /** The scan of the free list stops at a region that fits, or whose padded end overflows. */
  function StopsScan(base: nat, size: nat, align: nat): Option<Region> -> bool
    requires align > 0
  {
    (slot: Option<Region>) =>
      && slot.Some?
      && (|| Fits(base, size, align, slot.value)
          || AlignedOffset(base, slot.value.offset, align) + size >= TWO_64)
  }

  // ---------------------------------------------------------------------
  // The free list as the manager's loops leave it
  // ---------------------------------------------------------------------

  /** The merge pass from slot `idx` on: the list without the neighbours it meets, and the region grown by them. */
  function MergeFrom(free: FreeList, merged: Region, idx: nat): (r: (FreeList, Region))
    requires idx <= |free|
    ensures |r.0| == |free|
    decreases |free| - idx
  {
    if idx == |free| then (free, merged)
    else if free[idx].None? then MergeFrom(free, merged, idx + 1)
    else if free[idx].value.End() == merged.offset then
      MergeFrom(free[idx := None], Union(free[idx].value, merged), idx + 1)
    else if merged.End() == free[idx].value.offset then
      MergeFrom(free[idx := None], Union(merged, free[idx].value), idx + 1)
    else MergeFrom(free, merged, idx + 1)
  }

  /** `insert_free_region`: the grown region goes to the first vacant slot, if there is one. */
  function Inserted(free: FreeList, region: Region): (r: FreeList)
    ensures |r| == |free|
  {
    if region.size == 0 then free
    else
      var (rest, merged) := MergeFrom(free, region, 0);
      var v := First(rest, Vacant);
      if v == |rest| then rest else rest[v := Some(merged)]
  }

  /** The list once `block` is taken from the region in `idx` and what is left on both sides handed back. */
  function CutOut(free: FreeList, idx: nat, block: Region): (r: FreeList)
    requires idx < |free| && free[idx].Some?
    requires free[idx].value.offset <= block.offset && block.End() <= free[idx].value.End()
    ensures |r| == |free|
  {
    var region := free[idx].value;
    Inserted(Inserted(free[idx := None], Region(region.offset, block.offset - region.offset)),
             Region(block.End(), region.End() - block.End()))
  }

  class MemoryManager {
    const staticBase: nat
    const heapSize: nat
    var bytes: seq<byte>
    var bumpOffset: nat
    var records: Records
    var free: FreeList
    var allocatedBytes: nat
    var peakBytes: nat
    var backing: Backing

    function Base(): nat
      reads this
    {
      match backing
      case Static => staticBase
      case Virtual(base, _, _, _) => base
      case Disabled => 0
    }

    function Capacity(): nat
      reads this
    {
      match backing
      case Static => heapSize
      case Virtual(_, capacity, _, _) => capacity
      case Disabled => 0
    }

    ghost predicate Valid()
      reads this
    {
      && HeapOk(records, free, bumpOffset)
      && bumpOffset <= |bytes| < TWO_64
      && (backing.Disabled? || |bytes| == Capacity())
      && Base() + Capacity() <= TWO_64 && Base() < TWO_64
      && allocatedBytes == Sum(records, SizeOf) <= peakBytes
    }

    constructor (base: nat, size: nat, areas: nat)
      requires 0 < base && base + size < TWO_64
      ensures Valid() && staticBase == base && heapSize == size && backing == Static
      ensures bytes == seq(size, _ => 0) && bumpOffset == 0 && allocatedBytes == 0 && peakBytes == 0
      ensures |records| == |free| == areas
      ensures forall i :: 0 <= i < areas ==> records[i].None? && free[i].None?
    {
      staticBase, heapSize, backing := base, size, Static;
      bytes := seq(size, _ => 0);
      bumpOffset, allocatedBytes, peakBytes := 0, 0, 0;
      records := seq(areas, i => None);
      free := seq(areas, i => None);
      new;
      SumZero(records, SizeOf);
    }

    /** One pass merges both neighbours; the region is lost only if it has none and the list is full. */
    method InsertFreeRegion(region: Region) returns (ghost kept: bool)
      requires FreeOk(free, bumpOffset)
      requires region.size > 0 ==> region.End() <= bumpOffset && ApartFromAll(free, region)
      modifies this`free
      ensures |free| == |old(free)| && FreeOk(free, bumpOffset)
      ensures kept == (region.size == 0 || HasVacancy(old(free)) || HasNeighbour(old(free), region))
      ensures kept ==> Gains(old(free), free, region)
      ensures !kept || region.size == 0 ==> free == old(free)
      ensures (region.size > 0 && HasVacancy(old(free)) && !HasNeighbour(old(free), region))
                ==> free == old(free)[First(old(free), Vacant) := Some(region)]
      ensures Sum(free, EmptySlot) + 1 >= Sum(old(free), EmptySlot)
      ensures free == Inserted(old(free), region)
    {
      hide First, FreeAt, Gap, Apart, HasNeighbour, Sum, MergeFrom, Merging;
      if region.size == 0 {
        return true;
      }
      ghost var before := free;
      var merged := MergeNeighbours(region);
      var idx := FindVacantRegion();
      if idx < |free| {
        MergeStores(before, free, region, merged, idx, bumpOffset);
        MergeOfNone(before, free, region, merged, bumpOffset);
        SumUpdate(free, EmptySlot, idx, Some(merged));
        free := free[idx := Some(merged)];
        return true;
      }
      MergeDrops(before, free, region, merged, bumpOffset);
      return false;
    }

    /** The pass over the list: every neighbour leaves it and joins the region. */
    method MergeNeighbours(region: Region) returns (merged: Region)
      requires FreeOk(free, bumpOffset) && region.size > 0 && region.End() <= bumpOffset && ApartFromAll(free, region)
      modifies this`free
      ensures |free| == |old(free)| && Merging(old(free), free, region, merged, |free|, bumpOffset)
      ensures MergeFrom(old(free), region, 0) == (free, merged)
      ensures Sum(free, EmptySlot) >= Sum(old(free), EmptySlot)
    {
      hide First, FreeAt, Gap, Apart, HasNeighbour, Sum, MergeFrom, HasVacancy;
      ghost var before := free;
      merged := region;
      var idx := 0;
      while idx < |free|
        invariant Merging(before, free, region, merged, idx, bumpOffset)
        invariant Sum(free, EmptySlot) >= Sum(before, EmptySlot)
        invariant MergeFrom(free, merged, idx) == MergeFrom(before, region, 0)
      {
        SumUpdate(free, EmptySlot, idx, None);
        MergeStep(free, merged, idx);
        if free[idx].Some? {
          var existing := free[idx].value;
          if existing.End() == merged.offset {
            MergeAbsorbs(before, free, region, merged, idx, bumpOffset, Union(existing, merged));
            merged := Region(existing.offset, existing.size + merged.size);
            free := free[idx := None];
          } else if merged.End() == existing.offset {
            MergeAbsorbs(before, free, region, merged, idx, bumpOffset, Union(merged, existing));
            merged := Region(merged.offset, merged.size + existing.size);
            free := free[idx := None];
          } else {
            MergePasses(before, free, region, merged, idx, bumpOffset);
          }
        } else {
          MergePasses(before, free, region, merged, idx, bumpOffset);
        }
        idx := idx + 1;
      }
      MergeEnds(free, merged);
    }

    method FindVacantRegion() returns (idx: nat)
      ensures idx == First(free, Vacant)
    {
      hide First;
      idx := 0;
      while idx < |free|
        invariant idx <= |free|
        invariant forall k :: 0 <= k < idx ==> free[k].Some?
      {
        if free[idx].None? {
          break;
        }
        idx := idx + 1;
      }
      FirstIs(free, Vacant, idx);
    }

    method ReserveFromFreeList(size: nat, align: nat) returns (r: Option<nat>, ghost kept: bool)
      requires FreeOk(free, bumpOffset) && bumpOffset < TWO_64 && Base() < TWO_64
      requires size > 0 && IsPowerOfTwo(align)
      modifies this`free
      ensures |free| == |old(free)| && FreeOk(free, bumpOffset)
      ensures r == ListChoice(old(free), Base(), size, align)
      ensures free == ListAfter(old(free), Base(), size, align) && (r.None? ==> free == old(free))
      ensures r.Some? ==> Carved(old(free), free, Region(r.value, size), kept)
      ensures r.Some? ==> Taken(old(free), free, Region(r.value, size), ListLoss(old(free), Base(), size, align))
      ensures kept <==> !ListLoses(old(free), Base(), size, align)
    {
      hide First, FreeAt, FreeOk, Carved, Taken, CutOut, HasVacancy, AlignedOffset, Splits, FarEnd;
      var idx := 0;
      while idx < |free|
        invariant idx <= |free| && free == old(free)
        invariant forall k :: 0 <= k < idx ==> !StopsScan(Base(), size, align)(free[k])
      {
        if free[idx].Some? {
          var region := free[idx].value;
          FreeBelow(free, bumpOffset, idx);
          var aligned := AlignedHeapOffset(Base(), region.offset, align);
          if aligned.None? || aligned.value + size >= TWO_64 {
            FirstIs(free, StopsScan(Base(), size, align), idx);
            return None, true;
          }
          var start, end := aligned.value, aligned.value + size;
          if end <= region.End() {
            FirstIs(free, StopsScan(Base(), size, align), idx);
            kept := CarveBlock(idx, Region(start, size));
            return Some(start), kept;
          }
        }
        idx := idx + 1;
      }
      FirstIs(free, StopsScan(Base(), size, align), idx);
      return None, true;
    }

    /** Hand back what is left of a region on both sides of the block taken from it. */
    method CarveBlock(idx: nat, block: Region) returns (ghost kept: bool)
      requires FreeOk(free, bumpOffset) && idx < |free| && free[idx].Some?
      requires block.size > 0 && free[idx].value.offset <= block.offset && block.End() <= free[idx].value.End()
      modifies this`free
      ensures |free| == |old(free)| && FreeOk(free, bumpOffset)
      ensures Carved(old(free), free, block, kept) && free == CutOut(old(free), idx, block)
      ensures Taken(old(free), free, block, if kept then NOTHING else FarEnd(old(free)[idx].value, block))
      ensures kept <==> HasVacancy(old(free)) || !Splits(old(free)[idx].value, block)
    {
      hide First, FreeAt, Inserted, ApartFromAll, FreeOk, Gains, Carved, Taken, HasNeighbour, HasVacancy;
      ghost var original := free;
      var region := free[idx].value;
      var before := Region(region.offset, block.offset - region.offset);
      var after := Region(block.End(), region.End() - block.End());
      free := free[idx := None];
      ghost var rest := free;
      PieceApart(original, bumpOffset, idx, before);
      PieceApart(original, bumpOffset, idx, after);
      InsertedNothing(rest, before);
      VacatedSlot(original, idx);
      if block.offset > region.offset {
        var _ := InsertFreeRegion(before);
        RefilledList(original, idx, before);
        BeforeApart(rest, before, after);
      }
      ghost var mid := free;
      InsertedNothing(mid, after);
      kept := true;
      if block.End() < region.End() {
        kept := InsertFreeRegion(after);
      }
      CarvedBytes(original, mid, free, bumpOffset, idx, before, block, after, kept);
    }

    /** A block from the free list if the scan finds one, else from the bump tail. */
    method Reserve(size: nat, align: nat) returns (r: Option<nat>, ghost kept: bool)
      requires Valid() && size > 0 && IsPowerOfTwo(align)
      modifies this`free, this`bumpOffset
      ensures |free| == |old(free)| && HeapOk(records, free, bumpOffset)
      ensures old(bumpOffset) <= bumpOffset <= |bytes| && Bumped(old(bumpOffset), bumpOffset, Base(), size, align)
      ensures r == Placement(old(free), Base(), Capacity(), old(bumpOffset), size, align)
      ensures r.None? ==> free == old(free) && bumpOffset == old(bumpOffset)
      ensures r.Some? ==> Placed(records, free, bumpOffset, Region(r.value, size))
      ensures r.Some? ==> AlignedAt(Base(), r.value, align)
      ensures r.Some? ==> NothingFreed(old(free), free, Region(r.value, size), kept)
      ensures r.Some? ==> Taken(old(free), free, Region(r.value, size), ListLoss(old(free), Base(), size, align))
      ensures free == ListAfter(old(free), Base(), size, align)
      ensures bumpOffset == BumpAfter(old(free), Base(), Capacity(), old(bumpOffset), size, align)
      ensures kept <==> !ListLoses(old(free), Base(), size, align)
    {
      hide First, FreeAt, Fits, ListAfter, ListLoses, Taken;
      NoLossWithoutChoice(free, Base(), size, align);
      r, kept := ReserveFromFreeList(size, align);
      if r.Some? {
        CarvedIsPlaced(records, old(free), free, bumpOffset, Region(r.value, size), kept);
        ChoiceAligned(old(free), Base(), size, align);
        return;
      }
      var aligned := AlignedHeapOffset(Base(), bumpOffset, align);
      if aligned.None? || aligned.value + size >= TWO_64 || aligned.value + size > Capacity() {
        return;
      }
      AlignedOffsetIsLeast(Base(), bumpOffset, align);
      bumpOffset := aligned.value + size;
      BumpedIsPlaced(records, free, old(bumpOffset), bumpOffset, Region(aligned.value, size));
      TakenFromTail(free, Region(aligned.value, size));
      r := aligned;
    }

    method EnsureBacking(offset: nat, size: nat, growth: Option<Layout>) returns (ok: bool)
      requires Valid()
      modifies this`backing
      ensures Valid() && Base() == old(Base()) && Capacity() == old(Capacity())
      ensures ok == Backs(old(backing), offset + size, growth)
      ensures backing == if ok && old(backing).Virtual?
                         then old(backing).(committed := growth.value.committed, frames := growth.value.frames)
                         else old(backing)
    {
      match backing
      case Static =>
        ok := true;
      case Disabled =>
        ok := false;
      case Virtual(base, capacity, committed, frames) =>
        var required := offset + size;
        if required >= TWO_64 || required > capacity {
          return false;
        }
        var target := AlignUp(required, PAGE_SIZE);
        if target.None? || growth.None? {
          return false;
        }
        backing := Virtual(base, capacity, growth.value.committed, growth.value.frames);
        ok := true;
    }

    method RecordAllocation(record: AllocationRecord) returns (ok: bool)
      modifies this`records
      ensures var slot := First(old(records), Vacant);
              && ok == (slot < |old(records)|)
              && records == if ok then old(records)[slot := Some(record)] else old(records)
    {
      hide First;
      var idx := 0;
      while idx < |records|
        invariant idx <= |records| && records == old(records)
        invariant forall k :: 0 <= k < idx ==> records[k].Some?
      {
        if records[idx].None? {
          records := records[idx := Some(record)];
          return true;
        }
        idx := idx + 1;
      }
      ok := false;
    }

    /**
     The shared body of `malloc_for`, `malloc_aligned_for` and `mmap_for`: reserve,
     commit, record, and hand the reservation back if a later step fails.
     */
    method Allocate(
      owner: ProcessId, size: nat, align: nat, kind: AllocationKind, protection: MemoryProtection,
      growth: Option<Layout>)
      returns (r: Option<nat>)
      requires Valid() && 0 < size && size % WORD == 0 && IsPowerOfTwo(align)
      modifies this`free, this`bumpOffset, this`backing, this`records, this`allocatedBytes, this`peakBytes
      ensures Valid() && Base() == old(Base()) && Capacity() == old(Capacity())
      ensures SameKind(old(backing), backing)
      ensures |free| == |old(free)| && |records| == |old(records)|
      ensures Bumped(old(bumpOffset), bumpOffset, Base(), size, align)
      ensures r.None? ==> records == old(records) && allocatedBytes == old(allocatedBytes)
                          && peakBytes == old(peakBytes)
      ensures r.Some? ==>
                var slot := First(old(records), Vacant);
                && slot < |records|
                && records == old(records)[slot := Some(AllocationRecord(owner, r.value, size, kind, protection))]
                && allocatedBytes == old(allocatedBytes) + size
                && peakBytes == (if allocatedBytes > old(peakBytes) then allocatedBytes else old(peakBytes))
                && AlignedAt(Base(), r.value, align)
                && !backing.Disabled?
      ensures r == old(Grant(size, align, growth))
      ensures bumpOffset == BumpAfter(old(free), Base(), Capacity(), old(bumpOffset), size, align)
      ensures r.Some? ==> free == ListAfter(old(free), Base(), size, align)
      ensures var place := Placement(old(free), Base(), Capacity(), old(bumpOffset), size, align);
              if place.None? then free == old(free)
              else Accounted(old(records), old(free), records, free, Region(place.value, size),
                             Loss(old(free), Base(), size, align, Region(place.value, size), r.Some?))
    {
      hide First, FreeAt, HeapOk, Placement, Placed, NothingFreed, HasVacancy, Sum, AlignedAt, IsPowerOfTwo, Bumped,
        ListAfter, ListLoses, Taken, Accounted, Loss, BumpAfter, ListLoss;
      PowerIsPositive(align);
      var offset, kept := Reserve(size, align);
      if offset.None? {
        return None;
      }
      assert Valid();
      ghost var mid := free;
      r := Settle(owner, Region(offset.value, size), kind, protection, growth);
      if r.Some? {
        GrantAccounts(old(records), old(free), mid, old(bumpOffset), Base(), Capacity(), size, align, records);
      } else {
        RefusalAccounts(old(records), old(free), mid, free, old(bumpOffset), bumpOffset, Base(), Capacity(), size,
                        align);
      }
    }

    /** Commit and record a reserved block, or hand it back. */
    method Settle(
      owner: ProcessId, block: Region, kind: AllocationKind, protection: MemoryProtection, growth: Option<Layout>)
      returns (r: Option<nat>)
      requires Valid() && Placed(records, free, bumpOffset, block) && block.size % WORD == 0
      modifies this`free, this`backing, this`records, this`allocatedBytes, this`peakBytes
      ensures Valid() && Base() == old(Base()) && Capacity() == old(Capacity())
      ensures SameKind(old(backing), backing)
      ensures |free| == |old(free)| && |records| == |old(records)|
      ensures r == if Backs(old(backing), block.End(), growth) && First(old(records), Vacant) < |old(records)|
                   then Some(block.offset) else None
      ensures r.None? ==> records == old(records) && allocatedBytes == old(allocatedBytes)
                          && peakBytes == old(peakBytes)
      ensures r.Some? ==>
                var slot := First(old(records), Vacant);
                && (var record := AllocationRecord(owner, block.offset, block.size, kind, protection);
                    records == old(records)[slot := Some(record)])
                && allocatedBytes == old(allocatedBytes) + block.size
                && peakBytes == (if allocatedBytes > old(peakBytes) then allocatedBytes else old(peakBytes))
                && free == old(free)
      ensures r.None? ==> Returned(old(free), free, block) && free == Inserted(old(free), block)
    {
      hide First, FreeAt, HeapOk, Placed, HasVacancy, Sum, Backs, Returned, Inserted;
      var committed := EnsureBacking(block.offset, block.size, growth);
      if !committed {
        HandBack(block);
        return None;
      }
      var record := AllocationRecord(owner, block.offset, block.size, kind, protection);
      assert record.Span() == block;
      var recorded := RecordAllocation(record);
      if !recorded {
        HandBack(block);
        return None;
      }
      ghost var slot := First(old(records), Vacant);
      RecordedIsOk(old(records), free, bumpOffset, slot, record);
      SumUpdate(old(records), SizeOf, slot, Some(record));
      CounterBounded(records, free, bumpOffset);
      allocatedBytes := SaturatingAdd64(allocatedBytes, block.size);
      if allocatedBytes > peakBytes {
        peakBytes := allocatedBytes;
      }
      return Some(block.offset);
    }

    /** Where a request would be placed: there is room, it can be committed, and a record slot is vacant. */
    ghost function Grant(size: nat, align: nat, growth: Option<Layout>): Option<nat>
      requires align > 0
      reads this
    {
      var place := Placement(free, Base(), Capacity(), bumpOffset, size, align);
      if place.Some? && Backs(backing, place.value + size, growth)
         && First(records, Vacant) < |records| then place else None
    }

    method HandBack(block: Region)
      requires Valid() && Placed(records, free, bumpOffset, block)
      modifies this`free
      ensures Valid() && |free| == |old(free)|
      ensures Returned(old(free), free, block) && free == Inserted(old(free), block)
    {
      hide First, FreeAt, Inserted;
      NotFreeIsApart(free, bumpOffset, block);
      var kept := InsertFreeRegion(block);
      GainedIsOk(records, old(free), free, bumpOffset, block, kept);
    }

    /** What an allocation of `size` bytes rounded to `unit` returns. */
    ghost function MallocResult(size: nat, unit: nat, align: nat, growth: Option<Layout>): Option<nat>
      requires unit > 0 && align > 0
      reads this
    {
      if size == 0 || AlignUp(size, unit).None? then None
      else
        var offset := Grant(AlignUp(size, unit).value, align, growth);
        if offset.None? then None else Some(Base() + offset.value)
    }

    function PtrFor(offset: nat): nat
      reads this
    {
      Base() + offset
    }

    function OffsetFor(ptr: nat): Option<nat>
      reads this
    {
      if ptr < Base() || ptr >= SaturatingAdd64(Base(), Capacity()) then None else Some(ptr - Base())
    }

    method MallocFor(owner: ProcessId, size: nat, growth: Option<Layout>) returns (r: Option<nat>)
      requires Valid()
      modifies this`free, this`bumpOffset, this`backing, this`records, this`allocatedBytes, this`peakBytes
      ensures Valid() && Base() == old(Base()) && Capacity() == old(Capacity())
      ensures SameKind(old(backing), backing)
      ensures |records| == |old(records)| && |free| == |old(free)|
      ensures r == old(MallocResult(size, WORD, WORD, growth))
      ensures r.None? ==> records == old(records) && allocatedBytes == old(allocatedBytes)
      ensures r.Some? ==> NewRecord(old(records), records, owner, r.value - Base(), size, WORD, Heap, READ_WRITE)
                          && r.value >= Base() && AlignedAt(Base(), r.value - Base(), WORD) && !backing.Disabled?
    {
      hide First, FreeAt, HeapOk, Placement, Sum, Accounted, Loss, ListAfter, BumpAfter;
      if size == 0 {
        return None;
      }
      var actual := AlignUp(size, WORD);
      if actual.None? {
        return None;
      }
      AlignUpIsLeast(size, WORD);
      WordIsPowerOfTwo();
      var offset := Allocate(owner, actual.value, WORD, Heap, READ_WRITE, growth);
      return if offset.None? then None else Some(PtrFor(offset.value));
    }

    method MallocAlignedFor(owner: ProcessId, size: nat, align: nat, growth: Option<Layout>) returns (r: Option<nat>)
      requires Valid()
      modifies this`free, this`bumpOffset, this`backing, this`records, this`allocatedBytes, this`peakBytes
      ensures Valid() && Base() == old(Base()) && Capacity() == old(Capacity())
      ensures SameKind(old(backing), backing)
      ensures |records| == |old(records)| && |free| == |old(free)|
      ensures r == if IsPowerOfTwo(align)
              then old(MallocResult(size, WORD, if align < WORD then WORD else align, growth)) else None
      ensures r.None? ==> records == old(records) && allocatedBytes == old(allocatedBytes)
      ensures r.Some? ==> IsPowerOfTwo(align) && r.value >= Base() && !backing.Disabled?
                          && NewRecord(old(records), records, owner, r.value - Base(), size, WORD, Heap, READ_WRITE)
                          && AlignedAt(Base(), r.value - Base(), if align < WORD then WORD else align)
    {
      hide First, FreeAt, HeapOk, Placement, Sum, Accounted, Loss, ListAfter, BumpAfter;
      if size == 0 || !IsPowerOfTwo(align) {
        return None;
      }
      var actual := AlignUp(size, WORD);
      if actual.None? {
        return None;
      }
      AlignUpIsLeast(size, WORD);
      WordIsPowerOfTwo();
      var offset := Allocate(owner, actual.value, if align < WORD then WORD else align, Heap, READ_WRITE, growth);
      return if offset.None? then None else Some(PtrFor(offset.value));
    }

    method MmapFor(owner: ProcessId, length: nat, protection: MemoryProtection, growth: Option<Layout>)
      returns (r: Option<nat>)
      requires Valid()
      modifies this`free, this`bumpOffset, this`backing, this`records, this`allocatedBytes, this`peakBytes
      ensures Valid() && Base() == old(Base()) && Capacity() == old(Capacity())
      ensures SameKind(old(backing), backing)
      ensures |records| == |old(records)| && |free| == |old(free)|
      ensures r == old(MallocResult(length, PAGE_SIZE, PAGE_SIZE, growth))
      ensures bumpOffset == old(bumpOffset)
              || (AlignUp(length, PAGE_SIZE).Some?
                  && Bumped(old(bumpOffset), bumpOffset, Base(), AlignUp(length, PAGE_SIZE).value, PAGE_SIZE))
      ensures r.None? ==> records == old(records) && allocatedBytes == old(allocatedBytes)
      ensures r.Some? ==>
                && NewRecord(old(records), records, owner, r.value - Base(), length, PAGE_SIZE, Mapping, protection)
                && r.value >= Base() && AlignedAt(Base(), r.value - Base(), PAGE_SIZE) && !backing.Disabled?
                && free == ListAfter(old(free), Base(), AlignUp(length, PAGE_SIZE).value, PAGE_SIZE)
                && bumpOffset == BumpAfter(old(free), Base(), Capacity(), old(bumpOffset),
                                           AlignUp(length, PAGE_SIZE).value, PAGE_SIZE)
    {
      hide First, FreeAt, HeapOk, Placement, Sum, IsPowerOfTwo, AlignedAt, AlignUp, Accounted, Loss, ListAfter,
        BumpAfter;
      if length == 0 {
        return None;
      }
      var actual := AlignUp(length, PAGE_SIZE);
      if actual.None? {
        return None;
      }
      AlignUpIsLeast(length, PAGE_SIZE);
      PageIsPowerOfTwo();
      PagesAreWords(actual.value);
      var offset := Allocate(owner, actual.value, PAGE_SIZE, Mapping, protection, growth);
      return if offset.None? then None else Some(PtrFor(offset.value));
    }

    /** A request that fits the bump tail and can be committed and recorded is granted. */
    lemma TailGrants(size: nat, growth: Option<Layout>)
      requires Valid() && !backing.Disabled? && size > 0 && size % PAGE_SIZE == 0 && growth.Some?
      requires AlignedOffset(Base(), bumpOffset, PAGE_SIZE) + size <= Capacity() && Capacity() + PAGE_SIZE <= TWO_64
      requires First(records, Vacant) < |records|
      ensures MallocResult(size, PAGE_SIZE, PAGE_SIZE, growth).Some?
    {
      hide First, Placement, Sum, LiveOk, FreeAt;
      TailPlaces(free, Base(), Capacity(), bumpOffset, size, PAGE_SIZE);
      MultipleStays(size);
    }

    method FindAllocationIndex(owner: ProcessId, offset: nat) returns (idx: nat)
      ensures idx == First(records, OwnedAt(owner, offset))
    {
      hide First;
      idx := 0;
      while idx < |records|
        invariant idx <= |records|
        invariant forall k :: 0 <= k < idx ==> !OwnedAt(owner, offset)(records[k])
      {
        if records[idx].Some? && records[idx].value.owner == owner && records[idx].value.offset == offset {
          return;
        }
        idx := idx + 1;
      }
    }

    /** Drop the record in `idx` and return its bytes to the free list. */
    method ReleaseSlot(idx: nat) returns (ghost kept: bool)
      requires Valid() && idx < |records| && records[idx].Some?
      modifies this`free, this`records, this`allocatedBytes
      ensures Valid() && |free| == |old(free)|
      ensures records == old(records)[idx := None]
      ensures var span := old(records)[idx].value.Span();
              && kept == (HasVacancy(old(free)) || HasNeighbour(old(free), span))
              && (if kept then Gains(old(free), free, span) else free == old(free))
              && free == Inserted(old(free), span)
      ensures allocatedBytes == old(allocatedBytes) - old(records)[idx].value.size
      ensures Sum(free, EmptySlot) + 1 >= Sum(old(free), EmptySlot)
    {
      hide First, FreeAt, Sum, Inserted;
      var record := records[idx].value;
      SumAtLeast(records, SizeOf, idx);
      SumUpdate(records, SizeOf, idx, None);
      NotFreeIsApart(free, bumpOffset, record.Span());
      RemovedIsOk(records, free, bumpOffset, idx);
      records := records[idx := None];
      kept := InsertFreeRegion(Region(record.offset, record.size));
      GainedIsOk(records, old(free), free, bumpOffset, record.Span(), kept);
      allocatedBytes := SaturatingSub(allocatedBytes, record.size);
    }

    /** Free the caller's own record at `ptr`, if its kind and length are as demanded. */
    method Release(owner: ProcessId, ptr: nat, kind: AllocationKind, minimumLength: nat)
      returns (released: bool)
      requires Valid()
      modifies this`free, this`records, this`allocatedBytes
      ensures Valid() && |free| == |old(free)|
      ensures released == Releasable(old(records), OffsetFor(ptr), owner, kind, minimumLength)
      ensures !released ==> records == old(records) && free == old(free) && allocatedBytes == old(allocatedBytes)
      ensures released ==>
                var idx := First(old(records), OwnedAt(owner, OffsetFor(ptr).value));
                && records == old(records)[idx := None]
                && allocatedBytes == old(allocatedBytes) - old(records)[idx].value.size
                && Returned(old(free), free, old(records)[idx].value.Span())
    {
      hide First, FreeAt, HeapOk, Sum, Gains, HasVacancy, HasNeighbour;
      var offset := OffsetFor(ptr);
      if offset.None? {
        return false;
      }
      var idx := FindAllocationIndex(owner, offset.value);
      if idx == |records| || records[idx].value.kind != kind || records[idx].value.size < minimumLength {
        return false;
      }
      var kept := ReleaseSlot(idx);
      return true;
    }

    method FreeFor(owner: ProcessId, ptr: nat) returns (released: bool)
      requires Valid()
      modifies this`free, this`records, this`allocatedBytes
      ensures Valid() && |free| == |old(free)|
      ensures released == Releasable(old(records), OffsetFor(ptr), owner, Heap, 0)
      ensures !released ==> records == old(records) && free == old(free) && allocatedBytes == old(allocatedBytes)
      ensures released ==>
                var idx := First(old(records), OwnedAt(owner, OffsetFor(ptr).value));
                && records == old(records)[idx := None]
                && allocatedBytes == old(allocatedBytes) - old(records)[idx].value.size
                && Returned(old(free), free, old(records)[idx].value.Span())
    {
      released := Release(owner, ptr, Heap, 0);
    }

    method MunmapFor(owner: ProcessId, ptr: nat, length: nat) returns (released: bool)
      requires Valid()
      modifies this`free, this`records, this`allocatedBytes
      ensures Valid() && |free| == |old(free)|
      ensures released == Releasable(old(records), OffsetFor(ptr), owner, Mapping, length)
      ensures !released ==> records == old(records) && free == old(free) && allocatedBytes == old(allocatedBytes)
      ensures released ==>
                var idx := First(old(records), OwnedAt(owner, OffsetFor(ptr).value));
                && records == old(records)[idx := None]
                && allocatedBytes == old(allocatedBytes) - old(records)[idx].value.size
                && Returned(old(free), free, old(records)[idx].value.Span())
    {
      released := Release(owner, ptr, Mapping, length);
    }

    /** `copy_nonoverlapping` between two blocks of the heap. */
    method CopyNonoverlapping(source: nat, target: nat, length: nat)
      requires source + length <= |bytes| && target + length <= |bytes|
      requires Apart(Region(source, length), Region(target, length))
      modifies this`bytes
      ensures |bytes| == |old(bytes)| && bytes == Copied(old(bytes), source, target, length)
    {
      bytes := bytes[..target] + bytes[source..source + length] + bytes[target + length..];
    }

    /** A raw write into a block of the heap. */
    method WriteBytes(target: nat, input: seq<byte>)
      requires target + |input| <= |bytes|
      modifies this`bytes
      ensures |bytes| == |old(bytes)| && bytes == Overwritten(old(bytes), target, input)
    {
      bytes := bytes[..target] + input + bytes[target + |input|..];
    }

    method ShrinkInPlace(idx: nat, size: nat)
      requires Valid() && idx < |records| && records[idx].Some?
      requires 0 < size <= records[idx].value.size && size % WORD == 0
      modifies this`free, this`records, this`allocatedBytes
      ensures Valid() && |free| == |old(free)|
      ensures records == old(records)[idx := Some(old(records)[idx].value.(size := size))]
      ensures allocatedBytes == old(allocatedBytes) - (old(records)[idx].value.size - size)
      ensures var record := old(records)[idx].value;
              if record.size == size then free == old(free)
              else Returned(old(free), free, Region(record.offset + size, record.size - size))
    {
      hide First, FreeAt, Sum;
      var record := records[idx].value;
      var leftover := record.size - size;
      SumUpdate(records, SizeOf, idx, Some(record.(size := size)));
      SumAtLeast(records, SizeOf, idx);
      var tail := Region(record.offset + size, leftover);
      TailIsApart(records, free, bumpOffset, idx, size);
      if leftover > 0 {
        NotFreeIsApart(free, bumpOffset, tail);
        var kept := InsertFreeRegion(tail);
        GainedIsOk(records[idx := Some(record.(size := size))], old(free), free, bumpOffset, tail, kept);
        allocatedBytes := SaturatingSub(allocatedBytes, leftover);
      }
      records := records[idx := Some(record.(size := size))];
    }

    /** Move a block to a larger one: its bytes come first, the old block is freed. */
    method MoveToLarger(owner: ProcessId, ptr: nat, idx: nat, size: nat, growth: Option<Layout>)
      returns (r: Option<nat>)
      requires Valid() && OffsetFor(ptr).Some?
      requires idx == First(records, OwnedAt(owner, OffsetFor(ptr).value)) && idx < |records|
      requires records[idx].value.kind == Heap
      requires AlignUp(size, WORD).Some? && records[idx].value.size < AlignUp(size, WORD).value
      modifies this`free, this`bumpOffset, this`backing, this`records, this`allocatedBytes, this`peakBytes, this`bytes
      ensures Valid() && Base() == old(Base()) && Capacity() == old(Capacity()) && |bytes| == |old(bytes)|
      ensures |records| == |old(records)| && |free| == |old(free)|
      ensures r == old(MallocResult(size, WORD, WORD, growth))
      ensures r.None? ==> records == old(records) && bytes == old(bytes) && allocatedBytes == old(allocatedBytes)
      ensures r.Some? ==> Moved(old(records), records, old(bytes), bytes, idx, owner, r.value - Base(), size)
      ensures r.Some? ==> OthersKept(old(records), records, old(bytes), bytes, idx)
    {
      hide First, FreeAt, HeapOk, Sum, AlignUp, AlignedAt, Moved, OthersKept, Copied, IsPowerOfTwo;
      var record := records[idx].value;
      AlignUpIsLeast(size, WORD);
      RecordInside(records, free, bumpOffset, idx);
      WordsFit(record.size, size, AlignUp(size, WORD).value);
      var copyLength := if record.size < size then record.size else size;
      var larger := MallocFor(owner, size, growth);
      if larger.None? {
        return None;
      }
      var target := larger.value - Base();
      ReadyToMove(old(records), records[First(old(records), Vacant)].value, free, bumpOffset, bytes, idx, record.offset,
                  size);
      CopyAndFree(owner, ptr, idx, target, copyLength);
      return larger;
    }

    method CopyAndFree(owner: ProcessId, ptr: nat, idx: nat, target: nat, length: nat)
      requires Valid() && OffsetFor(ptr).Some?
      requires idx == First(records, OwnedAt(owner, OffsetFor(ptr).value)) && idx < |records|
      requires records[idx].value.kind == Heap
      requires records[idx].value.offset + length <= |bytes| && target + length <= |bytes|
      requires Apart(Region(records[idx].value.offset, length), Region(target, length))
      modifies this`free, this`records, this`allocatedBytes, this`bytes
      ensures Valid() && |free| == |old(free)| && |bytes| == |old(bytes)|
      ensures records == old(records)[idx := None]
      ensures bytes == Copied(old(bytes), old(records)[idx].value.offset, target, length)
    {
      hide First, FreeAt, HeapOk, Sum, Copied;
      CopyNonoverlapping(records[idx].value.offset, target, length);
      var released := FreeFor(owner, ptr);
    }

    method ReallocFor(owner: ProcessId, ptr: Option<nat>, size: nat, growth: Option<Layout>) returns (r: Option<nat>)
      requires Valid()
      modifies this`free, this`bumpOffset, this`backing, this`records, this`allocatedBytes, this`peakBytes, this`bytes
      ensures Valid() && Base() == old(Base()) && Capacity() == old(Capacity()) && |bytes| == |old(bytes)|
      ensures |records| == |old(records)| && |free| == |old(free)|
      ensures ptr.None? ==> bytes == old(bytes) && r == old(MallocResult(size, WORD, WORD, growth))
      ensures ptr.None? && r.None? ==> records == old(records)
      ensures ptr.None? && r.Some? ==>
                && r.value >= Base()
                && NewRecord(old(records), records, owner, r.value - Base(), size, WORD, Heap, READ_WRITE)
      ensures ptr.Some? ==>
                var offset := old(OffsetFor(ptr.value));
                var mine := Releasable(old(records), offset, owner, Heap, 0);
                && (!mine ==> r.None? && records == old(records) && bytes == old(bytes))
                && (mine ==>
                      var idx := First(old(records), OwnedAt(owner, offset.value));
                      && OthersKept(old(records), records, old(bytes), bytes, idx)
                      && (size == 0 ==> r.None? && records == old(records)[idx := None] && bytes == old(bytes))
                      && (size > 0 ==>
                            var granted := old(MallocResult(size, WORD, WORD, growth));
                            Resized(old(records), records, old(bytes), bytes, idx, owner, ptr.value, size, granted, r,
                                    Base())))
    {
      hide First, FreeAt, HeapOk, Sum, AlignedAt, Resized, OthersKept, NewRecord, IsPowerOfTwo;
      if ptr.None? {
        if size == 0 {
          return None;
        }
        r := MallocFor(owner, size, growth);
        return;
      }
      if size == 0 {
        var released := FreeFor(owner, ptr.value);
        if released {
          ghost var idx := First(old(records), OwnedAt(owner, OffsetFor(ptr.value).value));
          OthersUntouched(old(records), old(free), old(bumpOffset), bytes, idx, records);
        }
        return None;
      }
      var offset := OffsetFor(ptr.value);
      if offset.None? {
        return None;
      }
      var idx := FindAllocationIndex(owner, offset.value);
      if idx == |records| || records[idx].value.kind != Heap {
        return None;
      }
      r := Resize(owner, ptr.value, idx, size, growth);
    }

    /** The part of `realloc_for` that has found the caller's block. */
    method Resize(owner: ProcessId, ptr: nat, idx: nat, size: nat, growth: Option<Layout>) returns (r: Option<nat>)
      requires Valid() && OffsetFor(ptr).Some? && size > 0
      requires idx == First(records, OwnedAt(owner, OffsetFor(ptr).value)) && idx < |records|
      requires records[idx].value.kind == Heap
      modifies this`free, this`bumpOffset, this`backing, this`records, this`allocatedBytes, this`peakBytes, this`bytes
      ensures Valid() && Base() == old(Base()) && Capacity() == old(Capacity()) && |bytes| == |old(bytes)|
      ensures |records| == |old(records)| && |free| == |old(free)|
      ensures OthersKept(old(records), records, old(bytes), bytes, idx)
      ensures Resized(old(records), records, old(bytes), bytes, idx, owner, ptr, size,
                      old(MallocResult(size, WORD, WORD, growth)), r, Base())
    {
      hide First, FreeAt, HeapOk, Sum, AlignUp, AlignedAt, Moved, OthersKept, IsPowerOfTwo, Grant;
      OthersUntouched(records, free, bumpOffset, bytes, idx, records);
      var rounded := AlignUp(size, WORD);
      if rounded.None? {
        return None;
      }
      AlignUpIsLeast(size, WORD);
      if rounded.value <= records[idx].value.size {
        ShrinkInPlace(idx, rounded.value);
        OthersUntouched(old(records), old(free), old(bumpOffset), bytes, idx, records);
        return Some(ptr);
      }
      r := MoveToLarger(owner, ptr, idx, size, growth);
    }

    /**
     Drop all records of `owner`, handing their bytes back in table order. What was free stays
     free, nothing becomes free but their bytes, and with a vacant free slot for each of them
     none of those is lost.
     */
    method ReleaseProcess(owner: ProcessId)
      requires Valid()
      modifies this`free, this`records, this`allocatedBytes
      ensures Valid() && |free| == |old(free)| && |records| == |old(records)|
      ensures forall i :: 0 <= i < |records| ==>
                records[i] == if OwnedBy(owner, old(records)[i]) then None else old(records)[i]
      ensures free == HandedBack(old(records), old(free), owner, |old(records)|)
      ensures forall x :: FreeAt(old(free), x) ==> FreeAt(free, x)
      ensures forall x :: FreeAt(free, x) ==> FreeAt(old(free), x) || FreedAt(old(records), |records|, owner, x)
      ensures Sum(old(free), EmptySlot) >= Sum(old(records), OwnedSlot(owner)) ==>
                forall x :: FreeAt(free, x) <==> FreeAt(old(free), x) || FreedAt(old(records), |records|, owner, x)
    {
      hide First, FreeAt, HeapOk, Sum, HasVacancy, HasNeighbour, FreedAt, Inserted;
      ghost var ample := Sum(free, EmptySlot) >= Sum(records, OwnedSlot(owner));
      FreedNone(records, owner);
      assert records[..0] == [] && records[..|records|] == records;
      SumZero(records[..0], OwnedSlot(owner));
      var idx := 0;
      while idx < |records|
        invariant idx <= |records| == |old(records)| && |free| == |old(free)|
        invariant Valid()
        invariant forall i :: 0 <= i < |records| ==>
                    records[i] == if i < idx && OwnedBy(owner, old(records)[i]) then None else old(records)[i]
        invariant Sum(free, EmptySlot) + Sum(old(records)[..idx], OwnedSlot(owner)) >= Sum(old(free), EmptySlot)
        invariant free == HandedBack(old(records), old(free), owner, idx)
        invariant forall x :: FreeAt(old(free), x) ==> FreeAt(free, x)
        invariant forall x :: FreeAt(free, x) ==> FreeAt(old(free), x) || FreedAt(old(records), idx, owner, x)
        invariant ample ==>
                    forall x :: FreeAt(free, x) <==> FreeAt(old(free), x) || FreedAt(old(records), idx, owner, x)
      {
        SumPrefix(old(records), OwnedSlot(owner), idx);
        FreedStep(old(records), idx, owner);
        if records[idx].Some? && records[idx].value.owner == owner {
          VacancyLeft(free);
          var kept := ReleaseSlot(idx);
        }
        idx := idx + 1;
      }
    }

    /** Switch to the page-backed heap; refused once anything has been allocated. */
    method PromoteToVirtualHeap(base: nat, capacity: nat, committed: nat, frames: nat, memory: seq<byte>)
      requires Valid() && |memory| == capacity && 0 < base && base + capacity < TWO_64
      modifies this`backing, this`bytes
      ensures Valid()
      ensures var refused := old(allocatedBytes) != 0 || old(bumpOffset) != 0 || capacity == 0 || committed > capacity;
              if refused then backing == old(backing) && bytes == old(bytes)
              else backing == Virtual(base, capacity, committed, frames) && bytes == memory
    {
      if allocatedBytes != 0 || bumpOffset != 0 || capacity == 0 || committed > capacity {
        return;
      }
      backing := Virtual(base, capacity, committed, frames);
      bytes := memory;
    }

    method DisableStaticHeap()
      requires Valid()
      modifies this`backing
      ensures Valid() && backing == if old(backing).Static? then Disabled else old(backing)
    {
      if backing.Static? {
        backing := Disabled;
      }
    }
  }

  ghost function Copied(bytes: seq<byte>, source: nat, target: nat, length: nat): seq<byte>
    requires source + length <= |bytes| && target + length <= |bytes|
  {
    bytes[..target] + bytes[source..source + length] + bytes[target + length..]
  }

  ghost function Overwritten(bytes: seq<byte>, target: nat, input: seq<byte>): seq<byte>
    requires target + |input| <= |bytes|
  {
    bytes[..target] + input + bytes[target + |input|..]
  }

  ghost predicate SameBytes(before: seq<byte>, after: seq<byte>, r: Region) {
    && |before| == |after| && r.End() <= |before|
    && forall x: nat :: r.Has(x) ==> before[x] == after[x]
  }

  /** Every live record but `idx` keeps its slot and its bytes. */
  ghost predicate OthersKept(
    records: Records, after: Records, bytes: seq<byte>, afterBytes: seq<byte>, idx: nat)
  {
    && |records| == |after|
    && forall i :: 0 <= i < |records| && i != idx && records[i].Some?
         ==> after[i] == records[i] && SameBytes(bytes, afterBytes, records[i].value.Span())
  }

  /** The block in `idx` has moved to `target`, its bytes first, and nothing else has changed. */
  ghost predicate Moved(
    records: Records, after: Records, bytes: seq<byte>, afterBytes: seq<byte>,
    idx: nat, owner: ProcessId, target: int, size: nat)
  {
    && idx < |records| && records[idx].Some? && target >= 0 && |bytes| == |afterBytes|
    && var moved := records[idx].value;
    var slot := First(records, Vacant);
    && AlignUp(size, WORD).Some? && slot < |records| && slot != idx
    && after == records[slot := Some(AllocationRecord(owner, target, AlignUp(size, WORD).value, Heap, READ_WRITE))]
                       [idx := None]
    && moved.size <= size && moved.Span().End() <= |bytes| && target + moved.size <= |bytes|
    && afterBytes[target..target + moved.size] == bytes[moved.offset..moved.offset + moved.size]
    && OthersKept(records, after, bytes, afterBytes, idx)
  }

  /**
   What resizing the block in `idx` does: shrink it where it is, or else move it exactly when a
   fresh allocation would be granted, and leave everything as it was when not.
   */
  ghost predicate Resized(
    records: Records, after: Records, bytes: seq<byte>, afterBytes: seq<byte>,
    idx: nat, owner: ProcessId, ptr: nat, size: nat, granted: Option<nat>, r: Option<nat>, base: nat)
    requires idx < |records| && records[idx].Some?
  {
    var rounded := AlignUp(size, WORD);
    if rounded.None? then r.None? && after == records && afterBytes == bytes
    else if rounded.value <= records[idx].value.size then
      && r == Some(ptr) && afterBytes == bytes
      && after == records[idx := Some(records[idx].value.(size := rounded.value))]
    else
      && r == granted
      && (r.None? ==> after == records && afterBytes == bytes)
      && (r.Some? ==> Moved(records, after, bytes, afterBytes, idx, owner, r.value - base, size))
  }

  lemma TailIsApart(records: Records, free: FreeList, bump: nat, idx: nat, size: nat)
    requires HeapOk(records, free, bump) && idx < |records| && records[idx].Some?
    requires 0 < size <= records[idx].value.size && size % WORD == 0
    ensures var record := records[idx].value;
            var shorter := records[idx := Some(record.(size := size))];
            var tail := Region(record.offset + size, record.size - size);
            && HeapOk(shorter, free, bump)
            && tail.End() <= bump && NotFree(free, tail)
            && forall i :: 0 <= i < |shorter| && shorter[i].Some? ==> Apart(shorter[i].value.Span(), tail)
  {
    hide FreeAt;
    var record := records[idx].value;
    var shorter := records[idx := Some(record.(size := size))];
    var tail := Region(record.offset + size, record.size - size);
    forall x | tail.Has(x) || shorter[idx].value.Span().Has(x)
      ensures !FreeAt(free, x)
    {
      assert record.Span().Has(x);
    }
    forall i | 0 <= i < |shorter| && i != idx && shorter[i].Some?
      ensures Apart(shorter[i].value.Span(), record.Span())
    {
      assert shorter[i] == records[i];
    }
    assert forall i :: 0 <= i < |shorter| && i != idx ==> shorter[i] == records[i];
  }

  lemma RecordInside(records: Records, free: FreeList, bump: nat, idx: nat)
    requires HeapOk(records, free, bump) && idx < |records| && records[idx].Some?
    ensures records[idx].value.Span().End() <= bump
    ensures 0 < records[idx].value.size && records[idx].value.size % WORD == 0
  {
  }

  lemma RecordsApart(records: Records, free: FreeList, bump: nat, i: nat, j: nat)
    requires HeapOk(records, free, bump) && i < |records| && j < |records| && i != j
    requires records[i].Some? && records[j].Some?
    ensures Apart(records[i].value.Span(), records[j].value.Span())
  {
  }

  lemma WordsFit(words: nat, size: nat, rounded: nat)
    requires words % WORD == 0 && rounded % WORD == 0 && size <= rounded < size + WORD && words < rounded
    ensures words <= size
  {
  }

  lemma FirstUnmoved(records: Records, after: Records, owner: ProcessId, offset: nat, idx: nat, slot: nat)
    requires idx == First(records, OwnedAt(owner, offset)) < |records| && slot < |records|
    requires records[slot].None? && |after| == |records| && after == records[slot := after[slot]]
    requires after[slot].Some? && after[slot].value.offset != offset
    ensures First(after, OwnedAt(owner, offset)) == idx
  {
    hide First;
    forall k | 0 <= k < idx
      ensures !OwnedAt(owner, offset)(after[k])
    {
      assert k != slot ==> after[k] == records[k];
    }
    FirstIs(after, OwnedAt(owner, offset), idx);
  }

  lemma OthersUntouched(records: Records, free: FreeList, bump: nat, bytes: seq<byte>, idx: nat, after: Records)
    requires HeapOk(records, free, bump) && bump <= |bytes|
    requires |after| == |records| && forall i :: 0 <= i < |records| && i != idx ==> after[i] == records[i]
    ensures OthersKept(records, after, bytes, bytes, idx)
  {
    hide FreeAt;
  }

  /** Copying into a freshly recorded block disturbs no other live record. */
  lemma MovedBytes(
    records: Records, larger: AllocationRecord, free: FreeList, bump: nat, bytes: seq<byte>, idx: nat, size: nat)
    requires idx < |records| && records[idx].Some? && First(records, Vacant) < |records|
    requires HeapOk(records[First(records, Vacant) := Some(larger)], free, bump) && bump <= |bytes|
    requires AlignUp(size, WORD).Some? && larger.size == AlignUp(size, WORD).value
    requires larger.kind == Heap && larger.protection == READ_WRITE
    requires records[idx].value.size <= size <= larger.size
    ensures larger.Span().End() <= bump && records[idx].value.Span().End() <= bump
    ensures var slot := First(records, Vacant);
            var moved := records[idx].value;
            var after := records[slot := Some(larger)][idx := None];
            var afterBytes := Copied(bytes, moved.offset, larger.offset, moved.size);
            && Moved(records, after, bytes, afterBytes, idx, larger.owner, larger.offset, size)
            && OthersKept(records, after, bytes, afterBytes, idx)
  {
    hide First, FreeAt, AlignUp, HeapOk;
    var slot := First(records, Vacant);
    var mid := records[slot := Some(larger)];
    var moved := records[idx].value;
    assert mid[idx] == records[idx] && mid[slot] == Some(larger);
    RecordInside(mid, free, bump, idx);
    RecordInside(mid, free, bump, slot);
    var afterBytes := Copied(bytes, moved.offset, larger.offset, moved.size);
    forall i | 0 <= i < |records| && i != idx && records[i].Some?
      ensures SameBytes(bytes, afterBytes, records[i].value.Span())
    {
      assert mid[i] == records[i];
      RecordInside(mid, free, bump, i);
      RecordsApart(mid, free, bump, i, slot);
    }
  }

  /** With the larger block recorded, the old one is still found, and copying and freeing it moves it. */
  lemma ReadyToMove(
    records: Records, larger: AllocationRecord, free: FreeList, bump: nat, bytes: seq<byte>, idx: nat, offset: nat,
      size: nat)
    requires idx == First(records, OwnedAt(larger.owner, offset)) < |records| && First(records, Vacant) < |records|
    requires HeapOk(records[First(records, Vacant) := Some(larger)], free, bump) && bump <= |bytes|
    requires AlignUp(size, WORD).Some? && larger.size == AlignUp(size, WORD).value
    requires larger.kind == Heap && larger.protection == READ_WRITE
    requires records[idx].value.size <= size <= larger.size
    ensures var slot := First(records, Vacant);
            var moved, mid := records[idx].value, records[slot := Some(larger)];
            && First(mid, OwnedAt(larger.owner, offset)) == idx && mid[idx] == records[idx]
            && moved.offset + moved.size <= |bytes| && larger.offset + moved.size <= |bytes|
            && Apart(Region(moved.offset, moved.size), Region(larger.offset, moved.size))
            && (var afterBytes := Copied(bytes, moved.offset, larger.offset, moved.size);
                && Moved(records, mid[idx := None], bytes, afterBytes, idx, larger.owner, larger.offset, size)
                && OthersKept(records, mid[idx := None], bytes, afterBytes, idx))
  {
    hide First, FreeAt, HeapOk, AlignUp, Moved, OthersKept, Copied;
    var slot := First(records, Vacant);
    var mid := records[slot := Some(larger)];
    assert slot != idx && mid[idx] == records[idx] && mid[slot] == Some(larger);
    MovedBytes(records, larger, free, bump, bytes, idx, size);
    RecordInside(mid, free, bump, idx);
    RecordInside(mid, free, bump, slot);
    RecordsApart(mid, free, bump, idx, slot);
    FirstUnmoved(records, mid, larger.owner, offset, idx, slot);
  }

  predicate OwnedBy(owner: ProcessId, slot: Option<AllocationRecord>) {
    slot.Some? && slot.value.owner == owner
  }

  /** `after` is `before` with one more record, for a request of `size` rounded up to `unit`. */
  ghost predicate NewRecord(
    before: Records, after: Records, owner: ProcessId, offset: int, size: nat, unit: nat,
    kind: AllocationKind, protection: MemoryProtection)
    requires unit > 0
  {
    && offset >= 0
    && size > 0 && AlignUp(size, unit).Some?
    && var slot := First(before, Vacant);
    && slot < |before|
    && after == before[slot := Some(AllocationRecord(owner, offset, AlignUp(size, unit).value, kind, protection))]
  }

  /** The caller holds a record of the demanded kind and length at that offset. */
  predicate Releasable(
    records: Records, offset: Option<nat>, owner: ProcessId, kind: AllocationKind, minimumLength: nat)
  {
    offset.Some? &&
    var idx := First(records, OwnedAt(owner, offset.value));
    idx < |records| && records[idx].value.kind == kind && records[idx].value.size >= minimumLength
  }

  lemma PowerIsPositive(n: nat)
    requires IsPowerOfTwo(n)
    ensures n > 0
  {
  }

  lemma WordIsPowerOfTwo()
    ensures IsPowerOfTwo(WORD)
  {
    assert IsPowerOfTwo(2) && IsPowerOfTwo(4);
  }

  lemma PageIsPowerOfTwo()
    ensures IsPowerOfTwo(PAGE_SIZE)
  {
    assert IsPowerOfTwo(2) && IsPowerOfTwo(4) && IsPowerOfTwo(8) && IsPowerOfTwo(16);
    assert IsPowerOfTwo(32) && IsPowerOfTwo(64) && IsPowerOfTwo(128) && IsPowerOfTwo(256);
    assert IsPowerOfTwo(512) && IsPowerOfTwo(1024) && IsPowerOfTwo(2048);
  }

  lemma MultipleStays(size: nat)
    requires size % PAGE_SIZE == 0 && size + PAGE_SIZE <= TWO_64
    ensures AlignUp(size, PAGE_SIZE) == Some(size)
  {
  }

  lemma PagesAreWords(size: nat)
    requires size % PAGE_SIZE == 0
    ensures size % WORD == 0
  {
  }

  lemma RemovedIsOk(records: Records, free: FreeList, bump: nat, idx: nat)
    requires HeapOk(records, free, bump) && idx < |records| && records[idx].Some?
    ensures HeapOk(records[idx := None], free, bump)
    ensures forall i :: 0 <= i < |records| && i != idx && records[i].Some?
              ==> Apart(records[i].value.Span(), records[idx].value.Span())
  {
    var after := records[idx := None];
    assert forall i :: 0 <= i < |after| && after[i].Some? ==> i != idx && after[i] == records[i];
  }

  lemma MergeStep(free: FreeList, merged: Region, idx: nat)
    requires idx < |free|
    ensures free[idx].Some? && free[idx].value.End() == merged.offset ==>
              MergeFrom(free, merged, idx) == MergeFrom(free[idx := None], Union(free[idx].value, merged), idx + 1)
    ensures free[idx].Some? && free[idx].value.End() != merged.offset && merged.End() == free[idx].value.offset ==>
              MergeFrom(free, merged, idx) == MergeFrom(free[idx := None], Union(merged, free[idx].value), idx + 1)
    ensures free[idx].None? || (free[idx].value.End() != merged.offset && merged.End() != free[idx].value.offset) ==>
              MergeFrom(free, merged, idx) == MergeFrom(free, merged, idx + 1)
  {
  }

  /** Without a neighbour the pass changes nothing. */
  lemma MergeOfNone(before: FreeList, current: FreeList, r: Region, merged: Region, bump: nat)
    requires Merging(before, current, r, merged, |before|, bump)
    ensures !HasNeighbour(before, r) ==> merged == r && current == before
  {
  }

  lemma MergeEnds(free: FreeList, merged: Region)
    ensures MergeFrom(free, merged, |free|) == (free, merged)
  {
  }

  /** What a scan of the free list returns. */
  ghost function ListChoice(free: FreeList, base: nat, size: nat, align: nat): Option<nat>
    requires align > 0
  {
    var i := First(free, StopsScan(base, size, align));
    if i < |free| && Fits(base, size, align, free[i].value)
    then Some(AlignedOffset(base, free[i].value.offset, align))
    else None
  }

  /** Something of the region is left on either side of the block. */
  ghost predicate Splits(region: Region, block: Region) {
    region.offset < block.offset && block.End() < region.End()
  }

  const NOTHING := Region(0, 0)

  /** What lies behind the block in its region. */
  function FarEnd(region: Region, block: Region): Region
    requires block.End() <= region.End()
  {
    Region(block.End(), region.End() - block.End())
  }

  /** Exactly the bytes of `block` and of `lost` are no longer free. */
  ghost predicate Taken(before: FreeList, after: FreeList, block: Region, lost: Region) {
    forall x :: FreeAt(after, x) <==> FreeAt(before, x) && !block.Has(x) && !lost.Has(x)
  }

  /** The list once the scan has taken what it returns. */
  ghost function ListAfter(free: FreeList, base: nat, size: nat, align: nat): (r: FreeList)
    requires align > 0
    ensures |r| == |free|
  {
    var i := First(free, StopsScan(base, size, align));
    if i < |free| && Fits(base, size, align, free[i].value) then
      AlignedOffsetIsLeast(base, free[i].value.offset, align);
      CutOut(free, i, Region(AlignedOffset(base, free[i].value.offset, align), size))
    else free
  }

  /** What taking a block from the list loses: the far end of its region, if both ends are left and the list is full. */
  ghost function ListLoss(free: FreeList, base: nat, size: nat, align: nat): Region
    requires align > 0
  {
    var i := First(free, StopsScan(base, size, align));
    if ListLoses(free, base, size, align)
    then FarEnd(free[i].value, Region(AlignedOffset(base, free[i].value.offset, align), size))
    else NOTHING
  }

  /** Taking a block from the list loses something. */
  ghost predicate ListLoses(free: FreeList, base: nat, size: nat, align: nat)
    requires align > 0
  {
    var i := First(free, StopsScan(base, size, align));
    && i < |free| && Fits(base, size, align, free[i].value) && !HasVacancy(free)
    && Splits(free[i].value, Region(AlignedOffset(base, free[i].value.offset, align), size))
  }

  /** `block` was free and is not any more; nothing else became free, and if `kept` nothing was lost. */
  ghost predicate Carved(before: FreeList, after: FreeList, block: Region, kept: bool) {
    && (forall x :: block.Has(x) ==> FreeAt(before, x) && !FreeAt(after, x))
    && (forall x :: FreeAt(after, x) ==> FreeAt(before, x))
    && (kept ==> forall x :: FreeAt(before, x) && !block.Has(x) ==> FreeAt(after, x))
  }

  lemma FreeBelow(free: FreeList, bump: nat, i: nat)
    requires FreeOk(free, bump) && i < |free| && free[i].Some?
    ensures 0 < free[i].value.size && free[i].value.End() <= bump
  {
  }

  /** A piece of a free region neither overlaps nor touches the other free regions. */
  lemma PieceApart(free: FreeList, bump: nat, idx: nat, piece: Region)
    requires FreeOk(free, bump) && idx < |free| && free[idx].Some?
    requires free[idx].value.offset <= piece.offset && piece.End() <= free[idx].value.End()
    ensures piece.End() <= bump
    ensures FreeOk(free[idx := None], bump)
    ensures ApartFromAll(free[idx := None], piece) && !HasNeighbour(free[idx := None], piece)
  {
    var rest := free[idx := None];
    forall i | 0 <= i < |rest| && rest[i].Some?
      ensures Gap(rest[i].value, free[idx].value)
    {
      assert rest[i] == free[i] && i != idx;
    }
  }

  lemma VacatedSlot(free: FreeList, idx: nat)
    requires idx < |free|
    ensures HasVacancy(free[idx := None])
  {
    assert free[idx := None][idx].None?;
  }

  lemma InsertedNothing(free: FreeList, region: Region)
    ensures region.size == 0 ==> Inserted(free, region) == free && Gains(free, free, region)
  {
  }

  /** Taking a region out and a piece of it in leaves a vacancy exactly when there was one. */
  lemma RefilledList(free: FreeList, idx: nat, piece: Region)
    requires idx < |free| && free[idx].Some?
    ensures var rest := free[idx := None];
            && First(rest, Vacant) < |free|
            && (HasVacancy(rest[First(rest, Vacant) := Some(piece)]) <==> HasVacancy(free))
  {
    hide First;
    var rest := free[idx := None];
    var v := First(rest, Vacant);
    assert rest[idx].None?;
    var after := rest[v := Some(piece)];
    if HasVacancy(free) {
      var k :| 0 <= k < |free| && free[k].None?;
      assert rest[k].None? && k != idx;
      assert after[k].None? || after[idx].None?;
    } else {
      assert forall k :: 0 <= k < |after| ==> after[k].Some?;
    }
  }

  lemma BeforeApart(rest: FreeList, before: Region, after: Region)
    requires HasVacancy(rest) && before.End() < after.offset
    requires ApartFromAll(rest, after) && !HasNeighbour(rest, after)
    ensures var mid := rest[First(rest, Vacant) := Some(before)];
            ApartFromAll(mid, after) && !HasNeighbour(mid, after)
  {
    hide First;
    var v := First(rest, Vacant);
    var mid := rest[v := Some(before)];
    forall i | 0 <= i < |mid| && mid[i].Some?
      ensures Apart(mid[i].value, after)
      ensures mid[i].value.End() != after.offset && after.End() != mid[i].value.offset
    {
      assert i != v ==> mid[i] == rest[i];
    }
  }

  lemma CarvedBytes(
    free: FreeList, mid: FreeList, final: FreeList, bump: nat, idx: nat,
    before: Region, block: Region, after: Region, kept: bool)
    requires FreeOk(free, bump) && idx < |free| && free[idx].Some?
    requires var region := free[idx].value;
             && before.offset == region.offset && before.End() == block.offset && block.End() == after.offset
             && after.End() == region.End() && block.size > 0
    requires Gains(free[idx := None], mid, before)
    requires if kept then Gains(mid, final, after) else final == mid
    ensures Carved(free, final, block, kept) && Taken(free, final, block, if kept then NOTHING else after)
  {
    PieceApart(free, bump, idx, block);
    ApartIsNotFree(free[idx := None], block);
    PieceApart(free, bump, idx, after);
    ApartIsNotFree(free[idx := None], after);
    forall x
      ensures block.Has(x) ==> FreeAt(free, x) && !FreeAt(final, x)
      ensures FreeAt(final, x) ==> FreeAt(free, x)
      ensures kept && FreeAt(free, x) && !block.Has(x) ==> FreeAt(final, x)
      ensures !kept ==> (FreeAt(final, x) <==> FreeAt(free, x) && !block.Has(x) && !after.Has(x))
    {
      RemoveFreeAt(free, idx, x);
    }
  }

  // ---------------------------------------------------------------------
  // Placement
  // ---------------------------------------------------------------------

  ghost function Placement(free: FreeList, base: nat, capacity: nat, bump: nat, size: nat, align: nat): Option<nat>
    requires align > 0
  {
    var choice := ListChoice(free, base, size, align);
    if choice.Some? then choice
    else
      var offset := AlignedOffset(base, bump, align);
      if offset + size <= capacity then Some(offset) else None
  }

  /** Where the bump pointer stands after a reservation. */
  ghost function BumpAfter(free: FreeList, base: nat, capacity: nat, bump: nat, size: nat, align: nat): nat
    requires align > 0
  {
    var offset := AlignedOffset(base, bump, align);
    if ListChoice(free, base, size, align).None? && offset + size <= capacity then offset + size else bump
  }

  /** The bump pointer stays, or moves to the end of the block at its first aligned place. */
  ghost predicate Bumped(before: nat, after: nat, base: nat, size: nat, align: nat)
    requires align > 0
  {
    after == before || after == AlignedOffset(base, before, align) + size
  }

  /** Where the bump tail has room, so has the heap, and not beyond its end. */
  lemma TailPlaces(free: FreeList, base: nat, capacity: nat, bump: nat, size: nat, align: nat)
    requires align > 0 && FreeOk(free, bump) && AlignedOffset(base, bump, align) + size <= capacity
    ensures Placement(free, base, capacity, bump, size, align).Some?
    ensures Placement(free, base, capacity, bump, size, align).value + size <= capacity
  {
    hide First, FreeOk;
    var i := First(free, StopsScan(base, size, align));
    if i < |free| && Fits(base, size, align, free[i].value) {
      FreeBelow(free, bump, i);
    }
  }

  function EmptySlot(slot: Option<Region>): nat {
    if slot.None? then 1 else 0
  }

  function OwnedSlot(owner: ProcessId): Option<AllocationRecord> -> nat {
    (slot: Option<AllocationRecord>) => if OwnedBy(owner, slot) then 1 else 0
  }

  /** `x` lies in one of the owner's first `n` records. */
  ghost predicate FreedAt(records: Records, n: nat, owner: ProcessId, x: nat)
    requires n <= |records|
  {
    exists i :: 0 <= i < n && OwnedBy(owner, records[i]) && records[i].value.Span().Has(x)
  }

  /** The list once the owner's first `n` records have been handed back one by one. */
  ghost function HandedBack(records: Records, free: FreeList, owner: ProcessId, n: nat): FreeList
    requires n <= |records|
  {
    if n == 0 then free
    else
      var list := HandedBack(records, free, owner, n - 1);
      if OwnedBy(owner, records[n - 1]) then Inserted(list, records[n - 1].value.Span()) else list
  }

  lemma FreedNone(records: Records, owner: ProcessId)
    ensures forall x: nat :: !FreedAt(records, 0, owner, x)
  {
  }

  lemma FreedStep(records: Records, n: nat, owner: ProcessId)
    requires n < |records|
    ensures forall x: nat :: FreedAt(records, n + 1, owner, x)
              <==> FreedAt(records, n, owner, x) || (OwnedBy(owner, records[n]) && records[n].value.Span().Has(x))
  {
  }

  lemma VacancyLeft(free: FreeList)
    ensures Sum(free, EmptySlot) > 0 ==> HasVacancy(free)
  {
    if !HasVacancy(free) {
      SumZero(free, EmptySlot);
    }
  }

  ghost predicate SameKind(a: Backing, b: Backing) {
    a.Static? == b.Static? && a.Disabled? == b.Disabled?
  }

  // ---------------------------------------------------------------------
  // No byte goes missing
  // ---------------------------------------------------------------------

  /** `x` lies in a live record. */
  ghost predicate LiveAt(records: Records, x: nat) {
    exists i :: 0 <= i < |records| && records[i].Some? && records[i].value.Span().Has(x)
  }

  /** After placing `block` every byte is live or free that was before, and so is the block, except what is `lost`. */
  ghost predicate Accounted(
    records: Records, free: FreeList, after: Records, left: FreeList, block: Region, lost: Region)
  {
    forall x :: LiveAt(after, x) || FreeAt(left, x)
           <==> (LiveAt(records, x) || FreeAt(free, x) || block.Has(x)) && !lost.Has(x)
  }

  /**
   What an allocation loses: the far end of a region split by a full list, or the whole block if
   it comes from the bump tail, cannot be kept, and finds neither a vacancy nor a neighbour.
   */
  ghost function Loss(free: FreeList, base: nat, size: nat, align: nat, block: Region, granted: bool): Region
    requires align > 0
  {
    if !granted && ListChoice(free, base, size, align).None? && !HasVacancy(free) && !HasNeighbour(free, block)
    then block else ListLoss(free, base, size, align)
  }

  /** The backing store reaches up to `end`, growing by what the paging layer answers. */
  ghost predicate Backs(backing: Backing, end: nat, growth: Option<Layout>) {
    match backing
    case Static => true
    case Disabled => false
    case Virtual(_, capacity, _, _) =>
      end < TWO_64 && end <= capacity && AlignUp(end, PAGE_SIZE).Some? && growth.Some?
  }

  /** `block` has become free, unless the list was full and nothing touched it. */
  ghost predicate Returned(before: FreeList, after: FreeList, block: Region) {
    if HasVacancy(before) || HasNeighbour(before, block) then Gains(before, after, block) else after == before
  }

  /** `block` is below `bump`, not free, and apart from every live record. */
  ghost predicate Placed(records: Records, free: FreeList, bump: nat, block: Region) {
    && block.size > 0 && block.End() <= bump
    && NotFree(free, block)
    && forall i :: 0 <= i < |records| && records[i].Some? ==> Apart(records[i].value.Span(), block)
  }

  ghost predicate NothingFreed(before: FreeList, after: FreeList, block: Region, kept: bool) {
    && (forall x :: FreeAt(after, x) ==> FreeAt(before, x))
    && (kept ==> forall x :: FreeAt(before, x) && !block.Has(x) ==> FreeAt(after, x))
  }

  lemma CarvedIsPlaced(
    records: Records, before: FreeList, after: FreeList, bump: nat, block: Region, kept: bool)
    requires HeapOk(records, before, bump) && FreeOk(after, bump)
    requires block.size > 0 && Carved(before, after, block, kept)
    ensures HeapOk(records, after, bump)
    ensures Placed(records, after, bump, block)
    ensures NothingFreed(before, after, block, kept)
  {
    hide FreeAt;
    forall i | 0 <= i < |records| && records[i].Some?
      ensures NotFree(after, records[i].value.Span()) && Apart(records[i].value.Span(), block)
    {
      assert NotFree(before, records[i].value.Span());
      ApartByBytes(records[i].value.Span(), block);
    }
    assert block.Has(block.End() - 1);
    FreeIsBelow(before, bump, block.End() - 1);
  }

  lemma FreeIsBelow(free: FreeList, bump: nat, x: nat)
    requires FreeOk(free, bump) && FreeAt(free, x)
    ensures x < bump
  {
  }

  lemma BumpedIsPlaced(records: Records, free: FreeList, bump: nat, next: nat, block: Region)
    requires HeapOk(records, free, bump)
    requires block.size > 0 && bump <= block.offset && block.End() == next
    ensures HeapOk(records, free, next)
    ensures Placed(records, free, next, block)
    ensures NothingFreed(free, free, block, true)
  {
    hide FreeAt;
    forall x | block.Has(x)
      ensures !FreeAt(free, x)
    {
      if FreeAt(free, x) {
        FreeIsBelow(free, bump, x);
      }
    }
  }

  lemma LiveEntered(records: Records, slot: nat, record: AllocationRecord, x: nat)
    requires slot < |records| && records[slot].None?
    ensures LiveAt(records[slot := Some(record)], x) <==> LiveAt(records, x) || record.Span().Has(x)
  {
    var after := records[slot := Some(record)];
    if LiveAt(records, x) {
      var i :| 0 <= i < |records| && records[i].Some? && records[i].value.Span().Has(x);
      assert after[i] == records[i];
    }
    if LiveAt(after, x) {
      var i :| 0 <= i < |after| && after[i].Some? && after[i].value.Span().Has(x);
      assert i != slot ==> after[i] == records[i];
    }
    assert after[slot] == Some(record);
  }

  /** A byte that is free is not live. */
  lemma FreeIsNotLive(records: Records, free: FreeList, bump: nat, x: nat)
    requires HeapOk(records, free, bump) && FreeAt(free, x)
    ensures !LiveAt(records, x)
  {
  }

  /** What the list loses was free and is no part of the block. */
  lemma LossWasFree(free: FreeList, base: nat, size: nat, align: nat, x: nat)
    requires align > 0 && ListLoss(free, base, size, align).Has(x)
    ensures FreeAt(free, x) && ListChoice(free, base, size, align).Some?
    ensures !Region(ListChoice(free, base, size, align).value, size).Has(x)
  {
    hide First, HasVacancy;
    var i := First(free, StopsScan(base, size, align));
    AlignedOffsetIsLeast(base, free[i].value.offset, align);
    assert free[i].value.Has(x);
  }

  /** A granted block is live; nothing else has changed but the bytes lost. */
  lemma GrantAccounts(records: Records, free: FreeList, left: FreeList, bump: nat, base: nat, capacity: nat, size: nat,
                      align: nat, after: Records)
    requires align > 0 && HeapOk(records, free, bump) && Placement(free, base, capacity, bump, size, align).Some?
    requires var place := Placement(free, base, capacity, bump, size, align).value;
             var slot := First(records, Vacant);
             && Taken(free, left, Region(place, size), ListLoss(free, base, size, align))
             && slot < |records| == |after| && after[slot].Some? && after == records[slot := after[slot]]
             && after[slot].value.Span() == Region(place, size)
    ensures var block := Region(Placement(free, base, capacity, bump, size, align).value, size);
            Accounted(records, free, after, left, block, Loss(free, base, size, align, block, true))
  {
    hide First, FreeAt, LiveAt, HeapOk, ListLoss;
    var block := Region(Placement(free, base, capacity, bump, size, align).value, size);
    var lost := ListLoss(free, base, size, align);
    var slot := First(records, Vacant);
    forall x
      ensures LiveAt(after, x) || FreeAt(left, x)
         <==> (LiveAt(records, x) || FreeAt(free, x) || block.Has(x)) && !lost.Has(x)
    {
      LiveEntered(records, slot, after[slot].value, x);
      if lost.Has(x) {
        LossWasFree(free, base, size, align, x);
        FreeIsNotLive(records, free, bump, x);
      }
    }
  }

  /** A free byte next to a block that is not free belongs to a neighbour of it. */
  lemma AdjacentIsNeighbour(free: FreeList, block: Region, x: nat)
    requires block.size > 0 && NotFree(free, block) && FreeAt(free, x)
    requires x + 1 == block.offset || x == block.End()
    ensures HasNeighbour(free, block)
  {
    var i :| 0 <= i < |free| && free[i].Some? && free[i].value.Has(x);
    if free[i].value.Has(block.offset) {
      assert block.Has(block.offset) && FreeAt(free, block.offset);
    }
    if free[i].value.Has(block.End() - 1) {
      assert block.Has(block.End() - 1) && FreeAt(free, block.End() - 1);
    }
  }

  /** A block taken from the list finds its way back: a rest of its region, or the slot it leaves, is there. */
  lemma ListTakesBack(free: FreeList, base: nat, size: nat, align: nat)
    requires align > 0 && size > 0 && ListChoice(free, base, size, align).Some?
    requires var block := Region(ListChoice(free, base, size, align).value, size);
             var left := ListAfter(free, base, size, align);
             NotFree(left, block) && Taken(free, left, block, ListLoss(free, base, size, align))
    ensures var block := Region(ListChoice(free, base, size, align).value, size);
            var left := ListAfter(free, base, size, align);
            HasVacancy(left) || HasNeighbour(left, block)
  {
    hide First, FreeAt, HasNeighbour, HasVacancy, Inserted;
    var i := First(free, StopsScan(base, size, align));
    var region := free[i].value;
    AlignedOffsetIsLeast(base, region.offset, align);
    var block := Region(ListChoice(free, base, size, align).value, size);
    var left := ListAfter(free, base, size, align);
    if region.offset < block.offset {
      InRegion(free, i, block.offset - 1);
      AdjacentIsNeighbour(left, block, block.offset - 1);
    } else if block.End() < region.End() {
      InRegion(free, i, block.End());
      AdjacentIsNeighbour(left, block, block.End());
    } else {
      InsertedNothing(free[i := None], Region(region.offset, 0));
      InsertedNothing(free[i := None], Region(block.End(), 0));
      VacatedSlot(free, i);
    }
  }

  lemma InRegion(free: FreeList, i: nat, x: nat)
    requires i < |free| && free[i].Some? && free[i].value.Has(x)
    ensures FreeAt(free, x)
  {
  }

  /** A block handed back is free again, or lost if it came from the tail and the list cannot take it. */
  lemma RefusalAccounts(records: Records, free: FreeList, mid: FreeList, left: FreeList, bump: nat, next: nat,
                        base: nat,
                        capacity: nat, size: nat, align: nat)
    requires align > 0 && size > 0 && HeapOk(records, free, bump)
    requires Placement(free, base, capacity, bump, size, align).Some? && mid == ListAfter(free, base, size, align)
    requires var block := Region(Placement(free, base, capacity, bump, size, align).value, size);
             && Placed(records, mid, next, block) && Returned(mid, left, block)
             && Taken(free, mid, block, ListLoss(free, base, size, align))
    ensures var block := Region(Placement(free, base, capacity, bump, size, align).value, size);
            Accounted(records, free, records, left, block, Loss(free, base, size, align, block, false))
  {
    hide First, FreeAt, LiveAt, HeapOk, HasVacancy, HasNeighbour;
    var block := Region(Placement(free, base, capacity, bump, size, align).value, size);
    var lost := Loss(free, base, size, align, block, false);
    if ListChoice(free, base, size, align).Some? {
      hide ListAfter, ListLoss;
      ListTakesBack(free, base, size, align);
    } else {
      NoLossWithoutChoice(free, base, size, align);
      assert mid == free;
      hide ListAfter, ListLoss;
    }
    forall x
      ensures LiveAt(records, x) || FreeAt(left, x)
         <==> (LiveAt(records, x) || FreeAt(free, x) || block.Has(x)) && !lost.Has(x)
    {
      if ListLoss(free, base, size, align).Has(x) {
        LossWasFree(free, base, size, align, x);
        FreeIsNotLive(records, free, bump, x);
      }
      if block.Has(x) {
        PlacedIsNotLive(records, mid, next, block, x);
      }
    }
  }

  lemma PlacedIsNotLive(records: Records, free: FreeList, bump: nat, block: Region, x: nat)
    requires Placed(records, free, bump, block) && block.Has(x)
    ensures !LiveAt(records, x) && !FreeAt(free, x)
  {
  }

  /** Every byte below the bump pointer is live or free. */
  ghost predicate Tight(records: Records, free: FreeList, bump: nat) {
    forall x: nat :: x < bump ==> LiveAt(records, x) || FreeAt(free, x)
  }

  lemma KnownIsBelow(records: Records, free: FreeList, bump: nat, x: nat)
    requires HeapOk(records, free, bump) && (LiveAt(records, x) || FreeAt(free, x))
    ensures x < bump
  {
  }

  lemma ListPlacesBelow(free: FreeList, bump: nat, base: nat, size: nat, align: nat)
    requires align > 0 && FreeOk(free, bump)
    ensures ListChoice(free, base, size, align).Some? ==> ListChoice(free, base, size, align).value + size <= bump
    ensures ListLoss(free, base, size, align).End() <= bump
  {
    hide First, HasVacancy, FreeOk;
    var i := First(free, StopsScan(base, size, align));
    if i < |free| {
      AlignedOffsetIsLeast(base, free[i].value.offset, align);
      if free[i].Some? {
        FreeBelow(free, bump, i);
      }
    }
  }

  /** Placing a block at or above the bump pointer, or below it, keeps the heap tight if nothing is lost or skipped. */
  lemma PlacingKeepsTight(
    records: Records, free: FreeList, after: Records, left: FreeList, bump: nat, next: nat, block: Region, lost: Region)
    requires HeapOk(records, free, bump) && Tight(records, free, bump)
    requires Accounted(records, free, after, left, block, lost) && lost.End() <= next
    requires if next == bump then block.End() <= bump else bump <= block.offset && block.End() == next
    ensures Tight(after, left, next) <==> lost.size == 0 && (next == bump || block.offset == bump)
  {
    hide FreeAt, LiveAt, HeapOk;
    if lost.size > 0 {
      assert lost.Has(lost.offset) && lost.offset < next;
    } else if next != bump && block.offset > bump {
      assert !block.Has(bump);
      if LiveAt(records, bump) || FreeAt(free, bump) {
        KnownIsBelow(records, free, bump, bump);
      }
    }
  }

  /** An allocation, granted or refused, keeps the heap tight exactly when it neither loses nor skips a byte. */
  lemma AllocationKeepsTight(
    records: Records, free: FreeList, after: Records, left: FreeList, bump: nat, base: nat, capacity: nat,
    size: nat, align: nat, granted: bool)
    requires align > 0 && size > 0 && HeapOk(records, free, bump) && Tight(records, free, bump)
    requires Placement(free, base, capacity, bump, size, align).Some?
    requires var block := Region(Placement(free, base, capacity, bump, size, align).value, size);
             Accounted(records, free, after, left, block, Loss(free, base, size, align, block, granted))
    ensures var block := Region(Placement(free, base, capacity, bump, size, align).value, size);
            Tight(after, left, BumpAfter(free, base, capacity, bump, size, align))
            <==> && Loss(free, base, size, align, block, granted).size == 0
                 && (ListChoice(free, base, size, align).Some? || AlignedOffset(base, bump, align) == bump)
  {
    hide First, HeapOk, ListLoss, HasVacancy, HasNeighbour, Accounted, Tight, AlignedOffset, AlignedAt, ListChoice;
    HeapIsFree(records, free, bump);
    ListPlacesBelow(free, bump, base, size, align);
    OffsetIsAbove(base, bump, align);
    var block := Region(Placement(free, base, capacity, bump, size, align).value, size);
    var lost := Loss(free, base, size, align, block, granted);
    PlacingKeepsTight(records, free, after, left, bump, BumpAfter(free, base, capacity, bump, size, align), block,
                      lost);
  }

  lemma HeapIsFree(records: Records, free: FreeList, bump: nat)
    requires HeapOk(records, free, bump)
    ensures FreeOk(free, bump)
  {
  }

  lemma OffsetIsAbove(base: nat, low: nat, align: nat)
    requires align > 0
    ensures low <= AlignedOffset(base, low, align)
  {
    AlignedOffsetIsLeast(base, low, align);
  }

  /** Releasing a record keeps the heap tight exactly when the free list takes it. */
  lemma ReleaseKeepsTight(records: Records, free: FreeList, left: FreeList, bump: nat, idx: nat)
    requires HeapOk(records, free, bump) && Tight(records, free, bump) && idx < |records| && records[idx].Some?
    requires Returned(free, left, records[idx].value.Span())
    ensures Tight(records[idx := None], left, bump)
       <==> HasVacancy(free) || HasNeighbour(free, records[idx].value.Span())
  {
    hide HasVacancy, HasNeighbour, FreeAt;
    var span := records[idx].value.Span();
    var after := records[idx := None];
    RemovedIsOk(records, free, bump, idx);
    assert after[idx := records[idx]] == records;
    RecordInside(records, free, bump, idx);
    hide HeapOk;
    forall x
      ensures LiveAt(records, x) <==> LiveAt(after, x) || span.Has(x)
    {
      LiveEntered(after, idx, records[idx].value, x);
    }
    PlacedApart(records, free, bump, idx);
    hide LiveAt;
    if !(HasVacancy(free) || HasNeighbour(free, span)) {
      assert span.Has(span.offset);
    }
  }

  lemma PlacedApart(records: Records, free: FreeList, bump: nat, idx: nat)
    requires HeapOk(records, free, bump) && idx < |records| && records[idx].Some?
    ensures var span := records[idx].value.Span();
            forall x :: span.Has(x) ==> !LiveAt(records[idx := None], x) && !FreeAt(free, x)
  {
    RemovedIsOk(records, free, bump, idx);
    var span := records[idx].value.Span();
    assert NotFree(free, span);
    hide HeapOk, FreeAt;
    var after := records[idx := None];
    assert forall i :: 0 <= i < |after| && after[i].Some? ==> i != idx && after[i] == records[i];
  }

  lemma NoLossWithoutChoice(free: FreeList, base: nat, size: nat, align: nat)
    requires align > 0
    ensures ListChoice(free, base, size, align).None? ==>
              ListLoss(free, base, size, align) == NOTHING && !ListLoses(free, base, size, align)
  {
    hide First;
  }

  lemma TakenFromTail(free: FreeList, block: Region)
    requires NotFree(free, block)
    ensures Taken(free, free, block, NOTHING)
  {
  }

  lemma ChoiceAligned(free: FreeList, base: nat, size: nat, align: nat)
    requires align > 0 && ListChoice(free, base, size, align).Some?
    ensures AlignedAt(base, ListChoice(free, base, size, align).value, align)
  {
    hide First;
    var i := First(free, StopsScan(base, size, align));
    AlignedOffsetIsLeast(base, free[i].value.offset, align);
  }

  /** Recording a placed block keeps the heap invariant. */
  lemma RecordedIsOk(records: Records, free: FreeList, bump: nat, slot: nat, record: AllocationRecord)
    requires HeapOk(records, free, bump) && slot < |records| && records[slot].None?
    requires Placed(records, free, bump, record.Span()) && record.size % WORD == 0
    ensures HeapOk(records[slot := Some(record)], free, bump)
  {
    hide FreeAt;
    var after := records[slot := Some(record)];
    forall i | 0 <= i < |after| && after[i].Some?
      ensures 0 < after[i].value.size && after[i].value.size % WORD == 0 && after[i].value.Span().End() <= bump
      ensures NotFree(free, after[i].value.Span())
    {
      assert i != slot ==> after[i] == records[i];
    }
    forall i, j | 0 <= i < |after| && 0 <= j < |after| && i != j && after[i].Some? && after[j].Some?
      ensures Apart(after[i].value.Span(), after[j].value.Span())
    {
      assert i != slot ==> after[i] == records[i];
      assert j != slot ==> after[j] == records[j];
    }
  }

  /** Freeing a block that is apart from every live record keeps the heap invariant. */
  lemma GainedIsOk(records: Records, before: FreeList, after: FreeList, bump: nat, block: Region, kept: bool)
    requires HeapOk(records, before, bump) && FreeOk(after, bump)
    requires if kept then Gains(before, after, block) else after == before
    requires forall i :: 0 <= i < |records| && records[i].Some? ==> Apart(records[i].value.Span(), block)
    ensures HeapOk(records, after, bump)
  {
    hide FreeAt;
    forall i | 0 <= i < |records| && records[i].Some?
      ensures NotFree(after, records[i].value.Span())
    {
      assert NotFree(before, records[i].value.Span());
    }
  }

  lemma CounterBounded(records: Records, free: FreeList, bump: nat)
    requires HeapOk(records, free, bump)
    ensures Sum(records, SizeOf) <= bump
  {
    LiveSumBounded(records, bump);
  }

  // ---------------------------------------------------------------------
  // Completeness of `reserve`
  // ---------------------------------------------------------------------

  /** Some aligned block of `size` bytes lies between `low` and `high`. */
  ghost predicate Room(base: nat, size: nat, align: nat, low: nat, high: nat)
    requires align > 0
  {
    exists o: nat :: low <= o && AlignedAt(base, o, align) && o + size <= high
  }

  ghost predicate Overflows(base: nat, size: nat, align: nat, slot: Option<Region>)
    requires align > 0
  {
    slot.Some? && AlignedOffset(base, slot.value.offset, align) + size >= TWO_64
  }

  lemma RoomIsFirstPlace(base: nat, size: nat, align: nat, low: nat, high: nat)
    requires align > 0
    ensures Room(base, size, align, low, high) <==> AlignedOffset(base, low, align) + size <= high
  {
    AlignedOffsetIsLeast(base, low, align);
  }

  /**
   A reservation fails exactly when the bump tail has no room and every free region
   that has room stands behind one whose padded end overflows the address type.
   */
  lemma ReserveFailsExactly(free: FreeList, base: nat, capacity: nat, bump: nat, size: nat, align: nat)
    requires align > 0 && FreeOk(free, bump) && bump < TWO_64
    ensures Placement(free, base, capacity, bump, size, align).None?
       <==> && !Room(base, size, align, bump, capacity)
            && (forall i :: 0 <= i < |free| && free[i].Some?
                            && Room(base, size, align, free[i].value.offset, free[i].value.End())
                  ==> exists j :: 0 <= j < i && Overflows(base, size, align, free[j]))
  {
    hide First, AlignedOffset, Room, FreeOk;
    RoomIsFirstPlace(base, size, align, bump, capacity);
    var stop := First(free, StopsScan(base, size, align));
    forall i | 0 <= i < |free| && free[i].Some?
      ensures Room(base, size, align, free[i].value.offset, free[i].value.End())
              <==> Fits(base, size, align, free[i].value)
      ensures free[i].value.End() < TWO_64
    {
      RoomIsFirstPlace(base, size, align, free[i].value.offset, free[i].value.End());
      FreeBelow(free, bump, i);
    }
    if stop < |free| && !Fits(base, size, align, free[stop].value) {
      assert Overflows(base, size, align, free[stop]);
    }
  }

  /** While the request stays clear of the end of the address space, nothing cuts the scan short. */
  lemma ReserveComplete(free: FreeList, base: nat, capacity: nat, bump: nat, size: nat, align: nat)
    requires align > 0 && FreeOk(free, bump) && bump + align + size <= TWO_64
    ensures Placement(free, base, capacity, bump, size, align).None?
       <==> && !Room(base, size, align, bump, capacity)
            && (forall i :: 0 <= i < |free| && free[i].Some?
                  ==> !Room(base, size, align, free[i].value.offset, free[i].value.End()))
  {
    hide Room, Placement, FreeOk;
    ReserveFailsExactly(free, base, capacity, bump, size, align);
    forall j | 0 <= j < |free| && free[j].Some?
      ensures !Overflows(base, size, align, free[j])
    {
      FreeBelow(free, bump, j);
    }
  }

  /** Otherwise it can be: the second region has room, and the reservation still fails. */
  lemma ScanCutShort()
    ensures var free := [Some(Region(TWO_64 - 48, 8)), Some(Region(0, 64))];
            var base, bump := 8, TWO_64 - 24;
            && base + bump < TWO_64 && FreeOk(free, bump)
            && Fits(base, 64, WORD, free[1].value)
            && Placement(free, base, bump, bump, 64, WORD).None?
  {
    hide First;
    var free := [Some(Region(TWO_64 - 48, 8)), Some(Region(0, 64))];
    assert StopsScan(8, 64, WORD)(free[0]);
    FirstIs(free, StopsScan(8, 64, WORD), 0);
  }
}
