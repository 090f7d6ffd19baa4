/** Inputs on which the heap and user memory do less than one would expect. */
module MemoryWitnesses {
  import opened Prelude
  import opened Tables
  import opened Regions
  import opened Alignment
  import opened Heap
  import opened Users = UserMemory

  // ---------------------------------------------------------------------
  // A full free list
  // ---------------------------------------------------------------------

  /** The only region is cut in the middle and there is no slot for its far end. */
  lemma SplitLosesEnd()
    ensures var free := [Some(Region(0, 24))];
            && FreeOk(free, 24) && ListChoice(free, 8, 8, 16) == Some(8)
            && ListLoses(free, 8, 8, 16) && ListLoss(free, 8, 8, 16) == Region(16, 8)
            && ListAfter(free, 8, 8, 16) == [Some(Region(0, 8))]
  {
    var free := [Some(Region(0, 24))];
    FirstIs(free, StopsScan(8, 8, 16), 0);
    CutInTheMiddle();
    hide First, Inserted;
  }

  lemma CutInTheMiddle()
    ensures CutOut([Some(Region(0, 24))], 0, Region(8, 8)) == [Some(Region(0, 8))]
  {
    var empty: FreeList := [None];
    assert [Some(Region(0, 24))][0 := None] == empty;
    FirstIs(empty, Vacant, 0);
    assert empty[0 := Some(Region(0, 8))] == [Some(Region(0, 8))];
    assert Inserted(empty, Region(0, 8)) == [Some(Region(0, 8))];
    FullListDrops();
  }

  /** A full list drops a region that touches none of its own. */
  lemma FullListDrops()
    ensures Inserted([Some(Region(0, 8))], Region(16, 8)) == [Some(Region(0, 8))]
  {
    FirstIs([Some(Region(0, 8))], Vacant, 1);
  }

  // ---------------------------------------------------------------------
  // Overlapping mappings
  // ---------------------------------------------------------------------

  const READ_ONLY := MemoryProtection(true, false, false)

  /** A page mapped for reading over `block` and once more for writing over `other`. */
  function TwiceMapped(block: nat, other: nat): Mappings {
    [Some(UserMapping(1, 4096, 8192, block, PAGE_SIZE, READ_ONLY)),
     Some(UserMapping(1, 4096, 8192, other, PAGE_SIZE, READ_WRITE))]
  }

  lemma TwiceMappedAnswers(block: nat, other: nat)
    ensures Translate(TwiceMapped(block, other), 4096, 8192, 1, false) == Some(block)
    ensures Translate(TwiceMapped(block, other), 4096, 8192, 1, true) == Some(other)
  {
    var table := TwiceMapped(block, other);
    FirstIs(table, Matches(4096, 8192, 1, false), 0);
    FirstIs(table, Matches(4096, 8192, 1, true), 1);
  }

  /** Maps the user page at 8192 once more. */
  method MapOnePage(user: UserMemory, protection: MemoryProtection) returns (block: nat)
    requires user.Valid()
    requires user.mm.Base() == 4096 && user.mm.Capacity() == 8192 && First(user.mappings, Vacant) < |user.mappings|
    requires First(user.mm.records, Vacant) < |user.mm.records|
    requires AlignedOffset(4096, user.mm.bumpOffset, PAGE_SIZE) + PAGE_SIZE <= 8192
    modifies user`mappings, user.mm`free, user.mm`bumpOffset, user.mm`backing, user.mm`records,
      user.mm`allocatedBytes, user.mm`peakBytes
    ensures user.Valid() && user.mm.Base() == 4096 && user.mm.Capacity() == 8192
    ensures user.mappings == old(user.mappings)[First(old(user.mappings), Vacant)
              := Some(UserMapping(1, 4096, 8192, block, PAGE_SIZE, protection))]
    ensures Entered(old(user.mappings), user.mappings, old(user.mm.records), user.mm.records, 4096, 4096)
    ensures TailUsed(old(user.mm.bumpOffset), user.mm.bumpOffset, 4096, PAGE_SIZE)
  {
    hide First, Sum, HeapOk, MappingsBacked, SpacesOk, AlignUp, MemoryManager.MallocResult, Entered, TailUsed;
    MultipleStays(PAGE_SIZE);
    user.mm.TailGrants(PAGE_SIZE, Some(Layout(0, 0)));
    var r := user.MmapUserFixed(1, 4096, 8192, PAGE_SIZE, protection, Some(Layout(0, 0)), (_: nat) => true);
    block := r.value;
  }

  /** One address space with a page mapped twice, over a heap of zeros. */
  method MapTwice() returns (user: UserMemory, ghost block: nat, ghost other: nat)
    ensures fresh(user) && fresh(user.mm) && user.Valid() && user.mm.Base() == 4096
    ensures user.mappings == TwiceMapped(block, other) && user.mm.bytes == seq(8192, _ => 0)
  {
    hide First, Sum, HeapOk, MappingsBacked, SpacesOk, AlignUp, MemoryManager.MallocResult;
    var mm := new MemoryManager(4096, 8192, 2);
    user := new UserMemory(mm, 1, 2);
    FirstIs(user.spaces, Vacant, 0);
    var root := user.CreateUserAddressSpace(1, Some(4096));
    FirstIs(user.mappings, Vacant, 0);
    FirstIs(mm.records, Vacant, 0);
    block := MapOnePage(user, READ_ONLY);
    FirstIs(user.mappings, Vacant, 1);
    FirstIs(mm.records, Vacant, 1);
    other := MapOnePage(user, READ_WRITE);
  }

  /** A page is mapped twice, first for reading only: a write to it succeeds and cannot be read. */
  method HiddenWrite() returns (user: UserMemory, before: Option<seq<byte>>, ok: bool, after: Option<seq<byte>>)
    ensures user.Valid() && exists block: nat, other: nat :: user.mappings == TwiceMapped(block, other)
    ensures before == after == Some([0]) && ok
    ensures ReadUser(user.mappings, user.mm.bytes, user.mm.Base(), 4096, 8192, 1) == after
  {
    hide First, Sum, HeapOk, MappingsBacked, SpacesOk, Translate, ReadUser, TwiceMapped;
    ghost var block, other;
    user, block, other := MapTwice();
    TwiceMappedAnswers(block, other);
    TwiceMappedApart(user, block, other);
    before := user.CopyFromUser(4096, 8192, 1);
    ok := user.CopyToUser(4096, 8192, [1]);
    after := user.CopyFromUser(4096, 8192, 1);
  }

  lemma TwiceMappedApart(user: UserMemory, block: nat, other: nat)
    requires user.Valid() && user.mappings == TwiceMapped(block, other) && user.mm.bytes == seq(8192, _ => 0)
    ensures block != other && ReadUser(user.mappings, user.mm.bytes, user.mm.Base(), 4096, 8192, 1) == Some([0])
  {
    hide First, Sum, HeapOk, SpacesOk, Translate;
    TwiceMappedAnswers(block, other);
    assert user.mappings[0].value.kernelStart != user.mappings[1].value.kernelStart;
    hide MappingsBacked;
    var i := TranslatedInside(user.mappings, user.mm.Base(), user.mm.records, user.mm.free, user.mm.bumpOffset, 4096,
                              8192, 1, false);
    var from := block - user.mm.Base();
    assert user.mm.bytes[from..from + 1] == [0];
  }

  // ---------------------------------------------------------------------
  // Shared and abandoned spaces
  // ---------------------------------------------------------------------

  /** A process maps a page, another one shares its space, and the first exits: the mapping has no block any more. */
  method SharedSpaceLosesBlocks() returns (user: UserMemory)
    ensures !user.Valid() && user.spaces == [Some(AddressSpace(1, 4096, 1))]
    ensures |user.mappings| == 1 && HasRoot(user.mappings[0], 4096)
    ensures forall j :: 0 <= j < |user.mm.records| ==> !OwnedBy(1, user.mm.records[j])
  {
    hide First, Sum, HeapOk, SpacesOk, AlignUp, MemoryManager.MallocResult, TornAway, ReadUser, MappingsBacked;
    var mm := new MemoryManager(4096, 8192, 1);
    user := new UserMemory(mm, 1, 1);
    FirstIs(user.spaces, Vacant, 0);
    FirstIs(user.mappings, Vacant, 0);
    FirstIs(mm.records, Vacant, 0);
    var root := user.CreateUserAddressSpace(1, Some(4096));
    var block := MapOnePage(user, READ_WRITE);
    FirstIs(user.spaces, SpaceOf(4096), 0);
    var shared := user.ShareUserAddressSpace(4096);
    assert OwnedMapping(user.mappings[0], 1) && !Torn(user.spaces, 1, 1, user.mappings[0]);
    user.ReleaseProcess(1);
  }

  /** A clone that finds no slot for the one mapping of the parent fails, and the child's space stays. */
  method AbandonedSpace() returns (user: UserMemory, r: Option<nat>)
    ensures user.Valid() && r.None?
    ensures user.spaces == [Some(AddressSpace(1, 4096, 1)), Some(AddressSpace(2, 12288, 1))]
  {
    hide First, Sum, HeapOk, SpacesOk, AlignUp, MemoryManager.MallocResult, ReadUser, MappingsBacked, Translate,
      Supplied, Abandoned;
    var mm := new MemoryManager(4096, 8192, 1);
    user := new UserMemory(mm, 2, 1);
    FirstIs(user.spaces, Vacant, 0);
    FirstIs(user.mappings, Vacant, 0);
    FirstIs(mm.records, Vacant, 0);
    var root := user.CreateUserAddressSpace(1, Some(4096));
    var block := MapOnePage(user, READ_WRITE);
    FirstIs(user.spaces, Vacant, 1);
    OneMappingIsTooMany(user.mappings);
    r := user.CloneUserAddressSpace(2, 4096, Some(12288), (_: nat) => Some(Layout(0, 0)), (_: nat, _: nat) => true);
  }

  lemma OneMappingIsTooMany(mappings: Mappings)
    requires |mappings| == 1 && HasRoot(mappings[0], 4096)
    ensures Sum(mappings, MapsIn(4096)) > Sum(mappings, OpenSlot)
  {
    hide Sum;
    SumAtLeast(mappings, MapsIn(4096), 0);
    SumZero(mappings, OpenSlot);
  }
}
