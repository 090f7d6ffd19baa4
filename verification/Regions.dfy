/** Intervals of heap offsets and the coalescing free list (`src/kernel/memory.rs`). */
module Regions {
  import opened Prelude

  datatype Region = Region(offset: nat, size: nat) {
    function End(): nat {
      offset + size
    }

    ghost predicate Has(x: nat) {
      offset <= x < End()
    }
  }

  type FreeList = seq<Option<Region>>

  /** No byte in common. */
  ghost predicate Apart(a: Region, b: Region) {
    a.End() <= b.offset || b.End() <= a.offset
  }

  /** No byte in common, and not even touching. */
  ghost predicate Gap(a: Region, b: Region) {
    a.End() < b.offset || b.End() < a.offset
  }

  /** Free regions are non-empty, lie below `bump`, and no two of them touch. */
  ghost predicate FreeOk(free: FreeList, bump: nat) {
    && (forall i :: 0 <= i < |free| && free[i].Some? ==> 0 < free[i].value.size && free[i].value.End() <= bump)
    && (forall i, j :: 0 <= i < |free| && 0 <= j < |free| && i != j && free[i].Some? && free[j].Some?
          ==> Gap(free[i].value, free[j].value))
  }

  /** `x` lies in some free region. */
  ghost predicate FreeAt(free: FreeList, x: nat) {
    exists i :: 0 <= i < |free| && free[i].Some? && free[i].value.Has(x)
  }

  ghost predicate ApartFromAll(free: FreeList, r: Region) {
    forall i :: 0 <= i < |free| && free[i].Some? ==> Apart(free[i].value, r)
  }

  ghost predicate HasVacancy(free: FreeList) {
    exists i :: 0 <= i < |free| && free[i].None?
  }

  /** Some free region ends where `r` starts or starts where `r` ends. */
  ghost predicate HasNeighbour(free: FreeList, r: Region) {
    exists i :: 0 <= i < |free| && free[i].Some?
                && (free[i].value.End() == r.offset || r.End() == free[i].value.offset)
  }

  /** The free bytes of `after` are those of `before` together with `r`. */
  ghost predicate Gains(before: FreeList, after: FreeList, r: Region) {
    forall x :: FreeAt(after, x) <==> FreeAt(before, x) || r.Has(x)
  }

  // ---------------------------------------------------------------------
  // The one-pass merge of `insert_free_region`
  // ---------------------------------------------------------------------

  /**
   After `idx` slots: `merged` holds `r` and its neighbours among them, the
   regions passed over do not touch `merged`, and the others do not overlap it.
   */
  ghost predicate Merging(before: FreeList, current: FreeList, r: Region, merged: Region, idx: nat, bump: nat) {
    && idx <= |current| == |before|
    && (forall k :: 0 <= k < |before| ==> current[k] == before[k] || (k < idx && current[k].None?))
    && merged.size > 0 && merged.End() <= bump
    && (forall k :: 0 <= k < idx && current[k].Some? ==> Gap(current[k].value, merged))
    && (forall k :: idx <= k < |current| && current[k].Some? ==> Apart(current[k].value, merged))
    && (forall x :: FreeAt(current, x) || merged.Has(x) <==> FreeAt(before, x) || r.Has(x))
    && (merged == r ==> current == before)
    && (merged != r ==> merged.size > r.size && HasVacancy(current) && HasNeighbour(before, r))
  }

  function Union(a: Region, b: Region): Region
    requires a.End() == b.offset
  {
    Region(a.offset, a.size + b.size)
  }

  lemma RemoveFreeAt(free: FreeList, idx: nat, x: nat)
    requires idx < |free| && free[idx].Some?
    ensures FreeAt(free, x) <==> FreeAt(free[idx := None], x) || free[idx].value.Has(x)
  {
    var rest := free[idx := None];
    if FreeAt(free, x) {
      var i :| 0 <= i < |free| && free[i].Some? && free[i].value.Has(x);
      assert i == idx || rest[i] == free[i];
    }
    if FreeAt(rest, x) {
      var i :| 0 <= i < |rest| && rest[i].Some? && rest[i].value.Has(x);
      assert free[i] == rest[i];
    }
  }

  lemma InsertFreeAt(free: FreeList, idx: nat, r: Region, x: nat)
    requires idx < |free| && free[idx].None?
    ensures FreeAt(free[idx := Some(r)], x) <==> FreeAt(free, x) || r.Has(x)
  {
    RemoveFreeAt(free[idx := Some(r)], idx, x);
    assert free[idx := Some(r)][idx := None] == free;
  }

  /** Absorbing a neighbour keeps the merge going: its far end touches nothing else. */
  lemma MergeAbsorbs(before: FreeList, current: FreeList, r: Region, merged: Region, idx: nat, bump: nat, next: Region)
    requires FreeOk(before, bump) && Merging(before, current, r, merged, idx, bump)
    requires idx < |current| && current[idx].Some?
    requires var found := current[idx].value;
             || (found.End() == merged.offset && next == Union(found, merged))
             || (merged.End() == found.offset && next == Union(merged, found))
    ensures Merging(before, current[idx := None], r, next, idx + 1, bump)
  {
    var found, rest := current[idx].value, current[idx := None];
    assert before[idx] == current[idx];
    forall k | 0 <= k < |rest| && rest[k].Some?
      ensures Apart(rest[k].value, next) && (k < idx + 1 ==> Gap(rest[k].value, next))
    {
      assert rest[k] == current[k] == before[k] && k != idx;
      assert Gap(before[k].value, before[idx].value);
    }
    forall x
      ensures FreeAt(rest, x) || next.Has(x) <==> FreeAt(before, x) || r.Has(x)
    {
      RemoveFreeAt(current, idx, x);
      assert next.Has(x) <==> merged.Has(x) || found.Has(x);
    }
    assert rest[idx].None?;
    assert merged == r ==> HasNeighbour(before, r);
  }

  lemma MergePasses(before: FreeList, current: FreeList, r: Region, merged: Region, idx: nat, bump: nat)
    requires Merging(before, current, r, merged, idx, bump)
    requires idx < |current|
    requires current[idx].Some? ==>
               current[idx].value.End() != merged.offset && merged.End() != current[idx].value.offset
    ensures Merging(before, current, r, merged, idx + 1, bump)
  {
  }

  /** A finished merge, stored in a vacant slot, leaves an untouching list again. */
  lemma MergeStores(before: FreeList, current: FreeList, r: Region, merged: Region, slot: nat, bump: nat)
    requires FreeOk(before, bump) && Merging(before, current, r, merged, |before|, bump)
    requires slot < |current| && current[slot].None?
    ensures FreeOk(current[slot := Some(merged)], bump)
    ensures Gains(before, current[slot := Some(merged)], r)
    ensures HasVacancy(before) || HasNeighbour(before, r)
  {
    var after := current[slot := Some(merged)];
    forall i, j | 0 <= i < |after| && 0 <= j < |after| && i != j && after[i].Some? && after[j].Some?
      ensures Gap(after[i].value, after[j].value)
    {
      assert i != slot ==> after[i] == current[i] == before[i];
      assert j != slot ==> after[j] == current[j] == before[j];
    }
    forall i | 0 <= i < |after| && after[i].Some?
      ensures 0 < after[i].value.size && after[i].value.End() <= bump
    {
      assert i != slot ==> after[i] == before[i];
    }
    forall x
      ensures FreeAt(after, x) <==> FreeAt(before, x) || r.Has(x)
    {
      InsertFreeAt(current, slot, merged, x);
    }
  }

  /** Only a region without neighbours, offered to a full list, is dropped. */
  lemma MergeDrops(before: FreeList, current: FreeList, r: Region, merged: Region, bump: nat)
    requires Merging(before, current, r, merged, |before|, bump)
    requires !HasVacancy(current)
    ensures current == before && !HasVacancy(before) && !HasNeighbour(before, r)
  {
    assert merged == r;
  }
}
