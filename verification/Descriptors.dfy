/**
 * Descriptor tables of processes (`src/kernel/process.rs`) and the reference
 * counts of the open descriptions they name (`src/kernel/fs/file.rs`).
 */
module Descriptors {
  import opened Prelude
  import opened Tables

  const MAX_OPEN_FILES: nat := 64
  const U16_MAX: nat := 0xFFFF

  datatype Descriptor = Descriptor(description: nat, closeOnExec: bool)

  type Files = seq<Option<Descriptor>>

  /** The reference count of each open description; `None` where none is open. */
  type Counts = seq<Option<nat>>

  function NoFiles(): (r: Files)
    ensures |r| == MAX_OPEN_FILES && forall i :: 0 <= i < |r| ==> r[i].None?
  {
    seq(MAX_OPEN_FILES, i => None)
  }

  function Names(d: nat): Option<Descriptor> -> nat {
    (slot: Option<Descriptor>) => if slot.Some? && slot.value.description == d then 1 else 0
  }

  /** How many slots of a table name description `d`. */
  function RefsIn(files: Files, d: nat): (n: nat)
    ensures n <= |files|
  {
    hide Sum;
    SumBound(files, Names(d), 1);
    Sum(files, Names(d))
  }

  // ---------------------------------------------------------------------
  // One reference more or less
  // ---------------------------------------------------------------------

  function SaturatingInc(n: nat): nat {
    if n >= U16_MAX then U16_MAX else n + 1
  }

  predicate IsOpen(counts: Counts, d: nat) {
    d < |counts| && counts[d].Some?
  }

  /** `FileTable::increment_ref_count` on an open description. */
  function Increment(counts: Counts, d: nat): Counts
    requires IsOpen(counts, d)
  {
    counts[d := Some(SaturatingInc(counts[d].value))]
  }

  /** `FileTable::close`; closing what is not open changes nothing. */
  function CloseOne(counts: Counts, d: nat): Counts {
    if !IsOpen(counts, d) then counts
    else counts[d := if counts[d].value <= 1 then None else Some(counts[d].value - 1)]
  }

  // ---------------------------------------------------------------------
  // A whole table of references more or less
  // ---------------------------------------------------------------------

  function RaisedBy(count: Option<nat>, n: nat): Option<nat> {
    if count.None? then None else Some(if count.value + n >= U16_MAX then U16_MAX else count.value + n)
  }

  function LoweredBy(count: Option<nat>, n: nat): Option<nat> {
    if count.None? || (n > 0 && count.value <= n) then None else Some(count.value - n)
  }

  /** Each description raised by the references `files` holds to it. */
  function Raise(counts: Counts, files: Files): (r: Counts)
    ensures |r| == |counts|
    ensures forall d :: 0 <= d < |counts| ==> r[d] == RaisedBy(counts[d], RefsIn(files, d))
  {
    seq(|counts|, d requires 0 <= d < |counts| => RaisedBy(counts[d], RefsIn(files, d)))
  }

  /** Each description lowered by the references `files` holds to it, and closed at zero. */
  function Drop(counts: Counts, files: Files): (r: Counts)
    ensures |r| == |counts|
    ensures forall d :: 0 <= d < |counts| ==> r[d] == LoweredBy(counts[d], RefsIn(files, d))
  {
    seq(|counts|, d requires 0 <= d < |counts| => LoweredBy(counts[d], RefsIn(files, d)))
  }

  predicate Small(count: Option<nat>) {
    count.Some? ==> 1 <= count.value <= U16_MAX
  }

  /** Every count is positive and fits its field. */
  ghost predicate CountsOk(counts: Counts) {
    forall d :: 0 <= d < |counts| ==> Small(counts[d])
  }

  lemma RaiseAndDropAreOk(counts: Counts, files: Files)
    requires CountsOk(counts)
    ensures CountsOk(Raise(counts, files)) && CountsOk(Drop(counts, files))
  {
    hide RefsIn, Raise, Drop;
    var up, down := Raise(counts, files), Drop(counts, files);
    assert forall d :: 0 <= d < |counts| ==> Small(up[d]) && Small(down[d]);
  }

  lemma RefsInNone(d: nat)
    ensures RefsIn([], d) == 0
  {
  }

  lemma RefsInStep(files: Files, i: nat, d: nat)
    requires i < |files|
    ensures RefsIn(files[..i + 1], d) == RefsIn(files[..i], d) + Names(d)(files[i])
  {
    assert files[..i + 1][..i] == files[..i];
  }

  lemma RefsInUpdate(files: Files, i: nat, slot: Option<Descriptor>, d: nat)
    requires i < |files|
    ensures RefsIn(files[i := slot], d) + Names(d)(files[i]) == RefsIn(files, d) + Names(d)(slot)
  {
    hide Sum;
    SumUpdate(files, Names(d), i, slot);
  }

  lemma RefsInEmpty(files: Files, d: nat)
    requires forall i :: 0 <= i < |files| ==> files[i].None?
    ensures RefsIn(files, d) == 0
  {
    hide Sum;
    SumZero(files, Names(d));
  }

  lemma RefsInPositive(files: Files, i: nat)
    requires i < |files| && files[i].Some?
    ensures RefsIn(files, files[i].value.description) >= 1
  {
    hide Sum;
    SumAtLeast(files, Names(files[i].value.description), i);
  }

  /** One more slot raised. */
  lemma RaiseStep(counts: Counts, files: Files, i: nat)
    requires i < |files| && CountsOk(counts)
    ensures var here, next := Raise(counts, files[..i]), Raise(counts, files[..i + 1]);
            && |here| == |next| == |counts|
            && (files[i].None? || !IsOpen(counts, files[i].value.description) ==> next == here)
            && (files[i].Some? && IsOpen(counts, files[i].value.description) ==>
                  IsOpen(here, files[i].value.description) && next == Increment(here, files[i].value.description))
  {
    hide RefsIn, Raise;
    var here, next := Raise(counts, files[..i]), Raise(counts, files[..i + 1]);
    forall d | 0 <= d < |counts|
      ensures next[d] == RaisedBy(counts[d], RefsIn(files[..i], d) + Names(d)(files[i]))
    {
      RefsInStep(files, i, d);
    }
    if files[i].None? || !IsOpen(counts, files[i].value.description) {
      assert forall d :: 0 <= d < |counts| ==> next[d] == here[d];
    } else {
      var after := Increment(here, files[i].value.description);
      assert forall d :: 0 <= d < |counts| ==> next[d] == after[d];
    }
  }

  /** One more slot dropped. */
  lemma DropStep(counts: Counts, files: Files, i: nat)
    requires i < |files| && CountsOk(counts)
    ensures var here, next := Drop(counts, files[..i]), Drop(counts, files[..i + 1]);
            next == if files[i].Some? then CloseOne(here, files[i].value.description) else here
  {
    hide RefsIn, Drop;
    var here, next := Drop(counts, files[..i]), Drop(counts, files[..i + 1]);
    forall d | 0 <= d < |counts|
      ensures next[d] == LoweredBy(counts[d], RefsIn(files[..i], d) + Names(d)(files[i]))
    {
      RefsInStep(files, i, d);
    }
    var after := if files[i].Some? then CloseOne(here, files[i].value.description) else here;
    assert forall d :: 0 <= d < |counts| ==> next[d] == after[d];
  }

  lemma NothingMoves(counts: Counts, files: Files)
    requires CountsOk(counts) && forall i :: 0 <= i < |files| ==> files[i].None?
    ensures Raise(counts, files) == counts && Drop(counts, files) == counts
  {
    hide RefsIn, Raise, Drop;
    forall d | 0 <= d < |counts|
      ensures RefsIn(files, d) == 0
    {
      RefsInEmpty(files, d);
    }
  }

  /** No counter saturates when every description `files` names is retained once more per slot. */
  ghost predicate Fits(counts: Counts, files: Files) {
    forall d :: 0 <= d < |counts| && counts[d].Some? ==> counts[d].value + RefsIn(files, d) <= U16_MAX
  }

  /** Releasing what was just retained gives the counts back exactly when no counter saturated. */
  lemma DropUndoesRaise(counts: Counts, files: Files)
    requires CountsOk(counts) && |files| < U16_MAX
    ensures CountsOk(Raise(counts, files))
    ensures Drop(Raise(counts, files), files) == counts <==> Fits(counts, files)
  {
    hide RefsIn, Raise, Drop;
    var up := Raise(counts, files);
    var down := Drop(up, files);
    assert forall d :: 0 <= d < |counts| ==>
        (down[d] == counts[d] <==> (counts[d].Some? ==> counts[d].value + RefsIn(files, d) <= U16_MAX));
    assert Fits(counts, files) ==> down == counts;
  }
}
