/**
 * Reference counts of open descriptions against the descriptor slots that name
 * them, across every table of the kernel.
 */
module KernelFiles {
  import opened Prelude
  import opened Tables
  import opened Descriptors
  import opened KernelSteps
  import opened KernelFrame

  function HeldBy(d: nat): Option<Pcb> -> nat {
    (slot: Option<Pcb>) => if slot.Some? then RefsIn(slot.value.files, d) else 0
  }

  /** How many descriptor slots of all processes, and of a table not entered yet, name description `d`. */
  ghost function Refs(procs: Procs, extra: Files, d: nat): nat {
    Sum(procs, HeldBy(d)) + RefsIn(extra, d)
  }

  function CountOf(counts: Counts, d: nat): nat {
    if IsOpen(counts, d) then counts[d].value else 0
  }

  /**
   * How the counts compare with the slots: at least as many, exactly as many, or more than those of one description.
   */
  datatype Claim = AtLeast | Exact | Above(description: nat)

  /** What is left of a claim when references may have been left behind. */
  function Unless(claim: Claim, leaked: bool): Claim {
    if claim.Exact? && leaked then AtLeast else claim
  }

  /** Every description is counted for at least the slots that name it, and as `claim` says. */
  ghost predicate Balanced(procs: Procs, extra: Files, counts: Counts, claim: Claim) {
    && CountsOk(counts)
    && forall d :: 0 <= d ==> Fair(Refs(procs, extra, d), CountOf(counts, d), claim, d)
  }

  ghost predicate Fair(refs: nat, count: nat, claim: Claim, d: nat) {
    refs <= count && (claim.Exact? ==> refs == count) && (claim == Above(d) ==> refs < count)
  }

  /** No slot names a closed description. */
  lemma NamedIsOpen(procs: Procs, extra: Files, counts: Counts, claim: Claim, i: nat, fd: nat)
    requires Balanced(procs, extra, counts, claim)
    requires i < |procs| && procs[i].Some? && fd < |procs[i].value.files| && procs[i].value.files[fd].Some?
    ensures IsOpen(counts, procs[i].value.files[fd].value.description)
  {
    hide Sum, RefsIn;
    var d := procs[i].value.files[fd].value.description;
    SumAtLeast(procs, HeldBy(d), i);
    RefsInPositive(procs[i].value.files, fd);
    assert Fair(Refs(procs, extra, d), CountOf(counts, d), claim, d);
  }

  lemma RefsBounded(procs: Procs, extra: Files, d: nat)
    requires TablesOk(procs) && |procs| <= MAX_PROCESSES && |extra| <= MAX_OPEN_FILES
    ensures Refs(procs, extra, d) <= MAX_PROCESSES * MAX_OPEN_FILES + MAX_OPEN_FILES < U16_MAX - MAX_OPEN_FILES
  {
    hide Sum, RefsIn;
    SumBound(procs, HeldBy(d), MAX_OPEN_FILES);
  }

  /** Moving a process between the table and the table in hand. */
  lemma TakeOut(procs: Procs, extra: Files, i: nat, counts: Counts, claim: Claim)
    requires i < |procs| && procs[i].Some? && (forall k :: 0 <= k < |extra| ==> extra[k].None?)
    requires Balanced(procs, extra, counts, claim)
    ensures Balanced(procs[i := None], procs[i].value.files, counts, claim)
  {
    hide Sum, RefsIn;
    var files := procs[i].value.files;
    forall d | 0 <= d
      ensures Refs(procs[i := None], files, d) == Refs(procs, extra, d)
    {
      SumUpdate(procs, HeldBy(d), i, None);
      RefsInEmpty(extra, d);
    }
  }

  lemma PutIn(procs: Procs, i: nat, p: Pcb, counts: Counts, claim: Claim)
    requires i < |procs| && procs[i].None? && Balanced(procs, p.files, counts, claim)
    ensures Balanced(procs[i := Some(p)], [], counts, claim)
  {
    hide Sum, RefsIn;
    forall d | 0 <= d
      ensures Refs(procs[i := Some(p)], [], d) == Refs(procs, p.files, d)
    {
      SumUpdate(procs, HeldBy(d), i, Some(p));
      RefsInNone(d);
    }
  }

  /** Processes that keep their files hold what they held. */
  lemma SameFilesBalance(p: Procs, q: Procs, extra: Files, counts: Counts, claim: Claim)
    requires SameFiles(p, q)
    requires Balanced(p, extra, counts, claim)
    ensures Balanced(q, extra, counts, claim)
  {
    hide Sum, RefsIn;
    forall d | 0 <= d
      ensures Refs(q, extra, d) == Refs(p, extra, d)
    {
      SumPointwise(p, q, HeldBy(d));
    }
  }

  // ---------------------------------------------------------------------
  // What each table operation does to the table in hand
  // ---------------------------------------------------------------------

  /** A table is copied and every description it names retained once more. */
  lemma RaiseBalances(procs: Procs, files: Files, counts: Counts, claim: Claim)
    requires TablesOk(procs) && |procs| <= MAX_PROCESSES && |files| == MAX_OPEN_FILES
    requires Balanced(procs, [], counts, claim)
    requires forall fd :: 0 <= fd < |files| && files[fd].Some? ==> IsOpen(counts, files[fd].value.description)
    ensures Balanced(procs, files, Raise(counts, files), claim)
  {
    hide Sum, RefsIn, Raise;
    var up := Raise(counts, files);
    forall d | 0 <= d
      ensures Fair(Refs(procs, files, d), CountOf(up, d), claim, d)
    {
      RefsInNone(d);
      RefsBounded(procs, [], d);
      assert Fair(Refs(procs, [], d), CountOf(counts, d), claim, d);
      if !IsOpen(counts, d) {
        UnnamedHasNoRefs(files, d);
      }
    }
  }

  lemma UnnamedHasNoRefs(files: Files, d: nat)
    requires forall fd :: 0 <= fd < |files| && files[fd].Some? ==> files[fd].value.description != d
    ensures RefsIn(files, d) == 0
  {
    hide Sum;
    SumZero(files, Names(d));
  }

  /** Part of the table in hand is released. */
  lemma DropBalances(procs: Procs, files: Files, kept: Files, gone: Files, counts: Counts, claim: Claim)
    requires Balanced(procs, files, counts, claim)
    requires forall d :: 0 <= d ==> RefsIn(files, d) == RefsIn(kept, d) + RefsIn(gone, d)
    ensures Balanced(procs, kept, Drop(counts, gone), claim)
  {
    hide Sum, RefsIn, Drop;
    var down := Drop(counts, gone);
    forall d | 0 <= d
      ensures Fair(Refs(procs, kept, d), CountOf(down, d), claim, d)
    {
      assert Fair(Refs(procs, files, d), CountOf(counts, d), claim, d);
      assert RefsIn(files, d) == RefsIn(kept, d) + RefsIn(gone, d);
    }
  }

  lemma DropAllBalances(procs: Procs, files: Files, counts: Counts, claim: Claim)
    requires Balanced(procs, files, counts, claim)
    ensures Balanced(procs, [], Drop(counts, files), claim)
  {
    hide Sum, RefsIn, Drop;
    forall d | 0 <= d
      ensures RefsIn(files, d) == RefsIn([], d) + RefsIn(files, d)
    {
      RefsInNone(d);
    }
    DropBalances(procs, files, [], files, counts, claim);
  }

  /** A fresh description enters a free slot. */
  lemma InsertBalances(procs: Procs, files: Files, fd: nat, slot: Descriptor, counts: Counts, claim: Claim)
    requires Balanced(procs, files, counts, claim)
    requires fd < |files| && files[fd].None?
    requires slot.description < |counts| && counts[slot.description].None?
    ensures Balanced(procs, files[fd := Some(slot)], counts[slot.description := Some(1)], claim)
  {
    hide Sum, RefsIn;
    var after := counts[slot.description := Some(1)];
    forall d | 0 <= d
      ensures Fair(Refs(procs, files[fd := Some(slot)], d), CountOf(after, d), claim, d)
    {
      assert Fair(Refs(procs, files, d), CountOf(counts, d), claim, d);
      RefsInUpdate(files, fd, Some(slot), d);
    }
  }

  /** A slot is emptied and its description closed once. */
  lemma CloseBalances(procs: Procs, files: Files, fd: nat, counts: Counts, claim: Claim)
    requires Balanced(procs, files, counts, claim) && fd < |files| && files[fd].Some?
    ensures Balanced(procs, files[fd := None], CloseOne(counts, files[fd].value.description), claim)
  {
    hide Sum, RefsIn;
    var after := CloseOne(counts, files[fd].value.description);
    forall d | 0 <= d
      ensures Fair(Refs(procs, files[fd := None], d), CountOf(after, d), claim, d)
    {
      assert Fair(Refs(procs, files, d), CountOf(counts, d), claim, d);
      RefsInUpdate(files, fd, None, d);
    }
  }

  /** A description already named enters another slot, whose old description, if any, is closed once. */
  lemma DuplicateBalances(procs: Procs, files: Files, fd: nat, to: nat, flag: bool, counts: Counts, claim: Claim)
    requires TablesOk(procs) && |procs| <= MAX_PROCESSES && |files| <= MAX_OPEN_FILES
    requires Balanced(procs, files, counts, claim) && fd < |files| && files[fd].Some? && to < |files|
    requires IsOpen(counts, files[fd].value.description)
    ensures var d := files[fd].value.description;
            var counts1 := Increment(counts, d);
            Balanced(procs, files[to := Some(Descriptor(d, flag))],
                     if files[to].Some? then CloseOne(counts1, files[to].value.description) else counts1, claim)
  {
    hide Sum, RefsIn;
    var named := files[fd].value.description;
    var counts1 := Increment(counts, named);
    var after := if files[to].Some? then CloseOne(counts1, files[to].value.description) else counts1;
    forall d | 0 <= d
      ensures Fair(Refs(procs, files[to := Some(Descriptor(named, flag))], d), CountOf(after, d), claim, d)
    {
      assert Fair(Refs(procs, files, d), CountOf(counts, d), claim, d);
      RefsInUpdate(files, to, Some(Descriptor(named, flag)), d);
      RefsBounded(procs, files, d);
    }
  }

  /** Raising a description and closing it once again changes nothing, short of saturation. */
  lemma RetryBalances(procs: Procs, counts: Counts, claim: Claim, d: nat)
    requires TablesOk(procs) && |procs| <= MAX_PROCESSES
    requires Balanced(procs, [], counts, claim) && IsOpen(counts, d)
    ensures Balanced(procs, [], CloseOne(Increment(counts, d), d), claim)
  {
    hide Sum, RefsIn;
    var after := CloseOne(Increment(counts, d), d);
    forall e | 0 <= e
      ensures Fair(Refs(procs, [], e), CountOf(after, e), claim, e)
    {
      assert Fair(Refs(procs, [], e), CountOf(counts, e), claim, e);
      RefsBounded(procs, [], e);
    }
  }
}
