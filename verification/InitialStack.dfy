/**
 The initial user stack that `execve` builds (`src/kernel/elf.rs`).

 Argument and environment strings arrive as what reading them from user memory
 yields: the bytes before the terminator, or `None` for a fault.
 */
module InitialStack {
  import opened Prelude

  const MAX_EXEC_ARGS: nat := 64

  datatype StackError = InvalidArgument

  type Strings = seq<Option<seq<byte>>>

  // ---------------------------------------------------------------------
  // Little-endian words
  // ---------------------------------------------------------------------

  function ToLe(value: nat, n: nat): (bytes: seq<byte>)
    ensures |bytes| == n
    decreases n
  {
    if n == 0 then [] else [value % 256] + ToLe(value / 256, n - 1)
  }

  function FromLe(bytes: seq<byte>): nat {
    if bytes == [] then 0 else
      var low: nat := bytes[0];
      low + 256 * FromLe(bytes[1..])
  }

  function Power256(n: nat): nat {
    if n == 0 then 1 else 256 * Power256(n - 1)
  }

  lemma {:induction false} LeRoundTrip(value: nat, n: nat)
    requires value < Power256(n)
    ensures FromLe(ToLe(value, n)) == value
    decreases n
  {
    if n > 0 {
      LeRoundTrip(value / 256, n - 1);
      assert ToLe(value, n)[1..] == ToLe(value / 256, n - 1);
    }
  }

  // ---------------------------------------------------------------------
  // The stack image: the bytes from the stack pointer to the top
  // ---------------------------------------------------------------------

  function Flatten(words: seq<nat>): (bytes: seq<byte>)
    ensures |bytes| == 8 * |words|
  {
    if words == [] then [] else ToLe(words[0], 8) + Flatten(words[1..])
  }

  lemma SliceBehind<T>(front: seq<T>, back: seq<T>, low: nat, high: nat)
    requires low <= high <= |back|
    ensures (front + back)[|front| + low..|front| + high] == back[low..high]
  {
  }

  lemma {:induction false} WordAt(words: seq<nat>, k: nat)
    requires k < |words|
    ensures Flatten(words)[8 * k..8 * k + 8] == ToLe(words[k], 8)
    decreases k
  {
    hide ToLe;
    var first, rest := ToLe(words[0], 8), Flatten(words[1..]);
    if k > 0 {
      WordAt(words[1..], k - 1);
      SliceBehind(first, rest, 8 * (k - 1), 8 * (k - 1) + 8);
    } else {
      assert (first + rest)[..8] == first;
    }
  }

  /** `image` with the strings pushed below it, the first one first. */
  ghost function WithStrings(strings: seq<seq<byte>>, image: seq<byte>): (r: seq<byte>)
    ensures |r| >= |image|
  {
    if strings == [] then image
    else strings[|strings| - 1] + [0] + WithStrings(strings[..|strings| - 1], image)
  }

  /** The address of each string under a stack that ends at `top`. */
  ghost function Pointers(strings: seq<seq<byte>>, image: seq<byte>, top: int): (r: seq<int>)
    ensures |r| == |strings|
  {
    if strings == [] then []
    else Pointers(strings[..|strings| - 1], image, top) + [top - |WithStrings(strings, image)|]
  }

  /** A NUL-terminated copy of `s` lies at `address` under the image that ends at `top`. */
  ghost predicate StringAt(image: seq<byte>, top: int, address: int, s: seq<byte>) {
    var from := address - (top - |image|);
    && 0 <= from && from + |s| + 1 <= |image|
    && image[from..from + |s|] == s
    && image[from + |s|] == 0
  }

  /** Pushing more below an image moves nothing that is in it. */
  lemma StringStays(below: seq<byte>, image: seq<byte>, top: int, address: int, s: seq<byte>)
    requires StringAt(image, top, address, s)
    ensures StringAt(below + image, top, address, s)
  {
    var from := address - (top - |image|);
    assert (below + image)[|below| + from..|below| + from + |s|] == image[from..from + |s|];
  }

  lemma {:induction false} StringsReadBack(strings: seq<seq<byte>>, image: seq<byte>, top: int, i: nat)
    requires i < |strings|
    ensures StringAt(WithStrings(strings, image), top, Pointers(strings, image, top)[i], strings[i])
    decreases |strings|
  {
    var n := |strings| - 1;
    var front := WithStrings(strings[..n], image);
    if i < n {
      StringsReadBack(strings[..n], image, top, i);
      StringStays(strings[n] + [0], front, top, Pointers(strings[..n], image, top)[i], strings[i]);
    } else {
      var whole := strings[n] + [0] + front;
      assert whole[..|strings[n]|] == strings[n];
    }
  }

  /** Earlier strings stay readable when more strings are pushed. */
  lemma {:induction false} StringSurvives(strings: seq<seq<byte>>, image: seq<byte>, top: int, address: int,
                                          s: seq<byte>)
    requires StringAt(image, top, address, s)
    ensures StringAt(WithStrings(strings, image), top, address, s)
    decreases |strings|
  {
    if strings != [] {
      var n := |strings| - 1;
      StringSurvives(strings[..n], image, top, address, s);
      StringStays(strings[n] + [0], WithStrings(strings[..n], image), top, address, s);
    }
  }

  ghost predicate AllRead(strings: Strings) {
    forall i :: 0 <= i < |strings| ==> strings[i].Some?
  }

  ghost function Texts(strings: Strings): (r: seq<seq<byte>>)
    requires AllRead(strings)
    ensures |r| == |strings|
    ensures forall i :: 0 <= i < |strings| ==> r[i] == strings[i].value
  {
    seq(|strings|, i requires 0 <= i < |strings| => strings[i].value)
  }

  class InitialStackBuilder {
    const memory: array<byte>
    const userBase: nat
    var sp: nat

    ghost predicate Valid()
      reads this
    {
      Bounded() && userBase <= sp
    }

    /** The stack pointer is not above the stack; aligning it may take it below. */
    ghost predicate Bounded()
      reads this
    {
      userBase + memory.Length < TWO_64 && sp <= userBase + memory.Length
    }

    ghost function Top(): nat {
      userBase + memory.Length
    }

    /** The bytes from the stack pointer to the top. */
    ghost function Image(): (r: seq<byte>)
      requires Valid()
      reads this, memory
      ensures |r| == Top() - sp
    {
      memory[sp - userBase..]
    }

    constructor (stack: array<byte>, base: nat)
      requires base + stack.Length < TWO_64
      ensures Valid() && memory == stack && userBase == base && Image() == []
    {
      memory, userBase, sp := stack, base, base + stack.Length;
    }

    predicate EnsureInStack(address: nat, length: nat)
      reads this
    {
      userBase <= address && address + length < TWO_64 && address + length <= userBase + memory.Length
    }

    /** Move the stack pointer down over `bytes`, if they fit. */
    method PushBytes(bytes: seq<byte>) returns (ok: bool)
      requires Bounded()
      modifies this`sp, memory
      ensures ok == (|bytes| <= old(sp) - userBase)
      ensures ok ==> old(Valid()) && Valid() && Image() == bytes + old(Image())
    {
      if sp < |bytes| {
        return false;
      }
      sp := sp - |bytes|;
      if !EnsureInStack(sp, |bytes|) {
        return false;
      }
      var offset := sp - userBase;
      ghost var above := memory[offset + |bytes|..];
      forall k | 0 <= k < |bytes| {
        memory[offset + k] := bytes[k];
      }
      assert memory[offset..] == bytes + above;
      return true;
    }

    method PushU64(value: nat) returns (ok: bool)
      requires Bounded() && value < TWO_64
      modifies this`sp, memory
      ensures ok == (8 <= old(sp) - userBase)
      ensures ok ==> old(Valid()) && Valid() && Image() == ToLe(value, 8) + old(Image())
    {
      ok := PushBytes(ToLe(value, 8));
    }

    /** Copies the strings below each other, first one first, and returns their addresses. */
    method CopyVectorStrings(vector: Strings) returns (r: Result<seq<nat>, StackError>)
      requires Valid() && |vector| <= MAX_EXEC_ARGS
      modifies this`sp, memory
      ensures r.Ok? <==> AllRead(vector) && |WithStrings(Texts(vector), old(Image()))| <= memory.Length
      ensures r.Ok? ==> Valid() && Image() == WithStrings(Texts(vector), old(Image()))
      ensures r.Ok? ==> r.value == Pointers(Texts(vector), old(Image()), Top())
    {
      ghost var image := Image();
      var copied := [];
      var idx := 0;
      while idx < |vector|
        invariant Valid() && idx <= |vector| && AllRead(vector[..idx])
        invariant Image() == WithStrings(Texts(vector[..idx]), image)
        invariant copied == Pointers(Texts(vector[..idx]), image, Top())
      {
        if vector[idx].None? {
          return Err(InvalidArgument);
        }
        var bytes := vector[idx].value;
        ghost var sofar := Texts(vector[..idx]);
        assert AllRead(vector[..idx + 1]);
        assert Texts(vector[..idx + 1])[..idx] == sofar && Texts(vector[..idx + 1])[idx] == bytes;
        var ok := PushBytes(bytes + [0]);
        if !ok {
          if AllRead(vector) {
            StringsOnlyGrow(Texts(vector), image, idx + 1);
            assert Texts(vector)[..idx + 1] == Texts(vector[..idx + 1]);
          }
          return Err(InvalidArgument);
        }
        copied := copied + [sp];
        idx := idx + 1;
      }
      assert vector[..idx] == vector;
      return Ok(copied);
    }

    /** Pushes the words last one first, so that the first one ends up at the stack pointer. */
    method PushWords(words: seq<nat>) returns (ok: bool)
      requires Bounded() && words != [] && forall k :: 0 <= k < |words| ==> words[k] < TWO_64
      modifies this`sp, memory
      ensures ok == (8 * |words| <= old(sp) - userBase)
      ensures ok ==> old(Valid()) && Valid() && Image() == Flatten(words) + old(Image())
    {
      hide Flatten, ToLe;
      ghost var image := if Valid() then Image() else [];
      var idx := |words|;
      while idx > 0
        invariant Bounded() && 0 <= idx <= |words| && (idx < |words| ==> old(Valid()) && Valid())
        invariant Valid() ==> Image() == Flatten(words[idx..]) + image
        invariant old(sp) - sp == 8 * (|words| - idx)
      {
        idx := idx - 1;
        FlattenSplit(words, idx);
        Associative(ToLe(words[idx], 8), Flatten(words[idx + 1..]), image);
        ok := PushU64(words[idx]);
        if !ok {
          return false;
        }
      }
      assert words[0..] == words;
      ok := true;
    }

    /**
     Align, then lay out argc, argv, NULL, envp, NULL and a null auxiliary pair upwards from
     the returned stack pointer. It fails exactly when the words do not fit.
     */
    method Finish(argv: seq<nat>, envp: seq<nat>) returns (r: Result<nat, StackError>)
      requires Valid() && |argv| <= MAX_EXEC_ARGS && |envp| <= MAX_EXEC_ARGS
      requires forall k :: 0 <= k < |argv| ==> argv[k] < TWO_64
      requires forall k :: 0 <= k < |envp| ==> envp[k] < TWO_64
      modifies this`sp, memory
      ensures r.Ok? <==> 8 * (|argv| + |envp| + 5) <= old(sp) - old(sp) % 16 - userBase
      ensures r.Ok? ==>
                && Valid() && r.value == sp == old(sp) - old(sp) % 16 - 8 * (|argv| + |envp| + 5)
                && LaidOut(Image(), Flatten(Layout(argv, envp)), old(sp) % 16, old(Image()))
    {
      hide Flatten, ToLe, Layout;
      LayoutWords(argv, envp);
      ghost var image := Image();
      ghost var start := sp;
      sp := sp - sp % 16;
      ghost var padding := if Valid() then memory[sp - userBase..start - userBase] else [];
      ghost var aligned := if Valid() then Image() else [];
      assert Valid() ==> aligned == padding + image;
      var ok := PushWords(Layout(argv, envp));
      assert ok ==> Image() == Flatten(Layout(argv, envp)) + aligned;
      return if ok then Ok(sp) else Err(InvalidArgument);
    }
  }

  /** The words, some padding, and what was there before. */
  ghost predicate LaidOut(image: seq<byte>, words: seq<byte>, gap: nat, before: seq<byte>) {
    exists padding: seq<byte> :: |padding| == gap && image == words + (padding + before)
  }

  /** The words of a finished stack, from the stack pointer upwards. */
  function Layout(argv: seq<nat>, envp: seq<nat>): seq<nat> {
    [|argv|] + argv + [0] + envp + [0, 0, 0]
  }

  lemma LayoutWords(argv: seq<nat>, envp: seq<nat>)
    requires |argv| < TWO_64
    requires forall k :: 0 <= k < |argv| ==> argv[k] < TWO_64
    requires forall k :: 0 <= k < |envp| ==> envp[k] < TWO_64
    ensures |Layout(argv, envp)| == |argv| + |envp| + 5
    ensures forall k :: 0 <= k < |Layout(argv, envp)| ==> Layout(argv, envp)[k] < TWO_64
  {
  }

  lemma FlattenSplit(words: seq<nat>, idx: nat)
    requires idx < |words|
    ensures Flatten(words[idx..]) == ToLe(words[idx], 8) + Flatten(words[idx + 1..])
  {
    hide ToLe;
    assert words[idx..][1..] == words[idx + 1..];
  }

  lemma Associative<T>(a: seq<T>, b: seq<T>, c: seq<T>)
    ensures a + (b + c) == (a + b) + c
  {
  }

  lemma {:induction false} StringsOnlyGrow(strings: seq<seq<byte>>, image: seq<byte>, some: nat)
    requires some <= |strings|
    ensures |WithStrings(strings, image)| >= |WithStrings(strings[..some], image)|
    decreases |strings|
  {
    if some < |strings| {
      var n := |strings| - 1;
      StringsOnlyGrow(strings[..n], image, some);
      assert strings[..n][..some] == strings[..some];
    } else {
      assert strings[..some] == strings;
    }
  }

  // ---------------------------------------------------------------------
  // The whole stack
  // ---------------------------------------------------------------------

  ghost function WordFrom(image: seq<byte>, k: nat): nat
    requires 8 * k + 8 <= |image|
  {
    FromLe(image[8 * k..8 * k + 8])
  }

  /**
   Reading upwards from the stack pointer of an image that ends at `top`: argc, the argv
   pointers, NULL, the envp pointers, NULL and a null auxiliary pair; every pointer leads
   to a NUL-terminated copy of its string.
   */
  ghost predicate ReadsBack(image: seq<byte>, top: int, argv: seq<seq<byte>>, envp: seq<seq<byte>>) {
    var argc, envc := |argv|, |envp|;
    && 8 * (argc + envc + 5) <= |image|
    && WordFrom(image, 0) == argc
    && (forall i :: 0 <= i < argc ==> StringAt(image, top, WordFrom(image, 1 + i), argv[i]))
    && WordFrom(image, 1 + argc) == 0
    && (forall i :: 0 <= i < envc ==> StringAt(image, top, WordFrom(image, 2 + argc + i), envp[i]))
    && WordFrom(image, 2 + argc + envc) == 0
    && WordFrom(image, 3 + argc + envc) == 0
    && WordFrom(image, 4 + argc + envc) == 0
  }

  /** A word of the vector area, read back through the image. */
  lemma WordReads(words: seq<nat>, rest: seq<byte>, k: nat)
    requires k < |words| && words[k] < TWO_64
    ensures 8 * k + 8 <= |Flatten(words) + rest|
    ensures WordFrom(Flatten(words) + rest, k) == words[k]
  {
    hide Flatten, FromLe, ToLe;
    WordAt(words, k);
    assert (Flatten(words) + rest)[8 * k..8 * k + 8] == Flatten(words)[8 * k..8 * k + 8];
    EightBytes();
    LeRoundTrip(words[k], 8);
  }

  lemma EightBytes()
    ensures Power256(8) == TWO_64
  {
    assert Power256(4) == 0x1_0000_0000 && Power256(6) == 0x1_0000_0000_0000;
  }

  /** The words are in place and the strings above them stay readable. */
  lemma FinishedReadsBack(
    argv: seq<seq<byte>>, envp: seq<seq<byte>>, argvPtrs: seq<nat>, envpPtrs: seq<nat>, padding: seq<byte>, top: nat)
    requires argvPtrs == Pointers(argv, [], top)
    requires envpPtrs == Pointers(envp, WithStrings(argv, []), top)
    requires |argv| < TWO_64 && top < TWO_64
    requires forall k :: 0 <= k < |argvPtrs| ==> argvPtrs[k] < TWO_64
    requires forall k :: 0 <= k < |envpPtrs| ==> envpPtrs[k] < TWO_64
    ensures var strings := WithStrings(envp, WithStrings(argv, []));
            ReadsBack(Flatten(Layout(argvPtrs, envpPtrs)) + (padding + strings), top, argv, envp)
  {
    hide Flatten, WithStrings, Pointers, WordFrom, StringAt;
    var first := WithStrings(argv, []);
    var strings := WithStrings(envp, first);
    var words := Layout(argvPtrs, envpPtrs);
    var vectors := Flatten(words);
    var image := vectors + (padding + strings);
    var argc, envc := |argv|, |envp|;
    forall k | 0 <= k < |words|
      ensures WordFrom(image, k) == words[k]
    {
      WordReads(words, padding + strings, k);
    }
    forall i | 0 <= i < argc
      ensures StringAt(image, top, WordFrom(image, 1 + i), argv[i])
    {
      assert words[1 + i] == argvPtrs[i];
      StringsReadBack(argv, [], top, i);
      StringSurvives(envp, first, top, argvPtrs[i], argv[i]);
      StringStays(padding, strings, top, argvPtrs[i], argv[i]);
      StringStays(vectors, padding + strings, top, argvPtrs[i], argv[i]);
    }
    forall i | 0 <= i < envc
      ensures StringAt(image, top, WordFrom(image, 2 + argc + i), envp[i])
    {
      assert words[2 + argc + i] == envpPtrs[i];
      StringsReadBack(envp, first, top, i);
      StringStays(padding, strings, top, envpPtrs[i], envp[i]);
      StringStays(vectors, padding + strings, top, envpPtrs[i], envp[i]);
    }
  }

  /**
   `build_initial_stack` over a zeroed stack mapping. The result is aligned to 16 bytes, as
   section 3.4.1 of the System V ABI AMD64 supplement demands, exactly when the number of
   arguments and environment strings together is odd.
   */
  method BuildInitialStack(stack: array<byte>, base: nat, argv: Strings, envp: Strings)
    returns (r: Result<nat, StackError>)
    requires base + stack.Length < TWO_64
    requires |argv| <= MAX_EXEC_ARGS && |envp| <= MAX_EXEC_ARGS
    modifies stack
    ensures r.Ok? <==>
              && AllRead(argv) && AllRead(envp)
              && FitsStack(Texts(argv), Texts(envp), base, stack.Length)
    ensures r.Ok? ==>
              && base <= r.value <= base + stack.Length
              && ReadsBack(stack[r.value - base..], base + stack.Length, Texts(argv), Texts(envp))
              && (r.value % 16 == 0 <==> (|argv| + |envp|) % 2 == 1) && r.value % 8 == 0
  {
    hide WithStrings, Pointers, Flatten, ReadsBack, LaidOut, Layout;
    var builder := new InitialStackBuilder(stack, base);
    var argvPtrs := builder.CopyVectorStrings(argv);
    if argvPtrs.Err? {
      return Err(InvalidArgument);
    }
    ghost var first := builder.Image();
    PointersBounded(Texts(argv), [], builder.Top());
    var envpPtrs := builder.CopyVectorStrings(envp);
    if envpPtrs.Err? {
      return Err(InvalidArgument);
    }
    PointersBounded(Texts(envp), first, builder.Top());
    ghost var start := builder.sp;
    r := builder.Finish(argvPtrs.value, envpPtrs.value);
    if r.Ok? {
      Parity(start, |argv| + |envp|, r.value);
      LaidOutReadsBack(Texts(argv), Texts(envp), argvPtrs.value, envpPtrs.value, start % 16, builder.Image(),
                       builder.Top());
    }
  }

  lemma Parity(start: nat, n: nat, sp: nat)
    requires sp == start - start % 16 - 8 * (n + 5)
    ensures sp % 8 == 0 && (sp % 16 == 0 <==> n % 2 == 1)
  {
    var words := 2 * (start / 16) - n - 5;
    assert sp == 8 * words;
    EvenWords(words);
  }

  lemma EvenWords(words: int)
    ensures (8 * words) % 8 == 0 && ((8 * words) % 16 == 0 <==> words % 2 == 0)
  {
    var half, odd := words / 2, words % 2;
    assert 8 * words == 16 * half + 8 * odd;
  }

  lemma LaidOutReadsBack(
    argv: seq<seq<byte>>, envp: seq<seq<byte>>, argvPtrs: seq<nat>, envpPtrs: seq<nat>, gap: nat, image: seq<byte>,
      top: nat)
    requires argvPtrs == Pointers(argv, [], top)
    requires envpPtrs == Pointers(envp, WithStrings(argv, []), top)
    requires |argv| < TWO_64 && top < TWO_64
    requires forall k :: 0 <= k < |argvPtrs| ==> argvPtrs[k] < TWO_64
    requires forall k :: 0 <= k < |envpPtrs| ==> envpPtrs[k] < TWO_64
    requires LaidOut(image, Flatten(Layout(argvPtrs, envpPtrs)), gap, WithStrings(envp, WithStrings(argv, [])))
    ensures ReadsBack(image, top, argv, envp)
  {
    hide WithStrings, Pointers, Flatten, ReadsBack, Layout;
    var strings := WithStrings(envp, WithStrings(argv, []));
    var padding: seq<byte> :| |padding| == gap && image == Flatten(Layout(argvPtrs, envpPtrs)) + (padding + strings);
    FinishedReadsBack(argv, envp, argvPtrs, envpPtrs, padding, top);
  }

  /** The strings, the alignment padding and the vectors fit in `size` bytes above `base`. */
  ghost predicate FitsStack(argv: seq<seq<byte>>, envp: seq<seq<byte>>, base: nat, size: nat) {
    var strings := |WithStrings(envp, WithStrings(argv, []))|;
    && strings <= size
    && var sp := base + size - strings;
    8 * (|argv| + |envp| + 5) <= sp - sp % 16 - base
  }

  lemma {:induction false} PointersBounded(strings: seq<seq<byte>>, image: seq<byte>, top: int)
    ensures forall k :: 0 <= k < |strings| ==> Pointers(strings, image, top)[k] <= top
    decreases |strings|
  {
    if strings != [] {
      PointersBounded(strings[..|strings| - 1], image, top);
    }
  }

  lemma EmptyVectorsFit()
    ensures AllRead([]) && Texts([]) == [] && FitsStack([], [], 4096, 4096)
  {
  }

  lemma HalfAligned(sp: nat)
    requires sp % 8 == 0 && sp % 16 != 0
    ensures sp % 16 == 8
  {
  }

  /** A page of stack and no argument at all: the stack pointer is 8 bytes off a multiple of 16. */
  method EmptyVectorsMisalign() returns (stack: array<byte>, sp: nat)
    ensures fresh(stack) && stack.Length == 4096 && 4096 <= sp <= 8192
    ensures ReadsBack(stack[sp - 4096..], 8192, [], []) && sp % 16 == 8
  {
    hide ReadsBack, FitsStack, AllRead, Texts;
    stack := new byte[4096](_ => 0);
    EmptyVectorsFit();
    var r := BuildInitialStack(stack, 4096, [], []);
    sp := r.value;
    HalfAligned(sp);
  }
}
