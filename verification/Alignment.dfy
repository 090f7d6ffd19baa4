/** Address alignment as `src/kernel/memory.rs` computes it. */
module Alignment {
  import opened Prelude

  predicate IsPowerOfTwo(n: nat) {
    n == 1 || (n > 1 && n % 2 == 0 && IsPowerOfTwo(n / 2))
  }

  /** The address `base + offset` is a multiple of `align`. */
  ghost predicate AlignedAt(base: nat, offset: nat, align: nat)
    requires align > 0
  {
    (base + offset) % align == 0
  }

  // Division by a variable: the few facts the proofs below need.

  lemma DivisionFacts(x: nat, n: nat)
    requires n > 0
    ensures x == n * (x / n) + x % n && 0 <= x % n < n
  {
  }

  lemma MultipleIsLarge(n: nat, k: nat)
    requires k > 0
    ensures n * k >= n
  {
    assert n * k == n * (k - 1) + n;
  }

  lemma QuotientNotBelow(n: nat, q1: nat, r1: nat, q2: nat, r2: nat)
    requires r1 < n && r2 < n && n * q1 + r1 == n * q2 + r2
    ensures q1 <= q2
  {
    if q1 > q2 {
      assert n * q1 == n * q2 + n * (q1 - q2);
      MultipleIsLarge(n, q1 - q2);
    }
  }

  /** A remainder below `n` on top of a multiple of `n` is the remainder. */
  lemma ModUnique(x: nat, n: nat, q: nat, r: nat)
    requires r < n && x == n * q + r
    ensures x % n == r
  {
    DivisionFacts(x, n);
    QuotientNotBelow(n, q, r, x / n, x % n);
    QuotientNotBelow(n, x / n, x % n, q, r);
  }

  // ---------------------------------------------------------------------
  // The next aligned offset
  // ---------------------------------------------------------------------

  /** The least offset at or above `minimum` whose address is a multiple of `align`. */
  function AlignedOffset(base: nat, minimum: nat, align: nat): (offset: nat)
    requires align > 0
    ensures minimum <= offset < minimum + align
  {
    minimum + (align - (base + minimum) % align) % align
  }

  /** The padding is what is missing to the next multiple. */
  lemma Padding(base: nat, minimum: nat, align: nat, q: nat, r: nat)
    requires r < align && base + minimum == align * q + r
    ensures AlignedOffset(base, minimum, align) == if r == 0 then minimum else minimum + align - r
  {
    ModUnique(base + minimum, align, q, r);
    if r == 0 {
      ModUnique(align, align, 1, 0);
    } else {
      ModUnique(align - r, align, 0, align - r);
    }
  }

  lemma NotAlignedBetween(base: nat, minimum: nat, align: nat, q: nat, r: nat, o: nat)
    requires 0 < r < align && base + minimum == align * q + r
    requires minimum <= o < minimum + align - r
    ensures !AlignedAt(base, o, align)
  {
    ModUnique(base + o, align, q, r + (o - minimum));
  }

  lemma AlignedOffsetIsLeast(base: nat, minimum: nat, align: nat)
    requires align > 0
    ensures AlignedAt(base, AlignedOffset(base, minimum, align), align)
    ensures forall o: nat :: minimum <= o && AlignedAt(base, o, align) ==> AlignedOffset(base, minimum, align) <= o
  {
    var x, offset := base + minimum, AlignedOffset(base, minimum, align);
    DivisionFacts(x, align);
    var q: nat, r: nat := x / align, x % align;
    Padding(base, minimum, align, q, r);
    if r > 0 {
      assert align * (q + 1) == align * q + align;
      ModUnique(base + offset, align, q + 1, 0);
      forall o: nat | minimum <= o && AlignedAt(base, o, align)
        ensures offset <= o
      {
        if o < offset {
          NotAlignedBetween(base, minimum, align, q, r, o);
        }
      }
    }
  }

  /** `aligned_heap_offset`: padding from two remainders, so that no sum overflows. */
  method AlignedHeapOffset(base: nat, minimum: nat, align: nat) returns (r: Option<nat>)
    requires base < TWO_64 && minimum < TWO_64
    ensures !IsPowerOfTwo(align) ==> r == None
    ensures IsPowerOfTwo(align) ==>
              var offset := AlignedOffset(base, minimum, align);
              r == if offset < TWO_64 then Some(offset) else None
  {
    if !IsPowerOfTwo(align) {
      return None;
    }
    var baseRemainder := base % align;
    var offsetRemainder := minimum % align;
    var currentRemainder :=
      if offsetRemainder == 0 then baseRemainder
      else if baseRemainder >= align - offsetRemainder then baseRemainder - (align - offsetRemainder)
      else baseRemainder + offsetRemainder;
    RemaindersAdd(base, minimum, align, currentRemainder);
    var padding := (align - currentRemainder) % align;
    r := if minimum + padding < TWO_64 then Some(minimum + padding) else None;
  }

  lemma RemaindersAdd(base: nat, minimum: nat, align: nat, current: nat)
    requires align > 0
    requires var b, m := base % align, minimum % align;
             current == if m == 0 then b else if b >= align - m then b - (align - m) else b + m
    ensures (base + minimum) % align == current
  {
    var p, b := Division(base, align);
    var q, m := Division(minimum, align);
    SumOfRemainders(base, minimum, align, p, b, q, m);
  }

  lemma Division(x: nat, n: nat) returns (quotient: nat, remainder: nat)
    requires n > 0
    ensures x == n * quotient + remainder && remainder == x % n < n
  {
    DivisionFacts(x, n);
    quotient, remainder := x / n, x % n;
  }

  lemma SumOfRemainders(x: nat, y: nat, n: nat, p: nat, a: nat, q: nat, b: nat)
    requires a < n && b < n && x == n * p + a && y == n * q + b
    ensures (x + y) % n == if a + b < n then a + b else a + b - n
  {
    assert n * (p + q) == n * p + n * q;
    if a + b < n {
      ModUnique(x + y, n, p + q, a + b);
    } else {
      assert n * (p + q + 1) == n * (p + q) + n;
      ModUnique(x + y, n, p + q + 1, a + b - n);
    }
  }

  /** `align_up`: the least multiple of `align` at or above `value`, unless that overflows. */
  function AlignUp(value: nat, align: nat): (r: Option<nat>)
    requires align > 0
  {
    var sum := value + (align - 1);
    if sum >= TWO_64 then None else Some(sum - sum % align)
  }

  lemma AlignUpIsLeast(value: nat, align: nat)
    requires align > 0 && AlignUp(value, align).Some?
    ensures var r := AlignUp(value, align).value;
            value <= r < value + align && r % align == 0
  {
    var sum := value + (align - 1);
    DivisionFacts(sum, align);
    ModUnique(sum - sum % align, align, sum / align, 0);
  }
}
