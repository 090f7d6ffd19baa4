/**
 The reflected CRC-32 of `src/kernel/partition.rs`, and the error-detection
 guarantee that the boot manifest relies on.
 */
module Crc {
  import opened Prelude
  import opened Folds

  const POLYNOMIAL: bv32 := 0xedb8_8320
  const INITIAL: bv32 := 0xffff_ffff

  predicate Odd(crc: bv32) {
    crc & 1 == 1
  }

  function Halve(crc: bv32): bv32 {
    crc >> 1
  }

  function Reduce(odd: bool, half: bv32): bv32 {
    if odd then half ^ POLYNOMIAL else half
  }

  /** One turn of the inner loop. */
  function Shift(crc: bv32): bv32 {
    Reduce(Odd(crc), Halve(crc))
  }

  function Xor(a: bv32, b: bv32): bv32 {
    a ^ b
  }

  function Bit(on: bool, mask: bv32): bv32 {
    if on then mask else 0
  }

  /** The `n` lowest bits of `b`, lowest first. */
  function Bits(b: nat, n: nat): (bits: seq<bool>)
    ensures |bits| == n
    decreases n
  {
    if n == 0 then [] else [b % 2 == 1] + Bits(b / 2, n - 1)
  }

  function Pack(p: seq<bool>): bv32
    requires |p| == 8
  {
    Bit(p[0], 0x01) | Bit(p[1], 0x02) | Bit(p[2], 0x04) | Bit(p[3], 0x08)
    | Bit(p[4], 0x10) | Bit(p[5], 0x20) | Bit(p[6], 0x40) | Bit(p[7], 0x80)
  }

  /** A byte as a register value. */
  function Widen(b: byte): bv32 {
    Pack(Bits(b, 8))
  }

  /** The eight turns of the inner loop. */
  function Round(crc: bv32): bv32 {
    Iterate(Shift, crc, 8)
  }

  /** One turn of the outer loop: absorb a byte. */
  function Absorb(crc: bv32, b: byte): bv32 {
    Round(Xor(crc, Widen(b)))
  }

  /** The register after absorbing `bytes` from the left. */
  function Register(crc: bv32, bytes: seq<byte>): bv32 {
    Fold(Absorb, crc, bytes)
  }

  function Checksum(bytes: seq<byte>): bv32 {
    !Register(INITIAL, bytes)
  }

  method Crc32(bytes: seq<byte>) returns (checksum: bv32)
    ensures checksum == Checksum(bytes)
  {
    var crc := INITIAL;
    for i := 0 to |bytes|
      invariant crc == Fold(Absorb, INITIAL, bytes[..i])
    {
      assert bytes[..i + 1][..i] == bytes[..i];
      crc := AbsorbByte(crc, bytes[i]);
    }
    assert bytes[..|bytes|] == bytes;
    checksum := !crc;
  }

  /** The body of the outer loop. */
  method AbsorbByte(register: bv32, b: byte) returns (crc: bv32)
    ensures crc == Absorb(register, b)
  {
    hide Shift, Widen;
    crc := register ^ Widen(b);
    ghost var mixed := crc;
    for k := 0 to 8
      invariant Iterate(Shift, mixed, 8) == Iterate(Shift, crc, 8 - k)
    {
      crc := ShiftOnce(crc);
    }
  }

  method ShiftOnce(register: bv32) returns (crc: bv32)
    ensures crc == Shift(register)
  {
    var mask := 0 - (register & 1);
    assert register & 1 == 0 || register & 1 == 1;
    crc := (register >> 1) ^ (POLYNOMIAL & mask);
  }

  // ---------------------------------------------------------------------
  // Every round can be undone
  // ---------------------------------------------------------------------

  /** The polynomial has its top bit set, so the bit that was shifted out can be read back. */
  lemma ShiftUndo(a: bv32, b: bv32)
    requires Shift(a) == Shift(b)
    ensures a == b
  {
  }

  lemma ShiftInjective()
    ensures Injective(Shift)
  {
    forall a, b | Shift(a) == Shift(b)
      ensures a == b
    {
      ShiftUndo(a, b);
    }
  }

  lemma RoundInjective(a: bv32, b: bv32)
    requires Round(a) == Round(b)
    ensures a == b
  {
    ShiftInjective();
    IterateInjective(Shift, a, b, 8);
  }

  lemma XorCancels(a: bv32, b: bv32, x: bv32)
    requires Xor(a, x) == Xor(b, x)
    ensures a == b
  {
  }

  lemma AbsorbInjective()
    ensures StateInjective(Absorb)
  {
    forall a, b, x | Absorb(a, x) == Absorb(b, x)
      ensures a == b
    {
      RoundInjective(Xor(a, Widen(x)), Xor(b, Widen(x)));
      XorCancels(a, b, Widen(x));
    }
  }

  // ---------------------------------------------------------------------
  // Four bytes fill the register
  // ---------------------------------------------------------------------

  function Double(y: bv32): bv32 {
    y << 1
  }

  predicate TopBitClear(y: bv32) {
    y & 0x8000_0000 == 0
  }

  function Raise(d: bv32): bv32 {
    d << 8
  }

  predicate TopByteClear(d: bv32) {
    d & 0xff00_0000 == 0
  }

  predicate IsByte(d: bv32) {
    d & 0xffff_ff00 == 0
  }

  lemma DoubledIsEven(z: bv32, y: bv32)
    ensures Odd(z ^ (y << 1)) == Odd(z)
  {
  }

  lemma HalveMoves(z: bv32, y: bv32)
    requires y & 0x8000_0000 == 0
    ensures Halve(z ^ (y << 1)) == Halve(z) ^ y
  {
  }

  lemma XorSwaps(a: bv32, b: bv32, c: bv32)
    ensures (a ^ b) ^ c == (a ^ c) ^ b
  {
  }

  lemma ReduceMoves(odd: bool, half: bv32, y: bv32)
    ensures Reduce(odd, half ^ y) == Reduce(odd, half) ^ y
  {
    if odd {
      XorSwaps(half, y, POLYNOMIAL);
      assert Reduce(odd, half) == half ^ POLYNOMIAL;
    }
  }

  lemma ShiftMoves(z: bv32, y: bv32)
    requires y & 0x8000_0000 == 0
    ensures Shift(z ^ (y << 1)) == Shift(z) ^ y
  {
    DoubledIsEven(z, y);
    HalveMoves(z, y);
    ReduceMoves(Odd(z), Halve(z), y);
    hide Odd, Halve, Reduce;
  }

  /** A difference that has not reached the bottom bit only moves down. */
  lemma ShiftDescends()
    ensures Descends(Shift, Xor, Double, TopBitClear)
  {
    forall z, y | TopBitClear(y)
      ensures Shift(Xor(z, Double(y))) == Xor(Shift(z), y)
    {
      ShiftMoves(z, y);
    }
  }

  lemma EightDoublings(d: bv32)
    requires TopByteClear(d)
    ensures Room(Double, TopBitClear, d, 8) && Iterate(Double, d, 8) == Raise(d)
  {
    var d1 := Double(d);
    var d2 := Double(d1);
    var d3 := Double(d2);
    var d4 := Double(d3);
    var d5 := Double(d4);
    var d6 := Double(d5);
    var d7 := Double(d6);
    assert Room(Double, TopBitClear, d7, 1) && Iterate(Double, d7, 1) == Double(d7);
    assert Room(Double, TopBitClear, d5, 3) && Iterate(Double, d5, 3) == Double(d7);
    assert Room(Double, TopBitClear, d3, 5) && Iterate(Double, d3, 5) == Double(d7);
    assert Room(Double, TopBitClear, d1, 7) && Iterate(Double, d1, 7) == Double(d7);
  }

  /** A difference in the lower three bytes moved down from one byte higher. */
  lemma RoundDescends()
    ensures Descends(Round, Xor, Raise, TopByteClear)
  {
    ShiftDescends();
    forall z, d | TopByteClear(d)
      ensures Round(Xor(z, Raise(d))) == Xor(Round(z), d)
    {
      EightDoublings(d);
      MovesDown(Shift, Xor, Double, TopBitClear, z, d, 8);
    }
  }

  lemma RoundIsInjective()
    ensures Injective(Round)
  {
    forall a, b | Round(a) == Round(b)
      ensures a == b
    {
      RoundInjective(a, b);
    }
  }

  lemma XorAssociative(x: bv32, y: bv32, z: bv32)
    ensures Xor(Xor(x, y), z) == Xor(x, Xor(y, z))
  {
  }

  lemma XorSelfInverse()
    ensures SelfInverse(Xor)
  {
    forall x, y, z
      ensures Xor(Xor(x, y), z) == Xor(x, Xor(y, z))
    {
      XorAssociative(x, y, z);
    }
  }

  /** Byte differences that agree after being raised by their positions are all zero. */
  lemma Stacked(e0: bv32, e1: bv32, e2: bv32, e3: bv32)
    requires e0 & 0xffff_ff00 == 0 && e1 & 0xffff_ff00 == 0 && e2 & 0xffff_ff00 == 0 && e3 & 0xffff_ff00 == 0
    ensures e3 & 0xff00_0000 == 0
    ensures (e2 ^ (e3 << 8)) & 0xff00_0000 == 0
    ensures (e1 ^ ((e2 ^ (e3 << 8)) << 8)) & 0xff00_0000 == 0
    ensures e0 == (e1 ^ ((e2 ^ (e3 << 8)) << 8)) << 8 ==> e0 == 0 && e1 == 0 && e2 == 0 && e3 == 0
  {
  }

  lemma PackInjective(p: seq<bool>, q: seq<bool>)
    requires |p| == |q| == 8 && Pack(p) == Pack(q)
    ensures p == q
  {
    PackHolds(p);
    PackHolds(q);
    hide Pack;
  }

  /** Each bit can be read back from the packed value. */
  lemma PackHolds(p: seq<bool>)
    requires |p| == 8
    ensures p[0] == (Pack(p) & 0x01 != 0) && p[1] == (Pack(p) & 0x02 != 0)
    ensures p[2] == (Pack(p) & 0x04 != 0) && p[3] == (Pack(p) & 0x08 != 0)
    ensures p[4] == (Pack(p) & 0x10 != 0) && p[5] == (Pack(p) & 0x20 != 0)
    ensures p[6] == (Pack(p) & 0x40 != 0) && p[7] == (Pack(p) & 0x80 != 0)
  {
  }

  lemma PackSmall(p: seq<bool>)
    requires |p| == 8
    ensures Pack(p) & 0xffff_ff00 == 0
  {
  }

  function PowerOfTwo(n: nat): nat {
    if n == 0 then 1 else 2 * PowerOfTwo(n - 1)
  }

  lemma {:induction false} BitsInjective(w: nat, v: nat, n: nat)
    requires w < PowerOfTwo(n) && v < PowerOfTwo(n)
    requires Bits(w, n) == Bits(v, n)
    ensures w == v
    decreases n
  {
    if n > 0 {
      assert Bits(w, n)[0] == Bits(v, n)[0];
      assert Bits(w, n)[1..] == Bits(w / 2, n - 1) && Bits(v, n)[1..] == Bits(v / 2, n - 1);
      BitsInjective(w / 2, v / 2, n - 1);
    }
  }

  lemma WidenInjective(w: byte, v: byte)
    requires Widen(w) == Widen(v)
    ensures w == v
  {
    PackInjective(Bits(w, 8), Bits(v, 8));
    assert PowerOfTwo(4) == 16 && PowerOfTwo(6) == 64 && PowerOfTwo(8) == 256;
    BitsInjective(w, v, 8);
  }

  lemma ByteDifference(w: byte, v: byte)
    ensures Xor(Widen(w), Widen(v)) & 0xffff_ff00 == 0
    ensures Xor(Widen(w), Widen(v)) == 0 ==> w == v
  {
    PackSmall(Bits(w, 8));
    PackSmall(Bits(v, 8));
    SmallXor(Widen(w), Widen(v));
    if Widen(w) == Widen(v) {
      WidenInjective(w, v);
    }
  }

  lemma SmallXor(x: bv32, y: bv32)
    requires x & 0xffff_ff00 == 0 && y & 0xffff_ff00 == 0
    ensures Xor(x, y) & 0xffff_ff00 == 0
    ensures Xor(x, y) == 0 ==> x == y
  {
  }

  lemma BytesAreSmall()
    ensures SmallInputs(Xor, Widen, IsByte, 0)
  {
    forall w: byte, v: byte
      ensures IsByte(Xor(Widen(w), Widen(v)))
      ensures Xor(Widen(w), Widen(v)) == 0 ==> w == v
    {
      ByteDifference(w, v);
    }
  }

  /** Four bytes lie side by side in 32 bits. */
  lemma BytesStack()
    ensures Stacks(Xor, Raise, TopByteClear, IsByte, 0)
  {
    forall e0, e1, e2, e3 | IsByte(e0) && IsByte(e1) && IsByte(e2) && IsByte(e3)
      ensures StackedAt(Xor, Raise, TopByteClear, 0, e0, e1, e2, e3)
    {
      Stacked(e0, e1, e2, e3);
    }
  }

  lemma CrcIsShiftRegister()
    ensures ShiftRegister(Absorb, Round, Xor, Widen, Raise, TopByteClear)
  {
    RoundIsInjective();
    RoundDescends();
    XorSelfInverse();
    AbsorbInjective();
    BytesAreSmall();
    BytesStack();
    SmallInputsFit(Xor, Widen, Raise, TopByteClear, IsByte, 0);
  }

  lemma NotInjective(a: bv32, b: bv32)
    requires !a == !b
    ensures a == b
  {
  }

  /** Inputs that differ within four consecutive bytes have different checksums. */
  lemma ChecksumDetectsBurst(w: seq<byte>, v: seq<byte>, p: nat)
    requires SameOutside(w, v, p) && w != v
    ensures Checksum(w) != Checksum(v)
  {
    CrcIsShiftRegister();
    BurstDetected(Absorb, Round, Xor, Widen, Raise, TopByteClear, INITIAL, w, v, p, 0);
    if Checksum(w) == Checksum(v) {
      NotInjective(Register(INITIAL, w), Register(INITIAL, v));
    }
  }
}
