/**
 The boot runtime image of `src/kernel/boot_runtime.rs`: a header, a table of
 fixed-size entries and the file payloads that the entries' checksums guard.

 The format is stated for any check `matches(payload, stored)` of a payload
 against the four stored hash bytes; the source's check is `CrcMatches`.
 */
module BootRuntime {
  import opened Prelude
  import opened Folds
  import opened Crc

  const MAGIC: seq<byte> := [0x4d, 0x42, 0x52, 0x54, 0x46, 0x53, 0x00, 0x01]
  const ENTRY_PATH_CAP := 64
  const MAX_FILES := 16
  const ENTRY_SIZE := 128
  const HEADER_SIZE := 64

  datatype BlockError = InvalidSignature | OutOfBounds | Crc

  datatype RuntimeFile = RuntimeFile(path: seq<byte>, offset: nat, size: nat, hash: seq<byte>, entry: bool)

  datatype Manifest = Manifest(name: seq<byte>, version: seq<byte>, entryPath: seq<byte>, files: seq<RuntimeFile>)

  type PayloadCheck = (seq<byte>, seq<byte>) -> bool

  function LeU32(bytes: seq<byte>, off: nat): nat
    requires off + 4 <= |bytes|
  {
    var b0: nat, b1: nat, b2: nat, b3: nat := bytes[off], bytes[off + 1], bytes[off + 2], bytes[off + 3];
    b0 + 0x100 * b1 + 0x1_0000 * b2 + 0x100_0000 * b3
  }

  function Min(a: nat, b: nat): nat {
    if a < b then a else b
  }

  predicate HeaderOk(image: seq<byte>) {
    && |image| >= HEADER_SIZE
    && image[0..8] == MAGIC
    && 0 < LeU32(image, 8) <= MAX_FILES
  }

  predicate TableInside(image: seq<byte>)
    requires HeaderOk(image)
  {
    LeU32(image, 12) + LeU32(image, 8) * ENTRY_SIZE <= |image|
  }

  /** The `k`-th byte of an entry as its payload must repeat it, with the hash field blanked. */
  function BlankedEntryByte(image: seq<byte>, off: nat, k: nat): byte
    requires k < ENTRY_SIZE && off + ENTRY_SIZE <= |image|
  {
    if 12 <= k < 16 then 0 else image[off + k]
  }

  /** A payload that covers its own entry repeats it with the hash field blanked. */
  ghost predicate SelfConsistent(image: seq<byte>, off: nat, start: nat, size: nat)
    requires off + ENTRY_SIZE <= |image| && start + size <= |image|
  {
    forall k :: start <= k < start + size && off <= k < off + ENTRY_SIZE
      ==> image[k] == BlankedEntryByte(image, off, k - off)
  }

  /** What one turn of the entry loop yields. */
  ghost function ParseEntry(image: seq<byte>, off: nat, matches: PayloadCheck): Result<RuntimeFile, BlockError>
    requires off + ENTRY_SIZE <= |image|
  {
    var start, size := LeU32(image, off + 4), LeU32(image, off + 8);
    var hash := image[off + 12..off + 16];
    if start + size > |image| then Err(OutOfBounds)
    else if !SelfConsistent(image, off, start, size) then Err(OutOfBounds)
    else if !matches(image[start..start + size], hash) then Err(BlockError.Crc)
    else
      var pathLen := Min(image[off], ENTRY_PATH_CAP);
      Ok(RuntimeFile(image[off + 16..off + 16 + pathLen], start, size, hash, image[off + 1] % 2 == 1))
  }

  /** The files of the first `count` entries, or the first error among them. */
  ghost function ParseEntries(image: seq<byte>, base: nat, count: nat, matches: PayloadCheck)
    : Result<seq<RuntimeFile>, BlockError>
    requires base + count * ENTRY_SIZE <= |image|
    decreases count
  {
    if count == 0 then Ok([])
    else
      var front := ParseEntries(image, base, count - 1, matches);
      if front.Err? then front
      else
        var last := ParseEntry(image, base + (count - 1) * ENTRY_SIZE, matches);
        if last.Err? then Err(last.error) else Ok(front.value + [last.value])
  }

  ghost function Parse(image: seq<byte>, matches: PayloadCheck): Result<Manifest, BlockError> {
    if !HeaderOk(image) then Err(InvalidSignature)
    else if !TableInside(image) then Err(OutOfBounds)
    else
      var files := ParseEntries(image, LeU32(image, 12), LeU32(image, 8), matches);
      if files.Err? then Err(files.error)
      else
        Ok(Manifest(
             image[20..20 + Min(image[16], 32)],
             image[52..52 + Min(image[17], 16)],
             image[HEADER_SIZE..HEADER_SIZE + Min(image[18], ENTRY_PATH_CAP)],
             files.value))
  }

  // ---------------------------------------------------------------------
  // The loops of the parser
  // ---------------------------------------------------------------------

  /** The stored hash as a register value, least significant byte first. */
  function HashWord(stored: seq<byte>): bv32
    requires |stored| == 4
  {
    Widen(stored[0]) | (Widen(stored[1]) << 8) | (Widen(stored[2]) << 16) | (Widen(stored[3]) << 24)
  }

  predicate CrcMatches(payload: seq<byte>, stored: seq<byte>) {
    |stored| == 4 && Checksum(payload) == HashWord(stored)
  }

  predicate Overlaps(aStart: nat, aLen: nat, bStart: nat, bLen: nat) {
    aStart < bStart + bLen && bStart < aStart + aLen
  }

  method CheckSelfConsistent(image: seq<byte>, off: nat, start: nat, size: nat) returns (consistent: bool)
    requires off + ENTRY_SIZE <= |image| && start + size <= |image|
    ensures consistent == SelfConsistent(image, off, start, size)
  {
    if Overlaps(start, size, off, ENTRY_SIZE) {
      for pos := 0 to size
        invariant forall k :: start <= k < start + pos && off <= k < off + ENTRY_SIZE
                    ==> image[k] == BlankedEntryByte(image, off, k - off)
      {
        var absolute := start + pos;
        if off <= absolute < off + ENTRY_SIZE {
          if image[absolute] != BlankedEntryByte(image, off, absolute - off) {
            return false;
          }
        }
      }
    }
    return true;
  }

  method ReadEntry(image: seq<byte>, off: nat, matches: PayloadCheck) returns (r: Result<RuntimeFile, BlockError>)
    requires off + ENTRY_SIZE <= |image|
    ensures r == ParseEntry(image, off, matches)
  {
    var pathLen := Min(image[off], ENTRY_PATH_CAP);
    var start, size := LeU32(image, off + 4), LeU32(image, off + 8);
    var hash := image[off + 12..off + 16];
    if start + size > |image| {
      return Err(OutOfBounds);
    }
    var consistent := CheckSelfConsistent(image, off, start, size);
    if !consistent {
      return Err(OutOfBounds);
    }
    if !matches(image[start..start + size], hash) {
      return Err(BlockError.Crc);
    }
    return Ok(RuntimeFile(image[off + 16..off + 16 + pathLen], start, size, hash, image[off + 1] % 2 == 1));
  }

  lemma {:induction false} FirstErrorStays(image: seq<byte>, base: nat, some: nat, count: nat, matches: PayloadCheck)
    requires some <= count && base + count * ENTRY_SIZE <= |image|
    requires ParseEntries(image, base, some, matches).Err?
    ensures ParseEntries(image, base, count, matches) == ParseEntries(image, base, some, matches)
    decreases count
  {
    hide ParseEntry;
    if some < count {
      FirstErrorStays(image, base, some, count - 1, matches);
    }
  }

  method ReadEntries(image: seq<byte>, base: nat, count: nat, matches: PayloadCheck)
    returns (r: Result<seq<RuntimeFile>, BlockError>)
    requires base + count * ENTRY_SIZE <= |image|
    ensures r == ParseEntries(image, base, count, matches)
  {
    hide ParseEntry;
    var files := [];
    for idx := 0 to count
      invariant ParseEntries(image, base, idx, matches) == Ok(files)
    {
      var entry := ReadEntry(image, base + idx * ENTRY_SIZE, matches);
      if entry.Err? {
        FirstErrorStays(image, base, idx + 1, count, matches);
        return Err(entry.error);
      }
      files := files + [entry.value];
    }
    return Ok(files);
  }

  method ParseManifest(image: seq<byte>, matches: PayloadCheck) returns (r: Result<Manifest, BlockError>)
    ensures r == Parse(image, matches)
  {
    if |image| < HEADER_SIZE || image[0..8] != MAGIC {
      return Err(InvalidSignature);
    }
    var count := LeU32(image, 8);
    if count == 0 || count > MAX_FILES {
      return Err(InvalidSignature);
    }
    var base := LeU32(image, 12);
    if base + count * ENTRY_SIZE > |image| {
      return Err(OutOfBounds);
    }
    var files := ReadEntries(image, base, count, matches);
    if files.Err? {
      return Err(files.error);
    }
    return Ok(Manifest(
                image[20..20 + Min(image[16], 32)],
                image[52..52 + Min(image[17], 16)],
                image[HEADER_SIZE..HEADER_SIZE + Min(image[18], ENTRY_PATH_CAP)],
                files.value));
  }

  // ---------------------------------------------------------------------
  // Payload corruption
  // ---------------------------------------------------------------------

  /** No change within four consecutive payload bytes passes the check. */
  ghost predicate DetectsBursts(matches: PayloadCheck) {
    forall w: seq<byte>, v: seq<byte>, p: nat, stored: seq<byte> ::
      SameOutside(w, v, p) && w != v && matches(w, stored) ==> !matches(v, stored)
  }

  lemma CrcDetectsBursts()
    ensures DetectsBursts(CrcMatches)
  {
    forall w: seq<byte>, v: seq<byte>, p: nat, stored: seq<byte> | SameOutside(w, v, p) && w != v
      && CrcMatches(w, stored)
      ensures !CrcMatches(v, stored)
    {
      ChecksumDetectsBurst(w, v, p);
    }
  }

  /** The bytes that decide which payloads are read and what they must match. */
  ghost predicate Guarded(image: seq<byte>, k: nat)
    requires HeaderOk(image)
  {
    k < 16 || LeU32(image, 12) <= k < LeU32(image, 12) + LeU32(image, 8) * ENTRY_SIZE
  }

  ghost predicate PayloadChanged(file: RuntimeFile, image: seq<byte>, other: seq<byte>)
    requires file.offset + file.size <= |image| == |other|
  {
    image[file.offset..file.offset + file.size] != other[file.offset..file.offset + file.size]
  }

  lemma EntryVerdict(image: seq<byte>, other: seq<byte>, off: nat, p: nat, matches: PayloadCheck)
    requires DetectsBursts(matches) && SameOutside(image, other, p)
    requires off + ENTRY_SIZE <= |image|
    requires forall k :: off <= k < off + ENTRY_SIZE ==> image[k] == other[k]
    requires ParseEntry(image, off, matches).Ok?
    ensures var file := ParseEntry(image, off, matches).value;
            && file.offset + file.size <= |image|
            && ParseEntry(other, off, matches)
               == if PayloadChanged(file, image, other) then Err(BlockError.Crc) else Ok(file)
  {
    var file := ParseEntry(image, off, matches).value;
    var start, size := file.offset, file.size;
    assert other[off + 12..off + 16] == image[off + 12..off + 16];
    assert SelfConsistent(other, off, start, size) by {
      forall k | start <= k < start + size && off <= k < off + ENTRY_SIZE
        ensures other[k] == BlankedEntryByte(other, off, k - off)
      {
        assert image[k] == BlankedEntryByte(image, off, k - off);
      }
    }
    var payload, changed := image[start..start + size], other[start..start + size];
    assert SameOutside(payload, changed, if p >= start then p - start else 0);
    var pathLen := Min(image[off], ENTRY_PATH_CAP);
    assert image[off + 16..off + 16 + pathLen] == other[off + 16..off + 16 + pathLen];
  }

  ghost predicate AnyPayloadChanged(files: seq<RuntimeFile>, image: seq<byte>, other: seq<byte>)
    requires |image| == |other|
    requires forall f :: f in files ==> f.offset + f.size <= |image|
  {
    exists f :: f in files && PayloadChanged(f, image, other)
  }

  lemma {:induction false} EntriesVerdict(
    image: seq<byte>, other: seq<byte>, base: nat, count: nat, p: nat, matches: PayloadCheck)
    requires DetectsBursts(matches) && SameOutside(image, other, p)
    requires base + count * ENTRY_SIZE <= |image|
    requires forall k :: base <= k < base + count * ENTRY_SIZE ==> image[k] == other[k]
    requires ParseEntries(image, base, count, matches).Ok?
    ensures var files := ParseEntries(image, base, count, matches).value;
            && (forall f :: f in files ==> f.offset + f.size <= |image|)
            && ParseEntries(other, base, count, matches)
               == if AnyPayloadChanged(files, image, other) then Err(BlockError.Crc) else Ok(files)
    decreases count
  {
    hide ParseEntry;
    if count > 0 {
      EntriesVerdict(image, other, base, count - 1, p, matches);
      EntryVerdict(image, other, base + (count - 1) * ENTRY_SIZE, p, matches);
    }
  }

  lemma SameHeader(image: seq<byte>, other: seq<byte>)
    requires |image| == |other| && HeaderOk(image) && TableInside(image)
    requires forall k :: 0 <= k < |image| && Guarded(image, k) ==> image[k] == other[k]
    ensures HeaderOk(other) && TableInside(other)
    ensures LeU32(other, 8) == LeU32(image, 8) && LeU32(other, 12) == LeU32(image, 12)
    ensures forall k :: LeU32(image, 12) <= k < LeU32(image, 12) + LeU32(image, 8) * ENTRY_SIZE
              ==> image[k] == other[k]
  {
    assert forall k :: 0 <= k < 16 ==> Guarded(image, k);
    assert image[0..8] == other[0..8];
  }

  /**
   Corrupting up to four consecutive bytes of an accepted image, away from the
   guarded bytes, is rejected as a checksum error exactly when it touches a
   payload; otherwise the same files are accepted.
   */
  lemma CorruptionDetected(image: seq<byte>, other: seq<byte>, p: nat, matches: PayloadCheck)
    requires DetectsBursts(matches)
    requires Parse(image, matches).Ok?
    requires SameOutside(image, other, p)
    requires forall k :: 0 <= k < |image| && Guarded(image, k) ==> image[k] == other[k]
    ensures var files := Parse(image, matches).value.files;
            && (forall f :: f in files ==> f.offset + f.size <= |image|)
            && (AnyPayloadChanged(files, image, other) ==> Parse(other, matches) == Err(BlockError.Crc))
            && (!AnyPayloadChanged(files, image, other)
                ==> Parse(other, matches).Ok? && Parse(other, matches).value.files == files)
  {
    SameHeader(image, other);
    EntriesVerdict(image, other, LeU32(image, 12), LeU32(image, 8), p, matches);
  }

  /** The same for the check the parser uses. */
  lemma CrcCorruptionDetected(image: seq<byte>, other: seq<byte>, p: nat)
    requires Parse(image, CrcMatches).Ok?
    requires SameOutside(image, other, p)
    requires forall k :: 0 <= k < |image| && Guarded(image, k) ==> image[k] == other[k]
    ensures var files := Parse(image, CrcMatches).value.files;
            && (forall f :: f in files ==> f.offset + f.size <= |image|)
            && (AnyPayloadChanged(files, image, other) <==> Parse(other, CrcMatches) == Err(BlockError.Crc))
  {
    CrcDetectsBursts();
    CorruptionDetected(image, other, p, CrcMatches);
  }
}
