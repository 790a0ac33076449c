/** Mach-O and fat headers inside a file of bytes, and the rewriting of their flags, on values. */
module MachO {
  import opened Bytes

  type UInt32 = v: int | 0 <= v < 0x1_0000_0000

  const FAT_MAGIC: UInt32 := 0xcafebabe
  const MH_MAGIC: UInt32 := 0xfeedface
  const MH_CIGAM: UInt32 := 0xcefaedfe
  const MH_MAGIC_64: UInt32 := 0xfeedfacf
  const MH_CIGAM_64: UInt32 := 0xcffaedfe
  const MH_EXECUTE: UInt32 := 0x2
  const MH_PIE: UInt32 := 0x00200000
  const MH_NO_HEAP_EXECUTION: UInt32 := 0x01000000

  const MACH_HEADER_SIZE: nat := 28
  const FAT_HEADER_SIZE: nat := 8
  const FAT_ARCH_SIZE: nat := 20

  datatype Endian = Little | Big
  datatype Options = Options(noHeapExecution: bool, pie: bool)

  /** How handling a file ends; both errors are exceptions of the program. */
  datatype Outcome = Done | MachOError | AssertionError

  // ----- integers in a file -----

  function Pack(v: UInt32, endian: Endian): (bytes: seq<Byte>)
    ensures |bytes| == 4
  {
    var v1 := v / 0x100;
    var v2 := v1 / 0x100;
    var b0, b1, b2, b3 := v % 0x100, v1 % 0x100, v2 % 0x100, v2 / 0x100;
    if endian == Little then [b0, b1, b2, b3] else [b3, b2, b1, b0]
  }

  function Number(b0: int, b1: int, b2: int, b3: int): int {
    b0 + 0x100 * b1 + 0x10000 * b2 + 0x1000000 * b3
  }

  function Unpack(bytes: seq<Byte>, endian: Endian): UInt32
    requires |bytes| == 4
  {
    if endian == Little
    then Number(bytes[0], bytes[1], bytes[2], bytes[3])
    else Number(bytes[3], bytes[2], bytes[1], bytes[0])
  }

  lemma LastDigit(a: Byte, x: int, b: Byte, y: int)
    requires a + 0x100 * x == b + 0x100 * y
    ensures a == b && x == y
  {
  }

  lemma DigitsUnique(a0: Byte, a1: Byte, a2: Byte, a3: Byte, b0: Byte, b1: Byte, b2: Byte, b3: Byte)
    requires Number(a0, a1, a2, a3) == Number(b0, b1, b2, b3)
    ensures a0 == b0 && a1 == b1 && a2 == b2 && a3 == b3
  {
    LastDigit(a0, a1 + 0x100 * (a2 + 0x100 * a3), b0, b1 + 0x100 * (b2 + 0x100 * b3));
    LastDigit(a1, a2 + 0x100 * a3, b1, b2 + 0x100 * b3);
    LastDigit(a2, a3, b2, b3);
  }

  /** Reading back what was written. */
  lemma UnpackPacked(v: UInt32, endian: Endian)
    ensures Unpack(Pack(v, endian), endian) == v
  {
  }

  /** Writing back what was read. */
  lemma PackUnpacked(bytes: seq<Byte>, endian: Endian)
    requires |bytes| == 4
    ensures Pack(Unpack(bytes, endian), endian) == bytes
  {
    var w := Unpack(bytes, endian);
    var p := Pack(w, endian);
    UnpackPacked(w, endian);
    hide Pack, Number;
    if endian == Little {
      DigitsUnique(p[0], p[1], p[2], p[3], bytes[0], bytes[1], bytes[2], bytes[3]);
    } else {
      DigitsUnique(p[3], p[2], p[1], p[0], bytes[3], bytes[2], bytes[1], bytes[0]);
    }
  }

  function ReadAt(file: seq<Byte>, at: nat, endian: Endian): UInt32
    requires at + 4 <= |file|
  {
    Unpack(file[at..at + 4], endian)
  }

  function WriteAt(file: seq<Byte>, at: nat, v: UInt32, endian: Endian): (r: seq<Byte>)
    requires at + 4 <= |file|
    ensures |r| == |file|
  {
    file[..at] + Pack(v, endian) + file[at + 4..]
  }

  /** Two files hold the same bytes in a range. */
  predicate SameRange(a: seq<Byte>, b: seq<Byte>, from: nat, to: nat) {
    |a| == |b| && forall i :: from <= i < to && i < |a| ==> a[i] == b[i]
  }

  lemma ReadSame(a: seq<Byte>, b: seq<Byte>, at: nat, endian: Endian)
    requires at + 4 <= |a| && SameRange(a, b, at, at + 4)
    ensures ReadAt(a, at, endian) == ReadAt(b, at, endian)
  {
    assert a[at..at + 4] == b[at..at + 4];
  }

  lemma ReadWritten(file: seq<Byte>, at: nat, v: UInt32, endian: Endian)
    requires at + 4 <= |file|
    ensures ReadAt(WriteAt(file, at, v, endian), at, endian) == v
    ensures forall i :: 0 <= i < |file| && !(at <= i < at + 4) ==> WriteAt(file, at, v, endian)[i] == file[i]
  {
    assert WriteAt(file, at, v, endian)[at..at + 4] == Pack(v, endian);
    UnpackPacked(v, endian);
  }

  // ----- the flags -----

  /** Setting or clearing one bit of the flags. */
  function SetBit(flags: UInt32, bit: UInt32, on: bool): int
    requires bit == MH_PIE || bit == MH_NO_HEAP_EXECUTION
  {
    if on == (flags / bit % 2 == 1) then flags else if on then flags + bit else flags - bit
  }

  lemma SetBitInRange(flags: UInt32, bit: UInt32, on: bool)
    requires bit == MH_PIE || bit == MH_NO_HEAP_EXECUTION
    ensures 0 <= SetBit(flags, bit, on) < 0x1_0000_0000
  {
  }

  function Wanted(flags: UInt32, options: Options): UInt32 {
    SetBitInRange(flags, MH_NO_HEAP_EXECUTION, options.noHeapExecution);
    var f := SetBit(flags, MH_NO_HEAP_EXECUTION, options.noHeapExecution);
    SetBitInRange(f, MH_PIE, options.pie);
    SetBit(f, MH_PIE, options.pie)
  }

  predicate FlagsMatch(flags: UInt32, options: Options) {
    && (flags / MH_PIE % 2 == 1 <==> options.pie)
    && (flags / MH_NO_HEAP_EXECUTION % 2 == 1 <==> options.noHeapExecution)
  }

  /** Bits 0 to 20, 22 and 23, and 25 to 31: all but the two that are rewritten. */
  predicate OtherBitsSame(a: UInt32, b: UInt32) {
    && a % MH_PIE == b % MH_PIE
    && a / (2 * MH_PIE) % 4 == b / (2 * MH_PIE) % 4
    && a / (2 * MH_NO_HEAP_EXECUTION) == b / (2 * MH_NO_HEAP_EXECUTION)
  }

  /** The flags from their parts: the bits below 21, bit 21, bits 22 and 23, bit 24, and the bits above. */
  function Compose(low: int, pie: int, middle: int, heap: int, high: int): int {
    low + MH_PIE * pie + 2 * MH_PIE * middle + MH_NO_HEAP_EXECUTION * heap + 2 * MH_NO_HEAP_EXECUTION * high
  }

  predicate AreParts(low: int, pie: int, middle: int, heap: int, high: int) {
    0 <= low < MH_PIE && 0 <= pie < 2 && 0 <= middle < 4 && 0 <= heap < 2 && 0 <= high < 128
  }

  lemma Decompose(flags: UInt32) returns (low: int, pie: int, middle: int, heap: int, high: int)
    ensures AreParts(low, pie, middle, heap, high) && flags == Compose(low, pie, middle, heap, high)
  {
    low := flags % MH_PIE;
    var rest := flags / MH_PIE;
    pie := rest % 2;
    rest := rest / 2;
    middle := rest % 4;
    rest := rest / 4;
    heap, high := rest % 2, rest / 2;
  }

  lemma QuotientIs(x: int, d: int, q: int, r: int)
    requires x == q * d + r && 0 <= r < d
    ensures x / d == q && x % d == r
  {
    var p := x / d;
    assert x == p * d + x % d;
    assert (q + 1) * d == q * d + d && (p + 1) * d == p * d + d;
    if q + 1 <= p {
      ProductMonotone(q + 1, p, d);
    } else if p + 1 <= q {
      ProductMonotone(p + 1, q, d);
    }
  }

  lemma ProductMonotone(a: int, b: int, d: int)
    requires a <= b && d > 0
    ensures a * d <= b * d
  {
  }

  lemma PartsOf(low: int, pie: int, middle: int, heap: int, high: int)
    requires AreParts(low, pie, middle, heap, high)
    ensures var f := Compose(low, pie, middle, heap, high);
            && 0 <= f < 0x1_0000_0000
            && f % MH_PIE == low && f / MH_PIE % 2 == pie && f / (2 * MH_PIE) % 4 == middle
            && f / MH_NO_HEAP_EXECUTION % 2 == heap && f / (2 * MH_NO_HEAP_EXECUTION) == high
  {
    var f := Compose(low, pie, middle, heap, high);
    QuotientIs(f, MH_PIE, pie + 2 * middle + 8 * heap + 16 * high, low);
    QuotientIs(f, 2 * MH_PIE, middle + 4 * heap + 8 * high, low + MH_PIE * pie);
    QuotientIs(f, MH_NO_HEAP_EXECUTION, heap + 2 * high, low + MH_PIE * pie + 2 * MH_PIE * middle);
    QuotientIs(f, 2 * MH_NO_HEAP_EXECUTION, high,
               low + MH_PIE * pie + 2 * MH_PIE * middle + MH_NO_HEAP_EXECUTION * heap);
    QuotientIs(pie + 2 * middle + 8 * heap + 16 * high, 2, middle + 4 * heap + 8 * high, pie);
    QuotientIs(middle + 4 * heap + 8 * high, 4, heap + 2 * high, middle);
    QuotientIs(heap + 2 * high, 2, high, heap);
  }

  function Bit(on: bool): int {
    if on then 1 else 0
  }

  /** Only the two bits are replaced. */
  lemma WantedParts(low: int, pie: int, middle: int, heap: int, high: int, options: Options)
    requires AreParts(low, pie, middle, heap, high) && 0 <= Compose(low, pie, middle, heap, high) < 0x1_0000_0000
    ensures Wanted(Compose(low, pie, middle, heap, high), options)
         == Compose(low, Bit(options.pie), middle, Bit(options.noHeapExecution), high)
  {
    PartsOf(low, pie, middle, heap, high);
    var f := SetBit(Compose(low, pie, middle, heap, high), MH_NO_HEAP_EXECUTION, options.noHeapExecution);
    assert f == Compose(low, pie, middle, Bit(options.noHeapExecution), high);
    PartsOf(low, pie, middle, Bit(options.noHeapExecution), high);
  }

  /** The wanted flags have the two bits as asked, all others as they were, and are wanted again. */
  lemma WantedFlags(flags: UInt32, options: Options)
    ensures FlagsMatch(Wanted(flags, options), options)
    ensures OtherBitsSame(flags, Wanted(flags, options))
    ensures Wanted(Wanted(flags, options), options) == Wanted(flags, options)
    ensures Wanted(flags, options) == flags <==> FlagsMatch(flags, options)
  {
    var low, pie, middle, heap, high := Decompose(flags);
    PartsOf(low, pie, middle, heap, high);
    WantedParts(low, pie, middle, heap, high, options);
    PartsOf(low, Bit(options.pie), middle, Bit(options.noHeapExecution), high);
    WantedParts(low, Bit(options.pie), middle, Bit(options.noHeapExecution), high, options);
  }

  // ----- one Mach-O header -----

  /** The byte order that the magic number at `offset` gives away, if it is a known one. */
  function EndianAt(file: seq<Byte>, offset: nat): (e: seq<Endian>)
    requires offset + 4 <= |file|
    ensures |e| <= 1
  {
    var magic := ReadAt(file, offset, Little);
    if magic == MH_MAGIC || magic == MH_MAGIC_64 then [Little]
    else if magic == MH_CIGAM || magic == MH_CIGAM_64 then [Big]
    else []
  }

  /** Read with the detected byte order, the magic number is one of the two proper ones. */
  lemma DetectedMagic(file: seq<Byte>, offset: nat)
    requires offset + 4 <= |file| && EndianAt(file, offset) != []
    ensures ReadAt(file, offset, EndianAt(file, offset)[0]) in {MH_MAGIC, MH_MAGIC_64}
  {
    var b := file[offset..offset + 4];
    if EndianAt(file, offset)[0] == Big {
      if ReadAt(file, offset, Little) == MH_CIGAM {
        DigitsUnique(b[0], b[1], b[2], b[3], 0xfe, 0xed, 0xfa, 0xce);
      } else {
        DigitsUnique(b[0], b[1], b[2], b[3], 0xfe, 0xed, 0xfa, 0xcf);
      }
    }
  }

  /** A complete header of an executable. */
  predicate IsExecutable(file: seq<Byte>, offset: nat) {
    && offset + MACH_HEADER_SIZE <= |file|
    && EndianAt(file, offset) != []
    && ReadAt(file, offset + 12, EndianAt(file, offset)[0]) == MH_EXECUTE
  }

  function FlagsAt(file: seq<Byte>, offset: nat): UInt32
    requires IsExecutable(file, offset)
  {
    ReadAt(file, offset + 24, EndianAt(file, offset)[0])
  }

  function Rewrite(file: seq<Byte>, offset: nat, options: Options): (r: seq<Byte>)
    requires IsExecutable(file, offset)
    ensures |r| == |file|
  {
    WriteAt(file, offset + 24, Wanted(FlagsAt(file, offset), options), EndianAt(file, offset)[0])
  }

  datatype Handled = Handled(file: seq<Byte>, outcome: Outcome)

  function HandleMachO(file: seq<Byte>, offset: nat, options: Options): (h: Handled)
    ensures |h.file| == |file|
  {
    if IsExecutable(file, offset) then Handled(Rewrite(file, offset, options), Done) else Handled(file, MachOError)
  }

  /** Only the magic number and the file type decide. */
  lemma HeaderSame(a: seq<Byte>, b: seq<Byte>, offset: nat)
    requires SameRange(a, b, offset, offset + 4) && SameRange(a, b, offset + 12, offset + 16)
    ensures IsExecutable(a, offset) <==> IsExecutable(b, offset)
    ensures IsExecutable(a, offset) ==> EndianAt(a, offset) == EndianAt(b, offset)
  {
    if offset + MACH_HEADER_SIZE <= |a| {
      ReadSame(a, b, offset, Little);
      ReadSame(a, b, offset + 12, Little);
      ReadSame(a, b, offset + 12, Big);
    }
  }

  lemma FlagsSame(a: seq<Byte>, b: seq<Byte>, offset: nat)
    requires IsExecutable(a, offset) && SameRange(a, b, offset, offset + 4) && SameRange(a, b, offset + 12, offset + 16)
    requires SameRange(a, b, offset + 24, offset + 28)
    ensures IsExecutable(b, offset) && FlagsAt(b, offset) == FlagsAt(a, offset)
  {
    HeaderSame(a, b, offset);
    ReadSame(a, b, offset + 24, EndianAt(a, offset)[0]);
  }

  /** Rewriting a header sets both bits as asked, touches no other bit of the file, and leaves a
      header that is handled the same way again. */
  lemma RewriteExactly(file: seq<Byte>, offset: nat, options: Options)
    requires IsExecutable(file, offset)
    ensures var r := Rewrite(file, offset, options);
            && IsExecutable(r, offset)
            && FlagsAt(r, offset) == Wanted(FlagsAt(file, offset), options)
            && FlagsMatch(FlagsAt(r, offset), options)
            && OtherBitsSame(FlagsAt(file, offset), FlagsAt(r, offset))
            && (forall i :: 0 <= i < |file| && !(offset + 24 <= i < offset + 28) ==> r[i] == file[i])
            && Rewrite(r, offset, options) == r
  {
    var r := Rewrite(file, offset, options);
    var endian := EndianAt(file, offset)[0];
    WantedFlags(FlagsAt(file, offset), options);
    ReadWritten(file, offset + 24, Wanted(FlagsAt(file, offset), options), endian);
    HeaderSame(file, r, offset);
    WriteBack(r, offset + 24, endian);
  }

  /** Writing what is there changes nothing. */
  lemma WriteBack(file: seq<Byte>, at: nat, endian: Endian)
    requires at + 4 <= |file|
    ensures WriteAt(file, at, ReadAt(file, at, endian), endian) == file
  {
    PackUnpacked(file[at..at + 4], endian);
    assert file == file[..at] + file[at..at + 4] + file[at + 4..];
  }
}
