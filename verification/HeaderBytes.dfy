/** Headers and tables byte by byte: which are accepted, and what is written. */
module HeaderBytes {
  import opened Bytes
  import opened MachO
  import opened FatFile

  predicate HasBytes(file: seq<Byte>, at: nat, b0: Byte, b1: Byte, b2: Byte, b3: Byte) {
    && at + 4 <= |file|
    && file[at] == b0 && file[at + 1] == b1 && file[at + 2] == b2 && file[at + 3] == b3
  }

  /** 28 bytes of an executable for a little-endian machine, with 32 or 64 bits. */
  predicate IsLittleExecutable(file: seq<Byte>, offset: nat) {
    && offset + 28 <= |file|
    && (HasBytes(file, offset, 0xce, 0xfa, 0xed, 0xfe) || HasBytes(file, offset, 0xcf, 0xfa, 0xed, 0xfe))
    && HasBytes(file, offset + 12, 2, 0, 0, 0)
  }

  /** The same for a big-endian one. */
  predicate IsBigExecutable(file: seq<Byte>, offset: nat) {
    && offset + 28 <= |file|
    && (HasBytes(file, offset, 0xfe, 0xed, 0xfa, 0xce) || HasBytes(file, offset, 0xfe, 0xed, 0xfa, 0xcf))
    && HasBytes(file, offset + 12, 0, 0, 0, 2)
  }

  /** A byte with one bit as asked. */
  function WithBit(b: Byte, bit: int, on: bool): int
    requires bit > 0
  {
    if on == (b / bit % 2 == 1) then b else if on then b + bit else b - bit
  }

  /** Only these two bytes differ, one by bit 5 and the other by bit 0. */
  predicate BitsSet(file: seq<Byte>, r: seq<Byte>, pieAt: nat, heapAt: nat, options: Options) {
    && |r| == |file| && pieAt < |file| && heapAt < |file|
    && r[pieAt] == WithBit(file[pieAt], 32, options.pie)
    && r[heapAt] == WithBit(file[heapAt], 1, options.noHeapExecution)
    && forall i :: 0 <= i < |file| && i != pieAt && i != heapAt ==> r[i] == file[i]
  }

  // ----- words and their bytes -----

  lemma WordIs(file: seq<Byte>, at: nat, b0: Byte, b1: Byte, b2: Byte, b3: Byte)
    requires at + 4 <= |file|
    ensures ReadAt(file, at, Little) == Number(b0, b1, b2, b3) <==> HasBytes(file, at, b0, b1, b2, b3)
    ensures ReadAt(file, at, Big) == Number(b0, b1, b2, b3) <==> HasBytes(file, at, b3, b2, b1, b0)
  {
    var w := file[at..at + 4];
    if ReadAt(file, at, Little) == Number(b0, b1, b2, b3) {
      DigitsUnique(w[0], w[1], w[2], w[3], b0, b1, b2, b3);
    }
    if ReadAt(file, at, Big) == Number(b0, b1, b2, b3) {
      DigitsUnique(w[3], w[2], w[1], w[0], b0, b1, b2, b3);
    }
  }

  lemma EndianInBytes(file: seq<Byte>, offset: nat)
    requires offset + 4 <= |file|
    ensures EndianAt(file, offset) == [Little] <==>
              HasBytes(file, offset, 0xce, 0xfa, 0xed, 0xfe) || HasBytes(file, offset, 0xcf, 0xfa, 0xed, 0xfe)
    ensures EndianAt(file, offset) == [Big] <==>
              HasBytes(file, offset, 0xfe, 0xed, 0xfa, 0xce) || HasBytes(file, offset, 0xfe, 0xed, 0xfa, 0xcf)
    ensures EndianAt(file, offset) in {[], [Little], [Big]}
  {
    WordIs(file, offset, 0xce, 0xfa, 0xed, 0xfe);
    WordIs(file, offset, 0xcf, 0xfa, 0xed, 0xfe);
    WordIs(file, offset, 0xfe, 0xed, 0xfa, 0xce);
    WordIs(file, offset, 0xfe, 0xed, 0xfa, 0xcf);
    hide ReadAt, HasBytes;
  }

  lemma ExecutableInBytes(file: seq<Byte>, offset: nat)
    ensures IsExecutable(file, offset) <==> IsLittleExecutable(file, offset) || IsBigExecutable(file, offset)
    ensures IsLittleExecutable(file, offset) ==> EndianAt(file, offset) == [Little]
    ensures IsBigExecutable(file, offset) ==> EndianAt(file, offset) == [Big]
  {
    if offset + 28 <= |file| {
      EndianInBytes(file, offset);
      WordIs(file, offset + 12, 2, 0, 0, 0);
      hide ReadAt, HasBytes, EndianAt;
    }
  }

  lemma HeapBit(b0: Byte, b1: Byte, b2: Byte, b3: Byte, on: bool)
    ensures 0 <= Number(b0, b1, b2, b3) < 0x1_0000_0000
    ensures 0 <= WithBit(b3, 1, on) < 256
    ensures SetBit(Number(b0, b1, b2, b3), MH_NO_HEAP_EXECUTION, on) == Number(b0, b1, b2, WithBit(b3, 1, on))
  {
    QuotientIs(Number(b0, b1, b2, b3), MH_NO_HEAP_EXECUTION, b3, b0 + 0x100 * b1 + 0x10000 * b2);
  }

  lemma PieBit(b0: Byte, b1: Byte, b2: Byte, b3: Byte, on: bool)
    ensures 0 <= Number(b0, b1, b2, b3) < 0x1_0000_0000
    ensures 0 <= WithBit(b2, 32, on) < 256
    ensures SetBit(Number(b0, b1, b2, b3), MH_PIE, on) == Number(b0, b1, WithBit(b2, 32, on), b3)
  {
    var high, low := b2 / 32, b2 % 32;
    assert b2 == 32 * high + low;
    QuotientIs(Number(b0, b1, b2, b3), MH_PIE, high + 8 * b3, b0 + 0x100 * b1 + 0x10000 * low);
  }

  /** The two bits are bit 5 of the third byte and bit 0 of the fourth. */
  lemma WantedInBytes(b0: Byte, b1: Byte, b2: Byte, b3: Byte, options: Options)
    ensures 0 <= Number(b0, b1, b2, b3) < 0x1_0000_0000
    ensures 0 <= WithBit(b2, 32, options.pie) < 256 && 0 <= WithBit(b3, 1, options.noHeapExecution) < 256
    ensures Wanted(Number(b0, b1, b2, b3), options)
         == Number(b0, b1, WithBit(b2, 32, options.pie), WithBit(b3, 1, options.noHeapExecution))
  {
    hide SetBit, Number, WithBit;
    HeapBit(b0, b1, b2, b3, options.noHeapExecution);
    PieBit(b0, b1, b2, WithBit(b3, 1, options.noHeapExecution), options.pie);
  }

  lemma PackedBytes(b0: Byte, b1: Byte, b2: Byte, b3: Byte)
    ensures 0 <= Number(b0, b1, b2, b3) < 0x1_0000_0000
    ensures Pack(Number(b0, b1, b2, b3), Little) == [b0, b1, b2, b3]
    ensures Pack(Number(b0, b1, b2, b3), Big) == [b3, b2, b1, b0]
  {
    PackUnpacked([b0, b1, b2, b3], Little);
    PackUnpacked([b3, b2, b1, b0], Big);
    hide Pack;
  }

  /** Four bytes put in the place of others. */
  lemma Placed(file: seq<Byte>, at: nat, bytes: seq<Byte>)
    requires at + 4 <= |file| && |bytes| == 4
    ensures var r := file[..at] + bytes + file[at + 4..];
            && |r| == |file|
            && r[at] == bytes[0] && r[at + 1] == bytes[1] && r[at + 2] == bytes[2] && r[at + 3] == bytes[3]
            && forall i :: 0 <= i < |file| && !(at <= i < at + 4) ==> r[i] == file[i]
  {
  }

  lemma RewrittenLittle(file: seq<Byte>, offset: nat, options: Options)
    requires IsExecutable(file, offset) && EndianAt(file, offset) == [Little]
    ensures BitsSet(file, Rewrite(file, offset, options), offset + 26, offset + 27, options)
  {
    var at := offset + 24;
    var b0, b1, b2, b3 := file[at], file[at + 1], file[at + 2], file[at + 3];
    assert FlagsAt(file, offset) == Number(b0, b1, b2, b3);
    hide Number, Wanted, WithBit, Pack, EndianAt, IsExecutable, FlagsAt;
    WantedInBytes(b0, b1, b2, b3, options);
    PackedBytes(b0, b1, WithBit(b2, 32, options.pie), WithBit(b3, 1, options.noHeapExecution));
    var bytes := [b0, b1, WithBit(b2, 32, options.pie), WithBit(b3, 1, options.noHeapExecution)];
    assert Rewrite(file, offset, options) == file[..at] + bytes + file[at + 4..];
    hide Rewrite, WriteAt;
    Placed(file, at, bytes);
  }

  lemma RewrittenBig(file: seq<Byte>, offset: nat, options: Options)
    requires IsExecutable(file, offset) && EndianAt(file, offset) == [Big]
    ensures BitsSet(file, Rewrite(file, offset, options), offset + 25, offset + 24, options)
  {
    var at := offset + 24;
    var b0, b1, b2, b3 := file[at + 3], file[at + 2], file[at + 1], file[at];
    assert FlagsAt(file, offset) == Number(b0, b1, b2, b3);
    hide Number, Wanted, WithBit, Pack, EndianAt, IsExecutable, FlagsAt;
    WantedInBytes(b0, b1, b2, b3, options);
    PackedBytes(b0, b1, WithBit(b2, 32, options.pie), WithBit(b3, 1, options.noHeapExecution));
    var bytes := [WithBit(b3, 1, options.noHeapExecution), WithBit(b2, 32, options.pie), b1, b0];
    assert Rewrite(file, offset, options) == file[..at] + bytes + file[at + 4..];
    hide Rewrite, WriteAt;
    Placed(file, at, bytes);
  }

  // ----- one header -----

  /** Exactly these headers are handled, and exactly these two bits of them are set; of anything else
      nothing is written. */
  lemma HandledExactly(file: seq<Byte>, offset: nat, options: Options)
    ensures var h := HandleMachO(file, offset, options);
            && (h.outcome == Done <==> IsLittleExecutable(file, offset) || IsBigExecutable(file, offset))
            && (h.outcome != Done ==> h == Handled(file, MachOError))
            && (IsLittleExecutable(file, offset) ==> BitsSet(file, h.file, offset + 26, offset + 27, options))
            && (IsBigExecutable(file, offset) ==> BitsSet(file, h.file, offset + 25, offset + 24, options))
  {
    ExecutableInBytes(file, offset);
    hide IsExecutable, IsLittleExecutable, IsBigExecutable, BitsSet, Rewrite, EndianAt;
    if IsLittleExecutable(file, offset) {
      RewrittenLittle(file, offset, options);
    }
    if IsBigExecutable(file, offset) {
      RewrittenBig(file, offset, options);
    }
  }

  // ----- the table of a fat file -----

  /** The big-endian number in four bytes. */
  function BigNumber(file: seq<Byte>, at: nat): int
    requires at + 4 <= |file|
  {
    var b0: int, b1: int, b2: int, b3: int := file[at], file[at + 1], file[at + 2], file[at + 3];
    0x1000000 * b0 + 0x10000 * b1 + 0x100 * b2 + b3
  }

  /** Where everything is in a fat file. */
  lemma TableInBytes(file: seq<Byte>, fatOffset: nat)
    ensures HasTable(file, fatOffset) <==>
              fatOffset + 8 <= |file| && HasBytes(file, fatOffset, 0xca, 0xfe, 0xba, 0xbe)
    ensures HasTable(file, fatOffset) ==>
              && Count(file, fatOffset) == BigNumber(file, fatOffset + 4)
              && fatOffset + 8 + 20 * Entries(file, fatOffset) <= |file|
              && Entries(file, fatOffset) <= Count(file, fatOffset)
              && (Entries(file, fatOffset) < Count(file, fatOffset) ==>
                    |file| < fatOffset + 28 + 20 * Entries(file, fatOffset))
              && forall k :: 0 <= k < Entries(file, fatOffset) ==>
                   && fatOffset + 28 + 20 * k <= |file|
                   && HeaderAt(file, fatOffset, k) == BigNumber(file, fatOffset + 8 + 20 * k + 8)
                   && SizeAt(file, fatOffset, k) == BigNumber(file, fatOffset + 8 + 20 * k + 12)
  {
    if fatOffset + 8 <= |file| {
      WordIs(file, fatOffset, 0xbe, 0xba, 0xfe, 0xca);
      hide HasBytes;
      if HasTable(file, fatOffset) {
        forall k | 0 <= k < Entries(file, fatOffset)
          ensures fatOffset + 28 + 20 * k <= |file|
          ensures HeaderAt(file, fatOffset, k) == BigNumber(file, fatOffset + 8 + 20 * k + 8)
          ensures SizeAt(file, fatOffset, k) == BigNumber(file, fatOffset + 8 + 20 * k + 12)
        {
          ArchInTable(file, fatOffset, k);
        }
      }
    }
  }

  /** What is no fat file is left alone. */
  lemma NoTable(file: seq<Byte>, fatOffset: nat, options: Options)
    requires !HasTable(file, fatOffset)
    ensures HandleFat(file, fatOffset, options)
         == Handled(file, if fatOffset + 4 <= |file| && !HasBytes(file, fatOffset, 0xca, 0xfe, 0xba, 0xbe)
                          then AssertionError else MachOError)
  {
    if fatOffset + 4 <= |file| {
      WordIs(file, fatOffset, 0xbe, 0xba, 0xfe, 0xca);
      hide HasBytes, ReadAt;
    }
  }

  /** Architecture `k` is accepted exactly if it is at least 28 bytes long and starts with such a header. */
  lemma AcceptedInBytes(file: seq<Byte>, fatOffset: nat, k: nat)
    requires HasTable(file, fatOffset) && k < Entries(file, fatOffset)
    ensures fatOffset + 28 + 20 * k <= |file|
    ensures var at := BigNumber(file, fatOffset + 16 + 20 * k);
            at >= 0
            && (Acceptable(file, fatOffset, k) <==>
                  && BigNumber(file, fatOffset + 20 + 20 * k) >= 28
                  && (IsLittleExecutable(file, at) || IsBigExecutable(file, at)))
  {
    TableInBytes(file, fatOffset);
    hide HasTable, Entries, HeaderAt, SizeAt, IsExecutable, IsLittleExecutable, IsBigExecutable;
    ExecutableInBytes(file, HeaderAt(file, fatOffset, k));
  }
}
