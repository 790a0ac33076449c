/** The rewriting script: an open file with a cursor, edited in place. */
module MachORewriter {
  import opened Bytes
  import opened MachO
  import opened FatFile

  datatype Read<T> = Got(value: T) | Short

  datatype MachHeader = MachHeader(magic: UInt32, cputype: UInt32, cpusubtype: UInt32, filetype: UInt32,
                                   ncmds: UInt32, sizeofcmds: UInt32, flags: UInt32)

  datatype FatArch = FatArch(cputype: UInt32, cpusubtype: UInt32, offset: UInt32, size: UInt32, align: UInt32)

  /** A file after `bytes` were written at `at`; a gap before them is filled with zeros. */
  function Overwritten(file: seq<Byte>, at: nat, bytes: seq<Byte>): (r: seq<Byte>)
  {
    var size := if at + |bytes| <= |file| then |file| else at + |bytes|;
    seq(size, i requires 0 <= i < size =>
      if at <= i < at + |bytes| then bytes[i - at] else if i < |file| then file[i] else 0)
  }

  lemma SlicesOfSlice(s: seq<Byte>, from: nat, to: nat, a: nat, b: nat)
    requires from <= to <= |s| && a <= b <= to - from
    ensures s[from..to][a..b] == s[from + a..from + b]
  {
    var part, direct := s[from..to][a..b], s[from + a..from + b];
    assert forall i :: 0 <= i < b - a ==> part[i] == direct[i];
  }

  class ImageFile {
    var data: seq<Byte>
    var position: nat

    constructor (bytes: seq<Byte>)
      ensures data == bytes && position == 0
    {
      data, position := bytes, 0;
    }

    method Seek(offset: nat)
      modifies this`position
      ensures position == offset
    {
      position := offset;
    }

    /** Reads exactly `count` bytes; whatever is left is consumed if there are fewer. */
    method CheckedRead(count: nat) returns (r: Read<seq<Byte>>)
      modifies this`position
      ensures old(position) + count <= |data| ==>
                r == Got(data[old(position)..old(position) + count]) && position == old(position) + count
      ensures old(position) + count > |data| && count > 0 ==> r == Short
    {
      if position + count <= |data| {
        r := Got(data[position..position + count]);
        position := position + count;
      } else {
        r := Short;
        if position < |data| {
          position := |data|;
        }
      }
    }

    method ReadUInt32(endian: Endian) returns (r: Read<UInt32>)
      modifies this`position
      ensures old(position) + 4 <= |data| ==>
                r == Got(ReadAt(data, old(position), endian)) && position == old(position) + 4
      ensures old(position) + 4 > |data| ==> r == Short
    {
      ghost var at := position;
      var bytes := CheckedRead(4);
      if bytes == Short {
        return Short;
      }
      assert bytes.value == data[at..at + 4];
      r := Got(Unpack(bytes.value, endian));
    }

    method ReadMachHeader(endian: Endian) returns (r: Read<MachHeader>)
      modifies this`position
      ensures old(position) + MACH_HEADER_SIZE > |data| ==> r == Short
      ensures old(position) + MACH_HEADER_SIZE <= |data| ==>
                && position == old(position) + MACH_HEADER_SIZE
                && r == Got(MachHeader(Word(old(position), 0, endian), Word(old(position), 1, endian),
                                       Word(old(position), 2, endian), Word(old(position), 3, endian),
                                       Word(old(position), 4, endian), Word(old(position), 5, endian),
                                       Word(old(position), 6, endian)))
    {
      ghost var at := position;
      var bytes := CheckedRead(MACH_HEADER_SIZE);
      if bytes == Short {
        return Short;
      }
      var b := bytes.value;
      SameWords(b, at, 7);
      hide Unpack;
      r := Got(MachHeader(Unpack(b[0..4], endian), Unpack(b[4..8], endian), Unpack(b[8..12], endian),
                          Unpack(b[12..16], endian), Unpack(b[16..20], endian), Unpack(b[20..24], endian),
                          Unpack(b[24..28], endian)));
    }

    method ReadFatArch() returns (r: Read<FatArch>)
      modifies this`position
      ensures old(position) + FAT_ARCH_SIZE > |data| ==> r == Short
      ensures old(position) + FAT_ARCH_SIZE <= |data| ==>
                && position == old(position) + FAT_ARCH_SIZE
                && r == Got(FatArch(Word(old(position), 0, Big), Word(old(position), 1, Big),
                                    Word(old(position), 2, Big), Word(old(position), 3, Big),
                                    Word(old(position), 4, Big)))
    {
      ghost var at := position;
      var bytes := CheckedRead(FAT_ARCH_SIZE);
      if bytes == Short {
        return Short;
      }
      var b := bytes.value;
      SameWords(b, at, 5);
      hide Unpack;
      r := Got(FatArch(Unpack(b[0..4], Big), Unpack(b[4..8], Big), Unpack(b[8..12], Big), Unpack(b[12..16], Big),
                       Unpack(b[16..20], Big)));
    }

    /** Word `k` of the structure at `at`. */
    ghost function Word(at: nat, k: nat, endian: Endian): UInt32
      requires at + 4 * k + 4 <= |data|
      reads this`data
    {
      ReadAt(data, at + 4 * k, endian)
    }

    lemma SameWords(b: seq<Byte>, at: nat, count: nat)
      requires at + 4 * count <= |data| && b == data[at..at + 4 * count]
      ensures forall k :: 0 <= k < count ==> b[4 * k..4 * k + 4] == data[at + 4 * k..at + 4 * k + 4]
    {
      forall k | 0 <= k < count ensures b[4 * k..4 * k + 4] == data[at + 4 * k..at + 4 * k + 4] {
        SlicesOfSlice(data, at, at + 4 * count, 4 * k, 4 * k + 4);
      }
    }

    /** Writing past the end makes the file longer. */
    method WriteUInt32(v: UInt32, endian: Endian)
      modifies this`position, this`data
      ensures data == Overwritten(old(data), old(position), Pack(v, endian)) && position == old(position) + 4
      ensures old(position) + 4 <= |old(data)| ==> data == WriteAt(old(data), old(position), v, endian)
    {
      var bytes := Pack(v, endian);
      if |data| < position {
        data := data + seq(position - |data|, _ => 0);
      }
      data := data[..position] + bytes + if position + 4 <= |data| then data[position + 4..] else [];
      position := position + 4;
    }

    method HandleMachOFile(options: Options, offset: nat) returns (outcome: Outcome)
      modifies this`position, this`data
      ensures Handled(data, outcome) == HandleMachO(old(data), offset, options)
    {
      hide ReadAt, WriteAt, Wanted;
      ghost var file := data;
      Seek(offset);
      var read := ReadUInt32(Little);
      if read == Short {
        return MachOError;
      }
      var magic := read.value;
      var endian;
      if magic == MH_MAGIC || magic == MH_MAGIC_64 {
        endian := Little;
      } else if magic == MH_CIGAM || magic == MH_CIGAM_64 {
        endian := Big;
      } else {
        return MachOError;
      }
      assert EndianAt(file, offset) == [endian];

      Seek(offset);
      var header := ReadMachHeader(endian);
      if header == Short {
        return MachOError;
      }
      DetectedMagic(file, offset);
      assert header.value.magic == MH_MAGIC || header.value.magic == MH_MAGIC_64;
      if header.value.filetype != MH_EXECUTE {
        return MachOError;
      }
      RewriteFlags(header.value.flags, options, offset, endian);
      return Done;
    }

    /** Nothing is written if the flags are as wanted already. */
    method RewriteFlags(originalFlags: UInt32, options: Options, offset: nat, endian: Endian)
      requires IsExecutable(data, offset) && EndianAt(data, offset) == [endian]
      requires originalFlags == FlagsAt(data, offset)
      modifies this`position, this`data
      ensures data == Rewrite(old(data), offset, options)
    {
      SetBitInRange(originalFlags, MH_NO_HEAP_EXECUTION, options.noHeapExecution);
      var flags: UInt32 := SetBit(originalFlags, MH_NO_HEAP_EXECUTION, options.noHeapExecution);
      SetBitInRange(flags, MH_PIE, options.pie);
      flags := SetBit(flags, MH_PIE, options.pie);
      assert flags == Wanted(originalFlags, options);
      hide ReadAt, WriteAt, SetBit, EndianAt;
      if flags != originalFlags {
        Seek(offset + 24);
        WriteUInt32(flags, endian);
      } else {
        RewriteNothing(data, offset, options);
      }
    }

    method HandleFatFile(options: Options, fatOffset: nat) returns (outcome: Outcome)
      modifies this`position, this`data
      ensures Handled(data, outcome) == HandleFat(old(data), fatOffset, options)
    {
      hide ReadAt, HandleMachO, HandleArchs;
      Seek(fatOffset);
      var magic := ReadUInt32(Big);
      if magic == Short {
        return MachOError;
      }
      if magic.value != FAT_MAGIC {
        return AssertionError;
      }
      var nfatArch := ReadUInt32(Big);
      if nfatArch == Short {
        return MachOError;
      }
      outcome := HandleAllArchs(options, fatOffset, nfatArch.value);
    }

    /** The loop over the table. */
    method HandleAllArchs(options: Options, fatOffset: nat, nfatArch: nat) returns (outcome: Outcome)
      requires position == ArchAt(fatOffset, 0)
      modifies this`position, this`data
      ensures Handled(data, outcome) == HandleArchs(old(data), fatOffset, 0, nfatArch, options)
    {
      for index := 0 to nfatArch
        invariant position == ArchAt(fatOffset, index)
        invariant HandleArchs(data, fatOffset, index, nfatArch, options)
               == HandleArchs(old(data), fatOffset, 0, nfatArch, options)
      {
        hide HandleArchs, ArchAt;
        outcome := HandleArch(options, fatOffset, index, nfatArch);
        if outcome != Done {
          return outcome;
        }
      }
      return Done;
    }

    /** One architecture; the cursor comes back to the table after its header. */
    method HandleArch(options: Options, fatOffset: nat, index: nat, nfatArch: nat) returns (outcome: Outcome)
      requires position == ArchAt(fatOffset, index) && index < nfatArch
      modifies this`position, this`data
      ensures outcome != Done ==> Handled(data, outcome) == HandleArchs(old(data), fatOffset, index, nfatArch, options)
      ensures outcome == Done ==>
                && position == ArchAt(fatOffset, index + 1)
                && HandleArchs(data, fatOffset, index + 1, nfatArch, options)
                   == HandleArchs(old(data), fatOffset, index, nfatArch, options)
    {
      hide ReadAt, HandleMachO;
      var arch := ReadFatArch();
      if arch == Short {
        return MachOError;
      }
      assert arch.value.offset == ReadAt(data, ArchAt(fatOffset, index) + 8, Big);
      assert arch.value.size == ReadAt(data, ArchAt(fatOffset, index) + 12, Big);
      hide Word;
      if arch.value.size < MACH_HEADER_SIZE {
        return AssertionError;
      }
      var fatArchOffset := position;
      outcome := HandleMachOFile(options, arch.value.offset);
      if outcome != Done {
        return outcome;
      }
      Seek(fatArchOffset);
    }
  }
}
