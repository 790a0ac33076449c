/** A fat file that meets the hypotheses of the theorems about fat files. */
module FatWitness {
  import opened Bytes
  import opened MachO
  import opened FatFile

  const BOTH := Options(true, true)

  /** The bytes that are not zero: a table with one entry, and a little-endian header behind it. */
  function ByteAt(i: int): Byte {
    match i
    case 0 => 0xca case 1 => 0xfe case 2 => 0xba case 3 => 0xbe
    case 7 => 1
    case 19 => 28
    case 23 => 28
    case 28 => 0xce case 29 => 0xfa case 30 => 0xed case 31 => 0xfe
    case 40 => 2
    case _ => 0
  }

  function OneArch(): (file: seq<Byte>)
    ensures |file| == 56 && forall i :: 0 <= i < 56 ==> file[i] == ByteAt(i)
  {
    seq(56, i => ByteAt(i))
  }

  lemma WordAt(file: seq<Byte>, at: nat, b0: Byte, b1: Byte, b2: Byte, b3: Byte)
    requires at + 4 <= |file| && file[at] == b0 && file[at + 1] == b1 && file[at + 2] == b2 && file[at + 3] == b3
    ensures ReadAt(file, at, Little) == Number(b0, b1, b2, b3)
    ensures ReadAt(file, at, Big) == Number(b3, b2, b1, b0)
  {
  }

  lemma OneArchWords()
    ensures ReadAt(OneArch(), 0, Big) == FAT_MAGIC && ReadAt(OneArch(), 4, Big) == 1
    ensures ReadAt(OneArch(), 16, Big) == 28 && ReadAt(OneArch(), 20, Big) == 28
    ensures ReadAt(OneArch(), 28, Little) == MH_MAGIC && ReadAt(OneArch(), 40, Little) == MH_EXECUTE
  {
    hide ReadAt, OneArch;
    WordAt(OneArch(), 0, 0xca, 0xfe, 0xba, 0xbe);
    WordAt(OneArch(), 4, 0, 0, 0, 1);
    WordAt(OneArch(), 16, 0, 0, 0, 28);
    WordAt(OneArch(), 20, 0, 0, 0, 28);
    WordAt(OneArch(), 28, 0xce, 0xfa, 0xed, 0xfe);
    WordAt(OneArch(), 40, 2, 0, 0, 0);
  }

  lemma OneArchIsFat()
    ensures HasTable(OneArch(), 0) && Disjoint(OneArch(), 0, BOTH) && FatFile.Count(OneArch(), 0) == 1
            && Acceptable(OneArch(), 0, 0)
  {
    OneArchWords();
    hide ReadAt, OneArch, ByteAt;
    assert ArchAt(0, 0) == 8 && ArchAt(0, 1) == 28;
    assert HasTable(OneArch(), 0) && FatFile.Count(OneArch(), 0) == 1;
    assert HeaderAt(OneArch(), 0, 0) == 28 && SizeAt(OneArch(), 0, 0) == 28;
    assert EndianAt(OneArch(), 28) == [Little];
    assert IsExecutable(OneArch(), 28);
  }

  // ----- flags that are something else as well -----

  /** Two entries; the flags of the first header are the magic number of the second. */
  function SharedByteAt(i: int): Byte {
    match i
    case 0 => 0xca case 1 => 0xfe case 2 => 0xba case 3 => 0xbe
    case 7 => 2
    case 19 => 48
    case 23 => 28
    case 39 => 72
    case 43 => 28
    case 48 => 0xce case 49 => 0xfa case 50 => 0xed case 51 => 0xfe
    case 60 => 2
    case 72 => 0xce case 73 => 0xfa case 74 => 0xed case 75 => 0xfe
    case 84 => 2
    case _ => 0
  }

  function SharedWord(): (file: seq<Byte>)
    ensures |file| == 100 && forall i :: 0 <= i < 100 ==> file[i] == SharedByteAt(i)
  {
    seq(100, i => SharedByteAt(i))
  }

  lemma SharedWords()
    ensures ReadAt(SharedWord(), 0, Big) == FAT_MAGIC && ReadAt(SharedWord(), 4, Big) == 2
    ensures ReadAt(SharedWord(), 16, Big) == 48 && ReadAt(SharedWord(), 20, Big) == 28
    ensures ReadAt(SharedWord(), 36, Big) == 72 && ReadAt(SharedWord(), 40, Big) == 28
    ensures ReadAt(SharedWord(), 48, Little) == MH_MAGIC && ReadAt(SharedWord(), 60, Little) == MH_EXECUTE
    ensures ReadAt(SharedWord(), 72, Little) == MH_MAGIC && ReadAt(SharedWord(), 84, Little) == MH_EXECUTE
  {
    hide ReadAt, SharedWord;
    WordAt(SharedWord(), 0, 0xca, 0xfe, 0xba, 0xbe);
    WordAt(SharedWord(), 4, 0, 0, 0, 2);
    WordAt(SharedWord(), 16, 0, 0, 0, 48);
    WordAt(SharedWord(), 20, 0, 0, 0, 28);
    WordAt(SharedWord(), 36, 0, 0, 0, 72);
    WordAt(SharedWord(), 40, 0, 0, 0, 28);
    WordAt(SharedWord(), 48, 0xce, 0xfa, 0xed, 0xfe);
    WordAt(SharedWord(), 60, 2, 0, 0, 0);
    WordAt(SharedWord(), 72, 0xce, 0xfa, 0xed, 0xfe);
    WordAt(SharedWord(), 84, 2, 0, 0, 0);
  }

  lemma SharedHeaders()
    ensures HasTable(SharedWord(), 0) && FatFile.Count(SharedWord(), 0) == Entries(SharedWord(), 0) == 2
    ensures HeaderAt(SharedWord(), 0, 0) == 48 && HeaderAt(SharedWord(), 0, 1) == 72
    ensures Acceptable(SharedWord(), 0, 0) && Acceptable(SharedWord(), 0, 1)
    ensures EndianAt(SharedWord(), 48) == [Little] && FlagsAt(SharedWord(), 48) == MH_MAGIC
  {
    SharedWords();
    hide ReadAt, SharedWord, SharedByteAt;
    assert ArchAt(0, 0) == 8 && ArchAt(0, 1) == 28 && ArchAt(0, 2) == 48;
    assert HasTable(SharedWord(), 0) && FatFile.Count(SharedWord(), 0) == 2 && Entries(SharedWord(), 0) == 2;
    assert SizeAt(SharedWord(), 0, 0) == 28 && SizeAt(SharedWord(), 0, 1) == 28;
    assert EndianAt(SharedWord(), 48) == [Little] && EndianAt(SharedWord(), 72) == [Little];
    assert IsExecutable(SharedWord(), 48) && IsExecutable(SharedWord(), 72);
  }

  /** Setting the flags of the first header makes the second one unreadable: both are acceptable, but the
      rewriting fails. */
  lemma SharedWordFails()
    ensures HasTable(SharedWord(), 0) && Entries(SharedWord(), 0) == FatFile.Count(SharedWord(), 0) == 2
    ensures !Disjoint(SharedWord(), 0, BOTH) && Acceptable(SharedWord(), 0, 0) && Acceptable(SharedWord(), 0, 1)
    ensures HandleFat(SharedWord(), 0, BOTH).outcome == MachOError
  {
    var file := SharedWord();
    SharedHeaders();
    var once := Rewrite(file, 48, BOTH);
    FirstRewritten(file, once);
    FatIsArchs(file, 0, BOTH);
    HandleArchsStep(file, 0, 0, BOTH);
    HandleArchsStep(once, 0, 1, BOTH);
    SharedIsNotDisjoint();
    hide ReadAt, HandleArchs, HandleFat, IsExecutable, HeaderAt, SizeAt, Rewrite, SharedWord, EndianAt, Disjoint;
  }

  lemma SharedIsNotDisjoint()
    ensures HasTable(SharedWord(), 0) && !Disjoint(SharedWord(), 0, BOTH)
  {
    SharedHeaders();
    hide ReadAt, IsExecutable, HeaderAt, SizeAt, SharedWord, EndianAt, FlagsAt, Entries, TableEnd;
    assert MH_MAGIC / MH_NO_HEAP_EXECUTION % 2 == 0;
    assert IsChanged(SharedWord(), 0, 0, BOTH) && !FlagsApart(48, 72);
    hide FlagsApart;
    assert !ApartFromRest(SharedWord(), 0, 48);
  }

  const BROKEN_MAGIC: UInt32 := 0xffedface

  lemma MagicAsFlags()
    ensures Wanted(MH_MAGIC, BOTH) == BROKEN_MAGIC
  {
  }

  lemma OnlyFlagsWritten(file: seq<Byte>, once: seq<Byte>)
    requires file == SharedWord() && IsExecutable(file, 48) && once == Rewrite(file, 48, BOTH)
    ensures |once| == |file| && SameRange(file, once, 0, 72) && ReadAt(once, 72, Little) == BROKEN_MAGIC
  {
    SharedHeaders();
    MagicAsFlags();
    assert once == WriteAt(file, 72, BROKEN_MAGIC, Little);
    hide *;
    ReadWritten(file, 72, BROKEN_MAGIC, Little);
    WrittenBehind(file, once);
  }

  lemma WrittenBehind(file: seq<Byte>, once: seq<Byte>)
    requires |once| == |file| == 100 && forall i :: 0 <= i < |file| && !(72 <= i < 76) ==> once[i] == file[i]
    ensures SameRange(file, once, 0, 72)
  {
  }

  lemma FirstRewritten(file: seq<Byte>, once: seq<Byte>)
    requires file == SharedWord() && IsExecutable(file, 48) && once == Rewrite(file, 48, BOTH)
    ensures HasTable(once, 0) && FatFile.Count(once, 0) == Entries(once, 0) == 2
    ensures HeaderAt(once, 0, 1) == 72 && SizeAt(once, 0, 1) == 28 && !IsExecutable(once, 72)
  {
    SharedWords();
    OnlyFlagsWritten(file, once);
    hide Rewrite, SharedWord, SharedByteAt, Wanted, ReadAt, IsExecutable;
    ReadSame(file, once, 0, Big);
    ReadSame(file, once, 4, Big);
    ReadSame(file, once, 36, Big);
    ReadSame(file, once, 40, Big);
    BrokenHeader(once);
    assert ArchAt(0, 1) == 28 && ArchAt(0, 2) == 48;
  }

  lemma BrokenHeader(once: seq<Byte>)
    requires |once| == 100 && ReadAt(once, 72, Little) == BROKEN_MAGIC
    ensures !IsExecutable(once, 72)
  {
    hide ReadAt;
    assert EndianAt(once, 72) == [];
  }
}
