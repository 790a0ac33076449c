/** Fat files: the headers of all architectures, rewritten one after the other in the same file. */
module FatFile {
  import opened Bytes
  import opened MachO

  function ArchAt(fatOffset: nat, index: nat): nat {
    fatOffset + FAT_HEADER_SIZE + FAT_ARCH_SIZE * index
  }

  /** The architectures from `index` on.  The table is read from the file as it is by then. */
  function HandleArchs(file: seq<Byte>, fatOffset: nat, index: nat, count: nat, options: Options): (h: Handled)
    requires index <= count
    ensures |h.file| == |file|
    decreases count - index
  {
    var at := ArchAt(fatOffset, index);
    if index == count then Handled(file, Done)
    else if at + FAT_ARCH_SIZE > |file| then Handled(file, MachOError)
    else if ReadAt(file, at + 12, Big) < MACH_HEADER_SIZE then Handled(file, AssertionError)
    else
      var h := HandleMachO(file, ReadAt(file, at + 8, Big), options);
      if h.outcome != Done then h else HandleArchs(h.file, fatOffset, index + 1, count, options)
  }

  function HandleFat(file: seq<Byte>, fatOffset: nat, options: Options): (h: Handled)
    ensures |h.file| == |file|
  {
    if fatOffset + 4 > |file| then Handled(file, MachOError)
    else if ReadAt(file, fatOffset, Big) != FAT_MAGIC then Handled(file, AssertionError)
    else if fatOffset + 8 > |file| then Handled(file, MachOError)
    else HandleArchs(file, fatOffset, 0, ReadAt(file, fatOffset + 4, Big), options)
  }

  // ----- layout -----

  /** A fat header; the table behind it may be cut short by the end of the file. */
  predicate HasTable(file: seq<Byte>, fatOffset: nat) {
    fatOffset + 8 <= |file| && ReadAt(file, fatOffset, Big) == FAT_MAGIC
  }

  function Count(file: seq<Byte>, fatOffset: nat): nat
    requires fatOffset + 8 <= |file|
  {
    ReadAt(file, fatOffset + 4, Big)
  }

  /** How many architectures of the table are complete. */
  function Entries(file: seq<Byte>, fatOffset: nat): (n: nat)
    requires fatOffset + 8 <= |file|
    ensures n <= Count(file, fatOffset) && ArchAt(fatOffset, n) <= |file|
    ensures n < Count(file, fatOffset) ==> ArchAt(fatOffset, n) + FAT_ARCH_SIZE > |file|
  {
    var room := (|file| - fatOffset - 8) / FAT_ARCH_SIZE;
    if room < Count(file, fatOffset) then room else Count(file, fatOffset)
  }

  function TableEnd(file: seq<Byte>, fatOffset: nat): nat
    requires fatOffset + 8 <= |file|
  {
    ArchAt(fatOffset, Entries(file, fatOffset))
  }

  lemma ArchInTable(file: seq<Byte>, fatOffset: nat, k: nat)
    requires fatOffset + 8 <= |file| && k < Entries(file, fatOffset)
    ensures fatOffset + 8 <= ArchAt(fatOffset, k)
    ensures ArchAt(fatOffset, k) + FAT_ARCH_SIZE <= TableEnd(file, fatOffset) <= |file|
  {
  }

  /** Where the Mach-O header of architecture `k` is. */
  function HeaderAt(file: seq<Byte>, fatOffset: nat, k: nat): nat
    requires HasTable(file, fatOffset) && k < Entries(file, fatOffset)
  {
    ArchInTable(file, fatOffset, k);
    ReadAt(file, ArchAt(fatOffset, k) + 8, Big)
  }

  function SizeAt(file: seq<Byte>, fatOffset: nat, k: nat): nat
    requires HasTable(file, fatOffset) && k < Entries(file, fatOffset)
  {
    ArchInTable(file, fatOffset, k);
    ReadAt(file, ArchAt(fatOffset, k) + 12, Big)
  }

  /** Two words of four bytes do not overlap. */
  predicate WordsApart(a: nat, b: nat) {
    a + 4 <= b || b + 4 <= a
  }

  /** The flags of the header at `a` are none of what is read of the header at `b`: its magic number, its
      file type and its flags. */
  predicate FlagsApart(a: nat, b: nat) {
    WordsApart(a + 24, b) && WordsApart(a + 24, b + 12) && WordsApart(a + 24, b + 24)
  }

  /** Architecture `k` names an executable of sufficient size. */
  predicate Acceptable(file: seq<Byte>, fatOffset: nat, k: nat)
    requires HasTable(file, fatOffset) && k < Entries(file, fatOffset)
  {
    SizeAt(file, fatOffset, k) >= MACH_HEADER_SIZE && IsExecutable(file, HeaderAt(file, fatOffset, k))
  }

  /** The first architecture from `k` on that cannot be handled, or the number of all. */
  function FirstRefused(file: seq<Byte>, fatOffset: nat, k: nat): (m: nat)
    requires HasTable(file, fatOffset) && k <= Entries(file, fatOffset)
    ensures k <= m <= Entries(file, fatOffset)
    ensures forall j :: k <= j < m ==> Acceptable(file, fatOffset, j)
    ensures m < Entries(file, fatOffset) ==> !Acceptable(file, fatOffset, m)
    decreases Entries(file, fatOffset) - k
  {
    if k == Entries(file, fatOffset) || !Acceptable(file, fatOffset, k) then k else FirstRefused(file, fatOffset, k + 1)
  }

  /** Handling architecture `k` changes its flags. */
  predicate IsChanged(file: seq<Byte>, fatOffset: nat, k: nat, options: Options)
    requires HasTable(file, fatOffset) && k < Entries(file, fatOffset)
  {
    Acceptable(file, fatOffset, k) && !FlagsMatch(FlagsAt(file, HeaderAt(file, fatOffset, k)), options)
  }

  /** No flags that are changed are part of the table or of what is read of another header, up to the first
      architecture that is refused. */
  predicate Disjoint(file: seq<Byte>, fatOffset: nat, options: Options)
    requires HasTable(file, fatOffset)
  {
    forall j :: 0 <= j < FirstRefused(file, fatOffset, 0) && IsChanged(file, fatOffset, j, options) ==>
      ApartFromRest(file, fatOffset, HeaderAt(file, fatOffset, j))
  }

  /** The flags of the header at `at` are not part of what else is read. */
  predicate ApartFromRest(file: seq<Byte>, fatOffset: nat, at: nat)
    requires HasTable(file, fatOffset)
  {
    && (at + MACH_HEADER_SIZE <= fatOffset || TableEnd(file, fatOffset) <= at + 24)
    && (forall k :: 0 <= k <= FirstRefused(file, fatOffset, 0) && k < Entries(file, fatOffset) ==>
          at == HeaderAt(file, fatOffset, k) || FlagsApart(at, HeaderAt(file, fatOffset, k)))
  }

  /** Byte `i` belongs to flags that are changed, of one of the first `k` architectures. */
  predicate InChanged(file: seq<Byte>, fatOffset: nat, k: nat, i: int, options: Options)
    requires HasTable(file, fatOffset) && k <= Entries(file, fatOffset)
  {
    exists j :: 0 <= j < k && IsChanged(file, fatOffset, j, options)
                && HeaderAt(file, fatOffset, j) + 24 <= i < HeaderAt(file, fatOffset, j) + 28
  }

  predicate HeaderDone(file: seq<Byte>, r: seq<Byte>, at: nat, options: Options) {
    && IsExecutable(file, at) && IsExecutable(r, at)
    && FlagsAt(r, at) == Wanted(FlagsAt(file, at), options)
  }

  /** `r` is `file` with the flags of the first `k` architectures as wanted, and changed nowhere else. */
  predicate DoneUpTo(file: seq<Byte>, r: seq<Byte>, fatOffset: nat, k: nat, options: Options)
    requires HasTable(file, fatOffset) && k <= Entries(file, fatOffset)
  {
    && |r| == |file|
    && (forall j :: 0 <= j < k ==> HeaderDone(file, r, HeaderAt(file, fatOffset, j), options))
    && (forall i :: 0 <= i < |file| && !InChanged(file, fatOffset, k, i, options) ==> r[i] == file[i])
  }

  // ----- what is rewritten -----

  /** The table reads the same while headers are rewritten. */
  lemma TableSame(file: seq<Byte>, r: seq<Byte>, fatOffset: nat, k: nat, options: Options)
    requires HasTable(file, fatOffset) && Disjoint(file, fatOffset, options)
    requires k <= FirstRefused(file, fatOffset, 0) && DoneUpTo(file, r, fatOffset, k, options)
    ensures HasTable(r, fatOffset) && Count(r, fatOffset) == Count(file, fatOffset)
    ensures Entries(r, fatOffset) == Entries(file, fatOffset)
    ensures forall j :: 0 <= j < Entries(file, fatOffset) ==>
              && HeaderAt(r, fatOffset, j) == HeaderAt(file, fatOffset, j)
              && SizeAt(r, fatOffset, j) == SizeAt(file, fatOffset, j)
  {
    hide ReadAt, HeaderAt, TableEnd, Count, Entries, HasTable, InChanged, FirstRefused, Disjoint, HeaderDone;
    forall i | fatOffset <= i < TableEnd(file, fatOffset) && i < |file| ensures file[i] == r[i] {
      TableUnchanged(file, fatOffset, k, i, options);
    }
    SameTable(file, r, fatOffset);
  }

  lemma SameTable(file: seq<Byte>, r: seq<Byte>, fatOffset: nat)
    requires HasTable(file, fatOffset) && SameRange(file, r, fatOffset, TableEnd(file, fatOffset))
    ensures HasTable(r, fatOffset) && Count(r, fatOffset) == Count(file, fatOffset)
    ensures Entries(r, fatOffset) == Entries(file, fatOffset)
    ensures forall j :: 0 <= j < Entries(file, fatOffset) ==>
              && HeaderAt(r, fatOffset, j) == HeaderAt(file, fatOffset, j)
              && SizeAt(r, fatOffset, j) == SizeAt(file, fatOffset, j)
  {
    hide ReadAt;
    ReadSame(file, r, fatOffset, Big);
    ReadSame(file, r, fatOffset + 4, Big);
    assert Entries(r, fatOffset) == Entries(file, fatOffset);
    hide Entries, TableEnd;
    forall j | 0 <= j < Entries(file, fatOffset)
      ensures HeaderAt(r, fatOffset, j) == HeaderAt(file, fatOffset, j)
              && SizeAt(r, fatOffset, j) == SizeAt(file, fatOffset, j)
    {
      ArchInTable(file, fatOffset, j);
      ReadSame(file, r, ArchAt(fatOffset, j) + 8, Big);
      ReadSame(file, r, ArchAt(fatOffset, j) + 12, Big);
    }
  }

  lemma TableUnchanged(file: seq<Byte>, fatOffset: nat, k: nat, i: int, options: Options)
    requires HasTable(file, fatOffset) && Disjoint(file, fatOffset, options)
    requires k <= FirstRefused(file, fatOffset, 0) && fatOffset <= i < TableEnd(file, fatOffset)
    ensures !InChanged(file, fatOffset, k, i, options)
  {
    hide HeaderAt, TableEnd, Entries, HasTable, IsChanged, FirstRefused, FlagsApart;
    forall j | 0 <= j < k && IsChanged(file, fatOffset, j, options)
      ensures !(HeaderAt(file, fatOffset, j) + 24 <= i < HeaderAt(file, fatOffset, j) + 28)
    {
      assert ApartFromRest(file, fatOffset, HeaderAt(file, fatOffset, j));
    }
  }

  /** Nothing changes what is read of the header of architecture `j`, but a change of its own flags. */
  lemma HeaderUnchanged(file: seq<Byte>, fatOffset: nat, k: nat, j: nat, i: int, options: Options)
    requires HasTable(file, fatOffset) && Disjoint(file, fatOffset, options)
    requires k <= FirstRefused(file, fatOffset, 0)
    requires j <= FirstRefused(file, fatOffset, 0) && j < Entries(file, fatOffset)
    requires var at := HeaderAt(file, fatOffset, j);
             || at <= i < at + 4 || at + 12 <= i < at + 16
             || (at + 24 <= i < at + 28 && !ChangedBefore(file, fatOffset, k, at, options))
    ensures !InChanged(file, fatOffset, k, i, options)
  {
    hide HeaderAt, TableEnd, Entries, HasTable, IsChanged, FirstRefused;
    forall l | 0 <= l < k && IsChanged(file, fatOffset, l, options)
      ensures !(HeaderAt(file, fatOffset, l) + 24 <= i < HeaderAt(file, fatOffset, l) + 28)
    {
      assert ApartFromRest(file, fatOffset, HeaderAt(file, fatOffset, l));
    }
  }

  /** The flags of the header at `at` are changed by one of the first `k` architectures. */
  predicate ChangedBefore(file: seq<Byte>, fatOffset: nat, k: nat, at: nat, options: Options)
    requires HasTable(file, fatOffset) && k <= Entries(file, fatOffset)
  {
    exists j :: 0 <= j < k && IsChanged(file, fatOffset, j, options) && HeaderAt(file, fatOffset, j) == at
  }

  /** What is read of the header of another architecture is the same, its flags if they were not changed. */
  lemma OtherHeaderSame(file: seq<Byte>, r: seq<Byte>, fatOffset: nat, k: nat, j: nat, options: Options)
    requires HasTable(file, fatOffset) && Disjoint(file, fatOffset, options)
    requires k <= FirstRefused(file, fatOffset, 0)
    requires j <= FirstRefused(file, fatOffset, 0) && j < Entries(file, fatOffset)
    requires DoneUpTo(file, r, fatOffset, k, options)
    ensures var at := HeaderAt(file, fatOffset, j);
            && SameRange(file, r, at, at + 4) && SameRange(file, r, at + 12, at + 16)
            && (IsExecutable(file, at) <==> IsExecutable(r, at))
            && (!ChangedBefore(file, fatOffset, k, at, options) ==> SameRange(file, r, at + 24, at + 28))
  {
    hide ReadAt, EndianAt, IsExecutable, HeaderAt, TableEnd, Count, Entries, HasTable, HeaderDone, FirstRefused,
         Disjoint, InChanged, ChangedBefore;
    var at := HeaderAt(file, fatOffset, j);
    forall i | (at <= i < at + 4 || at + 12 <= i < at + 16) && i < |file| ensures file[i] == r[i] {
      HeaderUnchanged(file, fatOffset, k, j, i, options);
    }
    HeaderSame(file, r, at);
    if !ChangedBefore(file, fatOffset, k, at, options) {
      forall i | at + 24 <= i < at + 28 && i < |file| ensures file[i] == r[i] {
        HeaderUnchanged(file, fatOffset, k, j, i, options);
      }
    }
  }

  /** Rewriting one more header, new or seen before. */
  lemma OneMoreHeader(file: seq<Byte>, r: seq<Byte>, fatOffset: nat, k: nat, options: Options)
    requires HasTable(file, fatOffset) && Disjoint(file, fatOffset, options)
    requires k < FirstRefused(file, fatOffset, 0) && DoneUpTo(file, r, fatOffset, k, options)
    ensures var at := HeaderAt(file, fatOffset, k);
            && IsExecutable(file, at) && IsExecutable(r, at)
            && DoneUpTo(file, Rewrite(r, at, options), fatOffset, k + 1, options)
  {
    assert Acceptable(file, fatOffset, k);
    hide ReadAt, EndianAt, IsExecutable, HeaderAt, TableEnd, Count, Entries, HasTable, FlagsAt, Rewrite, Wanted,
         FlagsMatch, OtherBitsSame, FirstRefused, Disjoint, DoneUpTo;
    OtherHeaderSame(file, r, fatOffset, k, k, options);
    if IsChanged(file, fatOffset, k, options) {
      OneMoreChanged(file, r, fatOffset, k, options);
    } else {
      OneMoreWanted(file, r, fatOffset, k, options);
    }
  }

  /** It has the wanted flags already. */
  lemma OneMoreWanted(file: seq<Byte>, r: seq<Byte>, fatOffset: nat, k: nat, options: Options)
    requires HasTable(file, fatOffset) && Disjoint(file, fatOffset, options)
    requires k < FirstRefused(file, fatOffset, 0) && DoneUpTo(file, r, fatOffset, k, options)
    requires !IsChanged(file, fatOffset, k, options)
    ensures var at := HeaderAt(file, fatOffset, k);
            && IsExecutable(r, at)
            && DoneUpTo(file, Rewrite(r, at, options), fatOffset, k + 1, options)
  {
    assert Acceptable(file, fatOffset, k);
    hide ReadAt, EndianAt, IsExecutable, HeaderAt, TableEnd, Count, Entries, HasTable, FlagsAt, Rewrite, Wanted,
         FlagsMatch, OtherBitsSame, FirstRefused, Disjoint;
    var at := HeaderAt(file, fatOffset, k);
    SameHeaderSameChange(file, fatOffset, k, options);
    OtherHeaderSame(file, r, fatOffset, k, k, options);
    FlagsSame(file, r, at);
    WantedFlags(FlagsAt(file, at), options);
    RewriteNothing(r, at, options);
    assert HeaderDone(file, r, at, options);
    forall i | 0 <= i < |file| && !InChanged(file, fatOffset, k + 1, i, options) ensures r[i] == file[i] {
      assert !InChanged(file, fatOffset, k, i, options);
    }
  }

  lemma SameHeaderSameChange(file: seq<Byte>, fatOffset: nat, k: nat, options: Options)
    requires HasTable(file, fatOffset) && k < Entries(file, fatOffset)
    requires Acceptable(file, fatOffset, k) && !IsChanged(file, fatOffset, k, options)
    ensures !ChangedBefore(file, fatOffset, k, HeaderAt(file, fatOffset, k), options)
  {
    hide ReadAt, HeaderAt, TableEnd, Count, Entries, HasTable, FlagsAt, FlagsMatch;
  }

  lemma OneMoreChanged(file: seq<Byte>, r: seq<Byte>, fatOffset: nat, k: nat, options: Options)
    requires HasTable(file, fatOffset) && Disjoint(file, fatOffset, options)
    requires k < FirstRefused(file, fatOffset, 0) && DoneUpTo(file, r, fatOffset, k, options)
    requires IsChanged(file, fatOffset, k, options) && IsExecutable(r, HeaderAt(file, fatOffset, k))
    ensures DoneUpTo(file, Rewrite(r, HeaderAt(file, fatOffset, k), options), fatOffset, k + 1, options)
  {
    hide ReadAt, EndianAt, IsExecutable, HeaderAt, TableEnd, Count, Entries, HasTable, FlagsAt, Rewrite, Wanted,
         FlagsMatch, OtherBitsSame, FirstRefused, Disjoint, IsChanged, ApartFromRest, InChanged, HeaderDone;
    ChangedIsApart(file, fatOffset, k, options);
    ThisIsDone(file, r, fatOffset, k, options);
    var s := Rewrite(r, HeaderAt(file, fatOffset, k), options);
    OthersAreDone(file, r, s, fatOffset, k, options);
    RestIsSame(file, r, s, fatOffset, k, options);
  }

  lemma ChangedIsApart(file: seq<Byte>, fatOffset: nat, k: nat, options: Options)
    requires HasTable(file, fatOffset) && Disjoint(file, fatOffset, options)
    requires k < FirstRefused(file, fatOffset, 0) && IsChanged(file, fatOffset, k, options)
    ensures ApartFromRest(file, fatOffset, HeaderAt(file, fatOffset, k))
  {
    hide HeaderAt, HasTable, FirstRefused, IsChanged, ApartFromRest;
  }

  lemma OthersAreDone(file: seq<Byte>, r: seq<Byte>, s: seq<Byte>, fatOffset: nat, k: nat, options: Options)
    requires HasTable(file, fatOffset) && k < FirstRefused(file, fatOffset, 0)
    requires DoneUpTo(file, r, fatOffset, k, options) && HeaderDone(file, s, HeaderAt(file, fatOffset, k), options)
    requires var at := HeaderAt(file, fatOffset, k);
             && ApartFromRest(file, fatOffset, at)
             && |s| == |r| && forall i :: 0 <= i < |r| && !(at + 24 <= i < at + 28) ==> s[i] == r[i]
    ensures forall j :: 0 <= j < k + 1 ==> HeaderDone(file, s, HeaderAt(file, fatOffset, j), options)
  {
    hide HeaderAt, HasTable, FirstRefused, ApartFromRest, HeaderDone, InChanged;
    forall j | 0 <= j < k ensures HeaderDone(file, s, HeaderAt(file, fatOffset, j), options) {
      OthersStayDone(file, r, s, fatOffset, k, j, options);
    }
  }

  lemma RestIsSame(file: seq<Byte>, r: seq<Byte>, s: seq<Byte>, fatOffset: nat, k: nat, options: Options)
    requires HasTable(file, fatOffset) && k < Entries(file, fatOffset) && IsChanged(file, fatOffset, k, options)
    requires DoneUpTo(file, r, fatOffset, k, options)
    requires var at := HeaderAt(file, fatOffset, k);
             |s| == |r| && forall i :: 0 <= i < |r| && !(at + 24 <= i < at + 28) ==> s[i] == r[i]
    ensures forall i :: 0 <= i < |file| && !InChanged(file, fatOffset, k + 1, i, options) ==> s[i] == file[i]
  {
    hide HeaderAt, HasTable, Entries, IsChanged, HeaderDone, InChanged;
    forall i | 0 <= i < |file| && !InChanged(file, fatOffset, k + 1, i, options) ensures s[i] == file[i] {
      ChangedNext(file, fatOffset, k, i, options);
    }
  }

  lemma ThisIsDone(file: seq<Byte>, r: seq<Byte>, fatOffset: nat, k: nat, options: Options)
    requires HasTable(file, fatOffset) && Disjoint(file, fatOffset, options)
    requires k < FirstRefused(file, fatOffset, 0) && DoneUpTo(file, r, fatOffset, k, options)
    requires IsExecutable(r, HeaderAt(file, fatOffset, k))
    ensures var at := HeaderAt(file, fatOffset, k);
            var s := Rewrite(r, at, options);
            && HeaderDone(file, s, at, options)
            && forall i :: 0 <= i < |r| && !(at + 24 <= i < at + 28) ==> s[i] == r[i]
  {
    assert Acceptable(file, fatOffset, k);
    hide ReadAt, EndianAt, IsExecutable, HeaderAt, TableEnd, Count, Entries, HasTable, FlagsAt, Rewrite, Wanted,
         FlagsMatch, OtherBitsSame, FirstRefused, Disjoint, DoneUpTo;
    RewriteExactly(r, HeaderAt(file, fatOffset, k), options);
    FlagsBefore(file, r, fatOffset, k, options);
  }

  /** A header that was done stays so while the flags at another place are changed. */
  lemma OthersStayDone(file: seq<Byte>, r: seq<Byte>, s: seq<Byte>, fatOffset: nat, k: nat, j: nat, options: Options)
    requires HasTable(file, fatOffset) && j < k < FirstRefused(file, fatOffset, 0)
    requires HeaderDone(file, r, HeaderAt(file, fatOffset, j), options)
    requires var at := HeaderAt(file, fatOffset, k);
             && ApartFromRest(file, fatOffset, at) && HeaderDone(file, s, at, options)
             && |s| == |r| && forall i :: 0 <= i < |r| && !(at + 24 <= i < at + 28) ==> s[i] == r[i]
    ensures HeaderDone(file, s, HeaderAt(file, fatOffset, j), options)
  {
    hide ReadAt, EndianAt, IsExecutable, HeaderAt, TableEnd, Count, Entries, HasTable, FlagsAt, Wanted, FirstRefused;
    var at, other := HeaderAt(file, fatOffset, k), HeaderAt(file, fatOffset, j);
    if other != at {
      assert FlagsApart(at, other);
      FlagsSame(r, s, other);
    }
  }

  lemma ChangedNext(file: seq<Byte>, fatOffset: nat, k: nat, i: int, options: Options)
    requires HasTable(file, fatOffset) && k < Entries(file, fatOffset) && IsChanged(file, fatOffset, k, options)
    requires !InChanged(file, fatOffset, k + 1, i, options)
    ensures !InChanged(file, fatOffset, k, i, options)
    ensures !(HeaderAt(file, fatOffset, k) + 24 <= i < HeaderAt(file, fatOffset, k) + 28)
  {
    hide HeaderAt, HasTable, Entries, IsChanged;
  }

  /** The flags that are about to be rewritten are the original ones, or already the wanted ones. */
  lemma FlagsBefore(file: seq<Byte>, r: seq<Byte>, fatOffset: nat, k: nat, options: Options)
    requires HasTable(file, fatOffset) && Disjoint(file, fatOffset, options)
    requires k < FirstRefused(file, fatOffset, 0) && DoneUpTo(file, r, fatOffset, k, options)
    requires IsExecutable(file, HeaderAt(file, fatOffset, k)) && IsExecutable(r, HeaderAt(file, fatOffset, k))
    ensures var at := HeaderAt(file, fatOffset, k);
            Wanted(FlagsAt(r, at), options) == Wanted(FlagsAt(file, at), options)
  {
    hide ReadAt, EndianAt, IsExecutable, HeaderAt, TableEnd, Count, Entries, HasTable, FlagsAt, Wanted, FlagsMatch,
         OtherBitsSame, FirstRefused, Disjoint, InChanged, IsChanged;
    var at := HeaderAt(file, fatOffset, k);
    if ChangedBefore(file, fatOffset, k, at, options) {
      var j :| 0 <= j < k && IsChanged(file, fatOffset, j, options) && HeaderAt(file, fatOffset, j) == at;
      assert HeaderDone(file, r, at, options);
      WantedFlags(FlagsAt(file, at), options);
    } else {
      OtherHeaderSame(file, r, fatOffset, k, k, options);
      FlagsSame(file, r, at);
    }
  }

  /** What is wrong with an architecture that is refused. */
  function Refusal(file: seq<Byte>, fatOffset: nat, k: nat): Outcome
    requires HasTable(file, fatOffset) && k <= Entries(file, fatOffset)
  {
    if k == Count(file, fatOffset) then Done
    else if k == Entries(file, fatOffset) then MachOError
    else if SizeAt(file, fatOffset, k) < MACH_HEADER_SIZE then AssertionError
    else MachOError
  }

  lemma HandleArchsStep(file: seq<Byte>, fatOffset: nat, k: nat, options: Options)
    requires HasTable(file, fatOffset) && k < Entries(file, fatOffset)
    ensures var at := HeaderAt(file, fatOffset, k);
            HandleArchs(file, fatOffset, k, Count(file, fatOffset), options)
            == if SizeAt(file, fatOffset, k) < MACH_HEADER_SIZE then Handled(file, AssertionError)
               else if !IsExecutable(file, at) then Handled(file, MachOError)
               else HandleArchs(Rewrite(file, at, options), fatOffset, k + 1, Count(file, fatOffset), options)
  {
    ArchInTable(file, fatOffset, k);
    hide ReadAt, EndianAt, IsExecutable, TableEnd, Rewrite;
  }

  /** Behind the last complete architecture. */
  lemma HandleArchsEnd(file: seq<Byte>, fatOffset: nat, options: Options)
    requires HasTable(file, fatOffset)
    ensures HandleArchs(file, fatOffset, Entries(file, fatOffset), Count(file, fatOffset), options)
         == Handled(file, Refusal(file, fatOffset, Entries(file, fatOffset)))
  {
    hide ReadAt, HandleMachO;
  }

  /** The same architecture is refused again. */
  lemma RefusedAgain(file: seq<Byte>, r: seq<Byte>, fatOffset: nat, m: nat, options: Options)
    requires HasTable(file, fatOffset) && Disjoint(file, fatOffset, options)
    requires m == FirstRefused(file, fatOffset, 0) && DoneUpTo(file, r, fatOffset, m, options)
    ensures HasTable(r, fatOffset) && m <= Entries(r, fatOffset)
            && Refusal(r, fatOffset, m) == Refusal(file, fatOffset, m)
    ensures m < Entries(r, fatOffset) ==> !Acceptable(r, fatOffset, m)
  {
    hide ReadAt, EndianAt, IsExecutable, HeaderAt, SizeAt, TableEnd, Count, Entries, Disjoint, DoneUpTo, ChangedBefore;
    TableSame(file, r, fatOffset, m, options);
    if m < Entries(file, fatOffset) {
      OtherHeaderSame(file, r, fatOffset, m, m, options);
    }
  }

  lemma {:induction false} ArchsHandled(file: seq<Byte>, r: seq<Byte>, fatOffset: nat, k: nat, options: Options)
    requires HasTable(file, fatOffset) && Disjoint(file, fatOffset, options)
    requires k <= FirstRefused(file, fatOffset, 0) && DoneUpTo(file, r, fatOffset, k, options)
    ensures var h := HandleArchs(r, fatOffset, k, Count(file, fatOffset), options);
            var m := FirstRefused(file, fatOffset, 0);
            DoneUpTo(file, h.file, fatOffset, m, options) && h.outcome == Refusal(file, fatOffset, m)
    decreases Entries(file, fatOffset) - k
  {
    hide ReadAt, EndianAt, IsExecutable, HeaderAt, SizeAt, TableEnd, Count, Entries, Rewrite, DoneUpTo, Disjoint,
         HandleArchs, FirstRefused, ChangedBefore;
    TableSame(file, r, fatOffset, k, options);
    if k == FirstRefused(file, fatOffset, 0) {
      RefusedAgain(file, r, fatOffset, k, options);
      RefusedAtOnce(r, fatOffset, k, options);
      hide Refusal, Acceptable;
    } else {
      OneMoreHeader(file, r, fatOffset, k, options);
      HandleArchsStep(r, fatOffset, k, options);
      assert Acceptable(file, fatOffset, k);
      ArchsHandled(file, Rewrite(r, HeaderAt(file, fatOffset, k), options), fatOffset, k + 1, options);
    }
  }

  /** If no flags that are changed are part of anything else that is read, exactly the flags up to the first
      architecture that is refused or cut off are as wanted, everything else stays as it was, and the
      outcome says whether there is one. */
  lemma FatHandled(file: seq<Byte>, fatOffset: nat, options: Options)
    requires HasTable(file, fatOffset) && Disjoint(file, fatOffset, options)
    ensures var h := HandleFat(file, fatOffset, options);
            var m := FirstRefused(file, fatOffset, 0);
            && DoneUpTo(file, h.file, fatOffset, m, options) && h.outcome == Refusal(file, fatOffset, m)
            && (h.outcome == Done <==>
                  && Entries(file, fatOffset) == Count(file, fatOffset)
                  && forall k :: 0 <= k < Entries(file, fatOffset) ==> Acceptable(file, fatOffset, k))
  {
    NothingDoneYet(file, fatOffset, options);
    ArchsHandled(file, file, fatOffset, 0, options);
    FatIsArchs(file, fatOffset, options);
    hide ReadAt, IsExecutable, HeaderAt, TableEnd, Count, Entries, HandleArchs, HandleFat, DoneUpTo, Disjoint;
  }

  lemma NothingDoneYet(file: seq<Byte>, fatOffset: nat, options: Options)
    requires HasTable(file, fatOffset)
    ensures DoneUpTo(file, file, fatOffset, 0, options)
  {
  }

  lemma RewriteNothing(file: seq<Byte>, at: nat, options: Options)
    requires IsExecutable(file, at) && Wanted(FlagsAt(file, at), options) == FlagsAt(file, at)
    ensures Rewrite(file, at, options) == file
  {
    WriteBack(file, at + 24, EndianAt(file, at)[0]);
  }

  /** Architecture `k` has the wanted flags already. */
  predicate IsWanted(file: seq<Byte>, fatOffset: nat, k: nat, options: Options)
    requires HasTable(file, fatOffset) && k < Entries(file, fatOffset)
  {
    && Acceptable(file, fatOffset, k)
    && Wanted(FlagsAt(file, HeaderAt(file, fatOffset, k)), options) == FlagsAt(file, HeaderAt(file, fatOffset, k))
  }

  lemma WantedStep(file: seq<Byte>, fatOffset: nat, k: nat, options: Options)
    requires HasTable(file, fatOffset) && k < Entries(file, fatOffset) && IsWanted(file, fatOffset, k, options)
    ensures HandleArchs(file, fatOffset, k, Count(file, fatOffset), options)
         == HandleArchs(file, fatOffset, k + 1, Count(file, fatOffset), options)
  {
    hide ReadAt, HeaderAt, SizeAt, TableEnd, Count, Entries, Wanted, IsExecutable, HandleArchs, Rewrite;
    HandleArchsStep(file, fatOffset, k, options);
    RewriteNothing(file, HeaderAt(file, fatOffset, k), options);
  }

  /** From `k` on the flags are as wanted, up to the first architecture that is refused. */
  lemma {:induction false} NothingToRewrite(file: seq<Byte>, fatOffset: nat, k: nat, m: nat, options: Options)
    requires HasTable(file, fatOffset) && k <= m <= Entries(file, fatOffset)
    requires forall j :: k <= j < m ==> IsWanted(file, fatOffset, j, options)
    requires m < Entries(file, fatOffset) ==> !Acceptable(file, fatOffset, m)
    ensures HandleArchs(file, fatOffset, k, Count(file, fatOffset), options)
         == Handled(file, Refusal(file, fatOffset, m))
    decreases m - k
  {
    hide IsWanted, ReadAt, TableEnd, Count, Entries, HandleMachO, Refusal, HandleArchs;
    if k < m {
      WantedStep(file, fatOffset, k, options);
      NothingToRewrite(file, fatOffset, k + 1, m, options);
    } else {
      RefusedAtOnce(file, fatOffset, m, options);
    }
  }

  lemma RefusedAtOnce(file: seq<Byte>, fatOffset: nat, m: nat, options: Options)
    requires HasTable(file, fatOffset) && m <= Entries(file, fatOffset)
    requires m < Entries(file, fatOffset) ==> !Acceptable(file, fatOffset, m)
    ensures HandleArchs(file, fatOffset, m, Count(file, fatOffset), options)
         == Handled(file, Refusal(file, fatOffset, m))
  {
    if m < Entries(file, fatOffset) {
      HandleArchsStep(file, fatOffset, m, options);
      hide ReadAt, TableEnd, HandleArchs, IsExecutable, HeaderAt, SizeAt;
    } else {
      HandleArchsEnd(file, fatOffset, options);
    }
  }

  /** Every header that was rewritten has the wanted flags. */
  lemma FatDone(file: seq<Byte>, r: seq<Byte>, fatOffset: nat, k: nat, m: nat, options: Options)
    requires HasTable(file, fatOffset) && Disjoint(file, fatOffset, options)
    requires k < m <= FirstRefused(file, fatOffset, 0) && DoneUpTo(file, r, fatOffset, m, options)
    ensures var at := HeaderAt(file, fatOffset, k);
            && HeaderDone(file, r, at, options) && FlagsMatch(FlagsAt(r, at), options)
            && HasTable(r, fatOffset) && k < Entries(r, fatOffset) && IsWanted(r, fatOffset, k, options)
  {
    hide ReadAt, EndianAt, IsExecutable, HeaderAt, SizeAt, TableEnd, Count, Entries, FlagsAt, Wanted, FlagsMatch,
         OtherBitsSame, Disjoint;
    assert Acceptable(file, fatOffset, k);
    var at := HeaderAt(file, fatOffset, k);
    TableSame(file, r, fatOffset, m, options);
    assert HeaderDone(file, r, at, options);
    WantedFlags(FlagsAt(file, at), options);
  }

  /** Handling a fat file again changes nothing and ends the same way, refused or not. */
  lemma FatIdempotent(file: seq<Byte>, fatOffset: nat, options: Options)
    requires HasTable(file, fatOffset) && Disjoint(file, fatOffset, options)
    ensures var h := HandleFat(file, fatOffset, options);
            HandleFat(h.file, fatOffset, options) == h
            && forall k :: 0 <= k < FirstRefused(file, fatOffset, 0) ==>
                 HeaderDone(file, h.file, HeaderAt(file, fatOffset, k), options)
                 && FlagsMatch(FlagsAt(h.file, HeaderAt(file, fatOffset, k)), options)
  {
    var h, m := HandleFat(file, fatOffset, options), FirstRefused(file, fatOffset, 0);
    FatHandled(file, fatOffset, options);
    hide ReadAt, IsExecutable, HeaderAt, SizeAt, Count, Entries, FlagsMatch, HandleArchs, HandleFat, Disjoint, DoneUpTo,
         Acceptable, IsWanted, HeaderDone, TableEnd, Refusal;
    RefusedAgain(file, h.file, fatOffset, m, options);
    forall k | 0 <= k < m
      ensures IsWanted(h.file, fatOffset, k, options)
      ensures HeaderDone(file, h.file, HeaderAt(file, fatOffset, k), options)
              && FlagsMatch(FlagsAt(h.file, HeaderAt(file, fatOffset, k)), options)
    {
      FatDone(file, h.file, fatOffset, k, m, options);
    }
    NothingToRewrite(h.file, fatOffset, 0, m, options);
    FatIsArchs(h.file, fatOffset, options);
  }

  lemma FatIsArchs(file: seq<Byte>, fatOffset: nat, options: Options)
    requires HasTable(file, fatOffset)
    ensures HandleFat(file, fatOffset, options) == HandleArchs(file, fatOffset, 0, Count(file, fatOffset), options)
  {
    hide ReadAt, HandleArchs;
  }
}
