/** Reading a file in overlapping chunks, and what becomes of it for any sizes of the reads. */
module ChunkReader {
  import opened Bytes
  import opened Trigrams
  import opened IndexViews

  const MAX_READ_LENGTH: int := 10 * 1024

  /** What becomes of a read: the job is stopped before it, it fails, or it delivers bytes. */
  datatype Reply = Stopping | Error | Bytes(count: nat)

  /** The replies by offset; every offset is read at most once. */
  type Replies = nat -> Reply

  /** How the indexing of one file ended; `seen` bytes of the file were read. */
  datatype Outcome = Indexed(seen: nat) | Failed | Stopped

  /** A read delivers what there is, at most the length asked for. */
  predicate Sensible(length: nat, reply: Replies) {
    forall offset :: 0 <= offset <= length && reply(offset).Bytes? ==>
      reply(offset).count <= MAX_READ_LENGTH && offset + reply(offset).count <= length
  }

  predicate IsLong(r: Reply) {
    r.Bytes? && r.count >= 3
  }

  /** Reads start at the beginning, or two bytes before the end of the last one. */
  predicate IsOffset(length: nat, offset: nat) {
    offset > 0 ==> offset + 2 <= length
  }

  /** How many bytes a reader has seen that gets `count` more at `offset`, less than three. */
  function SeenAt(offset: nat, count: nat): nat {
    if offset > 0 then offset + 2 else count
  }

  /** The reader from `offset` on. */
  function ReadFrom(file: seq<Byte>, reply: Replies, offset: nat): (outcome: Outcome)
    requires Sensible(|file|, reply) && IsOffset(|file|, offset)
    ensures outcome.Indexed? ==> outcome.seen <= |file|
    decreases |file| - offset
  {
    match reply(offset)
    case Stopping => Stopped
    case Error => Failed
    case Bytes(count) =>
      if count < 3 then Indexed(SeenAt(offset, count))
      else if HasBinary(file[offset..offset + count]) then Indexed(offset + count)
      else ReadFrom(file, reply, offset + count - 2)
  }

  /** What was read of the file has all its trigrams. */
  predicate TakenIn(file: seq<Byte>, reply: Replies)
    requires Sensible(|file|, reply)
  {
    var outcome := ReadFrom(file, reply, 0);
    outcome.Indexed? && FileTrigrams(file[..outcome.seen]) == FileTrigrams(file)
  }

  /** The first offset that gets no long reply, in a file without binary characters. */
  function LastOffset(length: nat, reply: Replies, offset: nat): (last: nat)
    requires Sensible(length, reply) && IsOffset(length, offset)
    ensures IsOffset(length, last) && !IsLong(reply(last))
    decreases length - offset
  {
    if IsLong(reply(offset)) then LastOffset(length, reply, offset + reply(offset).count - 2) else offset
  }

  /** That reply is neither a stop nor an error, and less than three bytes are left. */
  predicate NothingCut(length: nat, reply: Replies)
    requires Sensible(length, reply)
  {
    var last := LastOffset(length, reply, 0);
    reply(last).Bytes? && length - last < 3
  }

  // ----- chunks -----

  lemma BinaryInPart(file: seq<Byte>, a: nat, b: nat)
    requires a <= b <= |file| && HasBinary(file[a..b])
    ensures HasBinary(file)
  {
    var i :| 0 <= i < b - a && TrigramChar(file[a..b][i]) == BINARY_CHAR;
    assert TrigramChar(file[a + i]) == BINARY_CHAR;
  }

  /** These are the trigrams of a text without binary characters. */
  predicate Taken(text: seq<Byte>, trigrams: set<int>) {
    !HasBinary(text) && trigrams == TrigramsOf(text)
  }

  lemma NothingTaken()
    ensures Elements([]) == {}
  {
  }

  /** A chunk without binary characters extends what has been read. */
  lemma ChunkTaken(file: seq<Byte>, offset: nat, end: nat, trigrams: set<int>)
    requires offset + 3 <= end <= |file| && !HasBinary(file[offset..end])
    requires if offset > 0 then Taken(file[..offset + 2], trigrams) else trigrams == {}
    ensures Taken(file[..end], trigrams + TrigramsOf(file[offset..end]))
  {
    forall i | 0 <= i < end ensures TrigramChar(file[..end][i]) != BINARY_CHAR {
      if i >= offset {
        assert file[..end][i] == file[offset..end][i - offset];
      } else {
        assert file[..end][i] == file[..offset + 2][i];
      }
    }
    if offset == 0 {
      assert file[..end] == file[offset..end];
    } else {
      OverlappingParts(file, offset, end);
    }
  }

  /** The end of a file, or a short read before it, after the trigrams up to `offset + 2` were taken. */
  lemma ShortReadEnds(file: seq<Byte>, offset: nat, bytesRead: nat)
    requires offset + bytesRead <= |file| && bytesRead < 3
    requires offset > 0 ==> offset + 2 <= |file| && !HasBinary(file[..offset + 2])
    ensures offset > 0 ==> FileTrigrams(file[..offset + 2]) == TrigramsOf(file[..offset + 2])
    ensures offset == 0 ==> FileTrigrams(file[..bytesRead]) == Elements([])
    ensures |file| - offset < 3 ==>
              FileTrigrams(file[..if offset > 0 then offset + 2 else bytesRead]) == FileTrigrams(file)
  {
    if |file| - offset < 3 && offset > 0 {
      assert file[..offset + 2] == file;
    }
  }

  lemma BinaryEnds(file: seq<Byte>, offset: nat, end: nat)
    requires offset <= end <= |file| && HasBinary(file[offset..end])
    ensures FileTrigrams(file[..end]) == FileTrigrams(file) == Elements([])
  {
    assert file[..end][offset..end] == file[offset..end];
    BinaryInPart(file[..end], offset, end);
    BinaryInPart(file, offset, end);
  }

  lemma PrefixIsClean(file: seq<Byte>, offset: nat, end: nat)
    requires offset + 3 <= end <= |file| && !HasBinary(file[offset..end])
    requires offset > 0 ==> !HasBinary(file[..offset + 2])
    ensures !HasBinary(file[..end])
  {
    ChunkTaken(file, offset, end, if offset > 0 then TrigramsOf(file[..offset + 2]) else {});
    hide TrigramsOf, HasBinary;
  }

  // ----- which replies take in everything -----

  /** The rest of a file is taken in if nothing is cut. */
  lemma {:induction false} RestIsTaken(file: seq<Byte>, reply: Replies, offset: nat)
    requires Sensible(|file|, reply) && IsOffset(|file|, offset)
    requires offset > 0 ==> !HasBinary(file[..offset + 2])
    requires var last := LastOffset(|file|, reply, offset); reply(last).Bytes? && |file| - last < 3
    ensures var outcome := ReadFrom(file, reply, offset);
            outcome.Indexed? && FileTrigrams(file[..outcome.seen]) == FileTrigrams(file)
    decreases |file| - offset
  {
    hide HasBinary, TrigramsOf, FileTrigrams;
    if IsLong(reply(offset)) {
      var end := offset + reply(offset).count;
      if HasBinary(file[offset..end]) {
        BinaryEnds(file, offset, end);
      } else {
        PrefixIsClean(file, offset, end);
        RestIsTaken(file, reply, end - 2);
      }
    } else {
      ShortReadEnds(file, offset, reply(offset).count);
    }
  }

  /** That is so if reads only fall below three bytes when less than three are left. */
  lemma NothingCutIf(length: nat, reply: Replies)
    requires Sensible(length, reply)
    requires forall offset :: 0 <= offset <= length ==>
               reply(offset).Bytes? && (reply(offset).count < 3 ==> length - offset < 3)
    ensures NothingCut(length, reply)
  {
    hide LastOffset;
  }

  lemma TakenInUnlessCut(file: seq<Byte>, reply: Replies)
    requires Sensible(|file|, reply)
    ensures NothingCut(|file|, reply) ==> TakenIn(file, reply)
  {
    hide HasBinary, FileTrigrams, ReadFrom, LastOffset;
    if NothingCut(|file|, reply) {
      RestIsTaken(file, reply, 0);
    }
  }

  /** A file without binary characters is read to the last offset. */
  lemma {:induction false} CleanRead(file: seq<Byte>, reply: Replies, offset: nat)
    requires Sensible(|file|, reply) && IsOffset(|file|, offset) && !HasBinary(file)
    ensures var last := LastOffset(|file|, reply, offset);
            ReadFrom(file, reply, offset)
            == (match reply(last)
                case Stopping => Stopped
                case Error => Failed
                case Bytes(count) => Indexed(SeenAt(last, count)))
    decreases |file| - offset
  {
    if IsLong(reply(offset)) {
      var end := offset + reply(offset).count;
      if HasBinary(file[offset..end]) {
        BinaryInPart(file, offset, end);
      }
      hide HasBinary;
      CleanRead(file, reply, end - 2);
    }
  }

  const LETTER_A: Byte := 97
  const LETTER_B: Byte := 98

  /** Equal letters up to the cut, and another one behind it. */
  function Turning(length: nat, seen: nat): (file: seq<Byte>)
    ensures |file| == length && forall i :: 0 <= i < length ==> file[i] == if i < seen then LETTER_A else LETTER_B
  {
    seq(length, i requires 0 <= i < length => if i < seen then LETTER_A else LETTER_B)
  }

  lemma LettersAreDefined(file: seq<Byte>)
    requires forall i :: 0 <= i < |file| ==> file[i] == LETTER_A || file[i] == LETTER_B
    ensures !HasBinary(file) && forall i :: 0 <= i < |file| - 2 ==> IsDefinedAt(file, i)
  {
    RankClosed(LETTER_A);
    RankClosed(LETTER_B);
  }

  /** The trigram at the end is not among those in front of the cut. */
  lemma TurningIsLost(length: nat, seen: nat)
    requires seen < length && length >= 3
    ensures !HasBinary(Turning(length, seen))
    ensures FileTrigrams(Turning(length, seen)[..seen]) != FileTrigrams(Turning(length, seen))
  {
    var file := Turning(length, seen);
    var part, w := file[..seen], length - 3;
    LettersAreDefined(file);
    LettersAreDefined(part);
    hide HasBinary, IsDefinedAt, TrigramOf;
    assert TrigramOf(file, w) in TrigramsOf(file);
    if TrigramOf(file, w) in TrigramsOf(part) {
      var i :| 0 <= i < |part| - 2 && IsDefinedAt(part, i) && TrigramOf(part, i) == TrigramOf(file, w);
      TrigramsAreFoldedWindows(part, i, file, w);
      assert false;
    }
  }

  /** The reader takes in every file of a length if and only if the job is not stopped, no read fails and
      no read delivers less than three bytes while three or more are left. */
  lemma TakenInExactly(length: nat, reply: Replies)
    requires Sensible(length, reply)
    ensures (forall file: seq<Byte> | |file| == length :: TakenIn(file, reply)) <==> NothingCut(length, reply)
  {
    var last := LastOffset(length, reply, 0);
    hide HasBinary, FileTrigrams, ReadFrom, LastOffset;
    if NothingCut(length, reply) {
      forall file: seq<Byte> | |file| == length ensures TakenIn(file, reply) {
        TakenInUnlessCut(file, reply);
      }
    } else {
      var seen := if reply(last).Bytes? then SeenAt(last, reply(last).count) else 0;
      var file := Turning(length, seen);
      LettersAreDefined(file);
      CleanRead(file, reply, 0);
      if reply(last).Bytes? {
        TurningIsLost(length, seen);
      }
      assert !TakenIn(file, reply);
    }
  }
}
