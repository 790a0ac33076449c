/** Reading files in overlapping chunks and recording their trigrams. */
module IndexingJob {
  import opened Bytes
  import opened Trigrams
  import opened ChunkReader
  import opened IndexViews
  import opened SearchIndex
  import opened PostingLists

  datatype ReadResult = ReadMore | Finished(success: bool)

  /** What of a file was read. */
  function Part(f: FileContent, seen: nat): FileContent {
    f.(content := if seen <= |f.content| then f.content[..seen] else f.content)
  }

  /** What was read of the files whose reading did not fail. */
  function IndexedFiles(files: seq<FileContent>, outcomes: seq<Outcome>): seq<FileContent>
    requires |outcomes| <= |files|
  {
    if outcomes == [] then []
    else
      var last := |outcomes| - 1;
      IndexedFiles(files, outcomes[..last])
      + if outcomes[last].Indexed? then [Part(files[last], outcomes[last].seen)] else []
  }

  /** One more outcome: what was read of the file is recorded. */
  lemma OneMoreOutcome(v: View, files: seq<FileContent>, outcomes: seq<Outcome>, outcome: Outcome)
    requires |outcomes| < |files|
    ensures var before := RecordAll(v, IndexedFiles(files, outcomes));
            var f := files[|outcomes|];
            RecordAll(v, IndexedFiles(files, outcomes + [outcome]))
            == if outcome.Indexed? then Record(before, f.path, FileTrigrams(Part(f, outcome.seen).content)) else before
  {
    assert (outcomes + [outcome])[..|outcomes|] == outcomes;
    var history := IndexedFiles(files, outcomes);
    if outcome.Indexed? {
      var part := Part(files[|outcomes|], outcome.seen);
      assert IndexedFiles(files, outcomes + [outcome]) == history + [part];
      assert (history + [part])[..|history|] == history;
    } else {
      assert IndexedFiles(files, outcomes + [outcome]) == history;
    }
  }

  lemma {:induction false} IndexedIsInHistory(files: seq<FileContent>, outcomes: seq<Outcome>, k: nat)
    requires |outcomes| <= |files| && k < |outcomes| && outcomes[k].Indexed?
    ensures Part(files[k], outcomes[k].seen) in IndexedFiles(files, outcomes)
    decreases |outcomes|
  {
    var last := |outcomes| - 1;
    if k < last {
      IndexedIsInHistory(files, outcomes[..last], k);
    }
  }

  class FileSystemIndexingJob {
    var currentFileOffset: nat
    var currentTrigrams: seq<int>
    const currentTrigramsSet: array<bool>

    /** The flags say which trigrams are in the list, and the list has no duplicates. */
    ghost predicate Flagged()
      reads this`currentTrigrams, currentTrigramsSet
    {
      && currentTrigramsSet.Length == TRIGRAM_COUNT
      && (forall k :: 0 <= k < |currentTrigrams| ==> 0 <= currentTrigrams[k] < TRIGRAM_COUNT)
      && (forall j, k :: 0 <= j < k < |currentTrigrams| ==> currentTrigrams[j] != currentTrigrams[k])
      && (forall t :: 0 <= t < TRIGRAM_COUNT ==> (currentTrigramsSet[t] <==> t in currentTrigrams))
    }

    /** Everything before the offset, and the two bytes after it, has been taken in. */
    ghost predicate ReadSoFar(file: seq<Byte>)
      reads this, currentTrigramsSet
    {
      && Flagged()
      && currentFileOffset <= |file|
      && (currentFileOffset == 0 ==> currentTrigrams == [])
      && (currentFileOffset > 0 ==>
            && currentFileOffset + 2 <= |file|
            && Taken(file[..currentFileOffset + 2], Elements(currentTrigrams)))
    }

    constructor ()
      ensures currentTrigramsSet.Length == TRIGRAM_COUNT && fresh(currentTrigramsSet)
    {
      currentFileOffset, currentTrigrams := 0, [];
      currentTrigramsSet := new bool[TRIGRAM_COUNT];
    }

    method StartFileIndexing()
      requires currentTrigramsSet.Length == TRIGRAM_COUNT
      modifies this, currentTrigramsSet
      ensures currentFileOffset == 0 && currentTrigrams == [] && Flagged()
    {
      currentFileOffset := 0;
      currentTrigrams := [];
      for t := 0 to TRIGRAM_COUNT
        invariant currentFileOffset == 0 && currentTrigrams == []
        invariant forall u :: 0 <= u < t ==> !currentTrigramsSet[u]
      {
        currentTrigramsSet[t] := false;
      }
    }

    /** The codes of a chunk, unless it has a binary character. */
    static method ChunkCodes(data: seq<Byte>) returns (binary: bool, trigramChars: seq<int>)
      ensures binary == HasBinary(data)
      ensures !binary ==> trigramChars == Codes(data)
    {
      binary, trigramChars := false, [];
      for i := 0 to |data|
        invariant !HasBinary(data[..i]) && trigramChars == Codes(data[..i])
      {
        var trigramChar := TrigramChar(data[i]);
        if trigramChar == BINARY_CHAR {
          return true, [];
        }
        assert data[..i + 1] == data[..i] + [data[i]];
        trigramChars := trigramChars + [trigramChar];
      }
      assert data[..|data|] == data;
    }

    /** Adds the trigrams of one chunk that are not in the list yet. */
    method AddTrigrams(trigramChars: seq<int>, ghost data: seq<Byte>)
      requires Flagged() && trigramChars == Codes(data)
      modifies this`currentTrigrams, currentTrigramsSet
      ensures Flagged() && Elements(currentTrigrams) == Elements(old(currentTrigrams)) + TrigramsOf(data)
    {
      CodesAreCodes(data);
      hide Codes, TrigramAtIndex;
      var i := 0;
      while i + 2 < |trigramChars|
        invariant 0 <= i && Flagged()
        invariant forall t :: t in currentTrigrams <==>
                    t in old(currentTrigrams)
                    || exists k :: 0 <= k < i && k + 2 < |data| && IsDefinedAt(data, k) && TrigramOf(data, k) == t
        decreases |trigramChars| - i
      {
        var trigram := TrigramAtIndex(trigramChars, i);
        assert trigram == TrigramOf(data, i);
        if trigram != UNDEFINED_TRIGRAM && !currentTrigramsSet[trigram] {
          currentTrigramsSet[trigram] := true;
          currentTrigrams := currentTrigrams + [trigram];
        }
        i := i + 1;
      }
    }

    method OnRead(ok: bool, data: seq<Byte>, ghost file: seq<Byte>) returns (result: ReadResult)
      requires ReadSoFar(file) && currentFileOffset + |data| <= |file|
      requires data == file[currentFileOffset..currentFileOffset + |data|]
      modifies this, currentTrigramsSet
      ensures result == Finished(false) <==> !ok
      ensures result == ReadMore <==> ok && |data| >= 3 && !HasBinary(data)
      ensures result == ReadMore ==>
                ReadSoFar(file) && currentFileOffset == old(currentFileOffset) + |data| - 2
      ensures result == Finished(true) && |data| < 3 ==>
                && ReadSoFar(file) && currentFileOffset == old(currentFileOffset)
                && currentTrigrams == old(currentTrigrams)
      ensures result == Finished(true) && |data| >= 3 ==> currentTrigrams == []
    {
      if !ok {
        return Finished(false);
      }
      if |data| < 3 {
        return Finished(true);
      }
      hide HasBinary, TrigramsOf, Elements, Codes, Flagged;
      var binary, trigramChars := ChunkCodes(data);
      if binary {
        currentTrigrams := [];
        return Finished(true);
      }
      TakeChunk(trigramChars, data, file);
      return ReadMore;
    }

    /** The trigrams of a chunk without binary characters, and the next offset. */
    method TakeChunk(trigramChars: seq<int>, ghost data: seq<Byte>, ghost file: seq<Byte>)
      requires ReadSoFar(file) && |data| >= 3 && currentFileOffset + |data| <= |file|
      requires data == file[currentFileOffset..currentFileOffset + |data|] && !HasBinary(data)
               && trigramChars == Codes(data)
      modifies this`currentTrigrams, this`currentFileOffset, currentTrigramsSet
      ensures ReadSoFar(file) && currentFileOffset == old(currentFileOffset) + |data| - 2
    {
      hide HasBinary, TrigramsOf, Elements, Codes, Flagged, Taken;
      NothingTaken();
      ChunkTaken(file, currentFileOffset, currentFileOffset + |data|, Elements(currentTrigrams));
      AddTrigrams(trigramChars, data);
      currentFileOffset := currentFileOffset + |trigramChars| - 2;
    }

    /** One file from StartFileIndexing to FinishFileIndexing, whatever becomes of the reads. */
    method IndexFile(file: seq<Byte>, reply: Replies) returns (outcome: Outcome)
      requires currentTrigramsSet.Length == TRIGRAM_COUNT && Sensible(|file|, reply)
      modifies this, currentTrigramsSet
      ensures outcome == ReadFrom(file, reply, 0)
      ensures outcome.Indexed? ==> Elements(currentTrigrams) == FileTrigrams(file[..outcome.seen])
      ensures NothingCut(|file|, reply) ==> outcome.Indexed? && Elements(currentTrigrams) == FileTrigrams(file)
      ensures outcome.Indexed? ==>
                && (forall j, k :: 0 <= j < k < |currentTrigrams| ==> currentTrigrams[j] != currentTrigrams[k])
                && (forall k :: 0 <= k < |currentTrigrams| ==> 0 <= currentTrigrams[k] < TRIGRAM_COUNT)
    {
      hide HasBinary, TrigramsOf, FileTrigrams, NothingCut;
      TakenInUnlessCut(file, reply);
      StartFileIndexing();
      while true
        invariant ReadSoFar(file) && ReadFrom(file, reply, currentFileOffset) == ReadFrom(file, reply, 0)
        decreases |file| - currentFileOffset
      {
        var next := reply(currentFileOffset);
        if next.Stopping? {
          return Stopped;
        }
        var bytesRead := if next.Bytes? then next.count else 0;
        ghost var offset := currentFileOffset;
        var end := currentFileOffset + bytesRead;
        var result := OnRead(next.Bytes?, file[currentFileOffset..end], file);
        if result == Finished(false) {
          return Failed;
        }
        if result == Finished(true) {
          if bytesRead < 3 {
            ShortReadEnds(file, currentFileOffset, bytesRead);
            return Indexed(SeenAt(currentFileOffset, bytesRead));
          }
          BinaryEnds(file, offset, end);
          return Indexed(end);
        }
      }
    }

    /** One file, and what FinishFileIndexing records for it. */
    method IndexNext(index: TrigramIndex, f: FileContent, reply: Replies) returns (outcome: Outcome)
      requires index.Valid() && currentTrigramsSet.Length == TRIGRAM_COUNT && currentTrigramsSet != index.isNormalized
      requires Sensible(|f.content|, reply)
      modifies this, currentTrigramsSet, index, index.index, index.isNormalized
      ensures index.Valid() && outcome == ReadFrom(f.content, reply, 0)
      ensures index.view
              == if outcome.Indexed? then Record(old(index.view), f.path, FileTrigrams(Part(f, outcome.seen).content))
                 else old(index.view)
    {
      hide TrigramIndex.Valid, Record, FileTrigrams, Elements, ReadFrom;
      outcome := IndexFile(f.content, reply);
      if outcome.Indexed? {
        index.SetTrigramsForFile(f.path, currentTrigrams);
      }
    }

    /** IndexFiles: the files one after the other, and a normalised index unless the job is stopped. */
    method IndexFiles(index: TrigramIndex, files: seq<FileContent>, replies: seq<Replies>, stoppedAtEnd: bool)
      returns (completed: bool, outcomes: seq<Outcome>)
      requires index.Valid() && currentTrigramsSet.Length == TRIGRAM_COUNT && currentTrigramsSet != index.isNormalized
      requires AllSensible(files, replies)
      modifies this, currentTrigramsSet, index, index.index, index.isNormalized
      ensures index.Valid() && HasRun(files, replies, outcomes)
      ensures index.view == RecordAll(old(index.view), IndexedFiles(files, outcomes))
      ensures completed <==> |outcomes| == |files| && !stoppedAtEnd
      ensures completed ==> index.Normalized()
    {
      outcomes := [];
      JobStarts(index.view, files, replies);
      hide JobDone, AllSensible, HasRun, TrigramIndex.Valid, TrigramIndex.Normalized, Record, FileTrigrams, Part,
           RecordAll, IndexedFiles, ReadFrom;
      for i := 0 to |files|
        invariant index.Valid() && |outcomes| == i
        invariant JobDone(old(index.view), index.view, files, replies, outcomes)
      {
        SensibleAt(files, replies, i);
        ghost var before := index.view;
        var outcome := IndexNext(index, files[i], replies[i]);
        JobGoesOn(old(index.view), before, index.view, files, replies, outcomes, outcome);
        if outcome == Stopped {
          return false, outcomes;
        }
        outcomes := outcomes + [outcome];
      }
      JobMeans(old(index.view), index.view, files, replies, outcomes);
      if stoppedAtEnd {
        return false, outcomes;
      }
      index.NormalizeVectors();
      completed := true;
    }
  }

  // ----- a whole job -----

  predicate AllSensible(files: seq<FileContent>, replies: seq<Replies>) {
    |replies| == |files| && forall k :: 0 <= k < |files| ==> Sensible(|files[k].content|, replies[k])
  }

  lemma SensibleAt(files: seq<FileContent>, replies: seq<Replies>, k: nat)
    requires AllSensible(files, replies) && k < |files|
    ensures |replies| == |files| && Sensible(|files[k].content|, replies[k])
  {
  }

  /** File `k` was read with this outcome, and did not stop the job. */
  predicate WasRead(files: seq<FileContent>, replies: seq<Replies>, outcomes: seq<Outcome>, k: nat)
    requires AllSensible(files, replies) && k < |files| && k < |outcomes|
  {
    outcomes[k] == ReadFrom(files[k].content, replies[k], 0) && outcomes[k] != Stopped
  }

  /** The files were read with these outcomes, up to the first one at which the job was stopped. */
  predicate HasRun(files: seq<FileContent>, replies: seq<Replies>, outcomes: seq<Outcome>) {
    && AllSensible(files, replies) && |outcomes| <= |files|
    && (forall k :: 0 <= k < |outcomes| ==> WasRead(files, replies, outcomes, k))
    && (|outcomes| < |files| ==> ReadFrom(files[|outcomes|].content, replies[|outcomes|], 0) == Stopped)
  }

  /** What the job has done to the view once these outcomes are known. */
  ghost predicate JobDone(before: View, v: View, files: seq<FileContent>, replies: seq<Replies>,
                          outcomes: seq<Outcome>)
  {
    && AllSensible(files, replies) && |outcomes| <= |files|
    && v == RecordAll(before, IndexedFiles(files, outcomes))
    && forall k :: 0 <= k < |outcomes| ==> WasRead(files, replies, outcomes, k)
  }

  lemma JobStarts(v: View, files: seq<FileContent>, replies: seq<Replies>)
    requires AllSensible(files, replies)
    ensures JobDone(v, v, files, replies, [])
  {
  }

  lemma JobMeans(before: View, v: View, files: seq<FileContent>, replies: seq<Replies>, outcomes: seq<Outcome>)
    requires JobDone(before, v, files, replies, outcomes) && |outcomes| == |files|
    ensures HasRun(files, replies, outcomes) && v == RecordAll(before, IndexedFiles(files, outcomes))
  {
    hide WasRead;
  }

  /** After one more file the job is stopped, or goes on. */
  lemma JobGoesOn(before: View, v: View, w: View, files: seq<FileContent>, replies: seq<Replies>,
                  outcomes: seq<Outcome>, outcome: Outcome)
    requires JobDone(before, v, files, replies, outcomes) && |outcomes| < |files|
    requires outcome == ReadFrom(files[|outcomes|].content, replies[|outcomes|], 0)
    requires var f := files[|outcomes|];
             w == if outcome.Indexed? then Record(v, f.path, FileTrigrams(Part(f, outcome.seen).content)) else v
    ensures outcome == Stopped ==>
              HasRun(files, replies, outcomes) && w == RecordAll(before, IndexedFiles(files, outcomes))
    ensures outcome != Stopped ==> JobDone(before, w, files, replies, outcomes + [outcome])
  {
    hide Part, Record, RecordAll, IndexedFiles, FileTrigrams, ReadFrom, AllSensible;
    OneMoreOutcome(before, files, outcomes, outcome);
    if outcome != Stopped {
      OneMoreRead(files, replies, outcomes, outcome);
    }
  }

  lemma OneMoreRead(files: seq<FileContent>, replies: seq<Replies>, outcomes: seq<Outcome>, outcome: Outcome)
    requires AllSensible(files, replies) && |outcomes| < |files|
    requires forall k :: 0 <= k < |outcomes| ==> WasRead(files, replies, outcomes, k)
    requires outcome == ReadFrom(files[|outcomes|].content, replies[|outcomes|], 0) && outcome != Stopped
    ensures forall k :: 0 <= k <= |outcomes| ==> WasRead(files, replies, outcomes + [outcome], k)
  {
    hide ReadFrom, AllSensible;
    forall k | 0 <= k < |outcomes| ensures WasRead(files, replies, outcomes + [outcome], k) {
      assert WasRead(files, replies, outcomes, k);
    }
  }

  /** If nothing is cut, a job reads all files to the end and is not stopped before the last. */
  lemma AllAreRead(files: seq<FileContent>, replies: seq<Replies>, outcomes: seq<Outcome>)
    requires HasRun(files, replies, outcomes)
    requires forall k :: 0 <= k < |files| ==> NothingCut(|files[k].content|, replies[k])
    ensures |outcomes| == |files|
    ensures forall k :: 0 <= k < |files| ==>
              && outcomes[k].Indexed?
              && FileTrigrams(Part(files[k], outcomes[k].seen).content) == FileTrigrams(files[k].content)
  {
    hide ReadFrom, FileTrigrams, NothingCut;
    if |outcomes| < |files| {
      TakenInUnlessCut(files[|outcomes|].content, replies[|outcomes|]);
    }
    forall k | 0 <= k < |outcomes|
      ensures outcomes[k].Indexed?
              && FileTrigrams(Part(files[k], outcomes[k].seen).content) == FileTrigrams(files[k].content)
    {
      assert WasRead(files, replies, outcomes, k);
      TakenInUnlessCut(files[k].content, replies[k]);
    }
  }

  /** End to end: after any earlier jobs and whatever later jobs record, a file that this job came to and
      of which no read was cut is among the matches of every query that occurs in it, if it is text. */
  lemma IndexedIsFound(earlier: seq<FileContent>, files: seq<FileContent>, replies: seq<Replies>,
                       outcomes: seq<Outcome>, later: seq<FileContent>, k: nat, query: seq<Byte>)
    requires HasRun(files, replies, outcomes) && k < |outcomes| && NothingCut(|files[k].content|, replies[k])
    requires IsText(files[k].content) && Occurs(query, files[k].content)
    ensures var job := RecordAll(RecordAll(EMPTY_VIEW, earlier), IndexedFiles(files, outcomes));
            files[k].path in Matches(RecordAll(job, later), query)
  {
    assert WasRead(files, replies, outcomes, k);
    TakenInUnlessCut(files[k].content, replies[k]);
    OccurrenceHasTrigrams(query, files[k].content);
    BinaryInBytes(files[k].content);
    hide ReadFrom, NothingCut, HasRun, WasRead, TrigramsOf, RecordAll, Matches;
    RecordedIsFound(earlier, files, outcomes, later, k, query);
  }

  /** What was read of a file is enough if it has the trigrams of the query. */
  lemma RecordedIsFound(earlier: seq<FileContent>, files: seq<FileContent>, outcomes: seq<Outcome>,
                        later: seq<FileContent>, k: nat, query: seq<Byte>)
    requires |outcomes| <= |files| && k < |outcomes| && outcomes[k].Indexed?
    requires TrigramsOf(query) <= FileTrigrams(Part(files[k], outcomes[k].seen).content)
    ensures var job := RecordAll(RecordAll(EMPTY_VIEW, earlier), IndexedFiles(files, outcomes));
            files[k].path in Matches(RecordAll(job, later), query)
  {
    var recorded := IndexedFiles(files, outcomes);
    var history := earlier + recorded + later;
    var part := Part(files[k], outcomes[k].seen);
    hide RecordAll, Matches, TrigramsOf, FileTrigrams;
    RecordAllConcat(EMPTY_VIEW, earlier, recorded);
    RecordAllConcat(EMPTY_VIEW, earlier + recorded, later);
    IndexedIsInHistory(files, outcomes, k);
    assert part in history;
    var i :| 0 <= i < |history| && history[i] == part;
    FoundByTrigrams(history, i, query);
  }
}
