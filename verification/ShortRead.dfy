/** A job that completes without the file it has read, because its first read was short. */
module ShortRead {
  import opened Bytes
  import opened Trigrams
  import opened ChunkReader
  import opened IndexViews
  import opened PostingLists
  import opened SearchIndex
  import opened IndexingJob
  import opened LostFile
  import opened IdCollisions

  const FILES := [FileContent(0, ABC)]

  /** Two of three bytes, and nothing at other offsets. */
  function TwoBytes(): Replies {
    (offset: nat) => Bytes(if offset == 0 then 2 else 0)
  }

  const PART := FileContent(0, [97, 98])

  lemma OnlyPartIsRead(outcomes: seq<Outcome>)
    ensures AllSensible(FILES, [TwoBytes()]) && !NothingCut(3, TwoBytes())
    ensures HasRun(FILES, [TwoBytes()], outcomes) ==>
              outcomes == [Indexed(2)] && IndexedFiles(FILES, outcomes) == [PART]
  {
    assert ReadFrom(ABC, TwoBytes(), 0) == Indexed(2);
    if HasRun(FILES, [TwoBytes()], outcomes) {
      assert |outcomes| == 1 && WasRead(FILES, [TwoBytes()], outcomes, 0);
      assert outcomes == [Indexed(2)] && outcomes[..0] == [];
      assert Part(FILES[0], 2) == PART;
    }
  }

  lemma NothingIsRecorded()
    ensures RecordAll(EMPTY_VIEW, [PART]).recorded == {}
  {
    assert [PART][..0] == [];
    assert FileTrigrams(PART.content) == {};
  }

  lemma NothingMatches(v: View)
    requires v.recorded == {}
    ensures Matches(v, ABC) == {}
  {
    OneTrigram(TRIGRAM_ABC);
    hide TrigramsOf;
  }

  lemma NothingFound(found: seq<Path>, v: View)
    requires v.recorded == {} && forall p :: p in found ==> p in Matches(v, ABC)
    ensures Matches(v, ABC) == {} && found == []
  {
    hide Matches;
    assert found != [] ==> found[0] in found;
    NothingMatches(v);
  }

  /** The job indexes the file and is not stopped. */
  method IndexPart() returns (index: TrigramIndex, completed: bool)
    ensures index.Valid() && index.Normalized() && completed && index.view == RecordAll(EMPTY_VIEW, [PART])
  {
    OnlyPartIsRead([]);
    index := new TrigramIndex();
    var job := new FileSystemIndexingJob();
    hide RecordAll, IndexedFiles, HasRun, AllSensible, TrigramIndex.Valid, TrigramIndex.Normalized, NothingCut;
    var outcomes;
    completed, outcomes := job.IndexFiles(index, FILES, [TwoBytes()], false);
    OnlyPartIsRead(outcomes);
  }

  /** Neither stop nor error, and the index is normalised, but the file is not found by its own content. */
  method ShortReadLosesFile() returns (index: TrigramIndex, completed: bool, found: seq<Path>)
    ensures index.Valid() && index.Normalized() && completed && index.view == RecordAll(EMPTY_VIEW, [PART])
    ensures IsText(ABC) && Occurs(ABC, ABC) && Matches(index.view, ABC) == {} && found == []
  {
    hide HasBinary, Matches, RecordAll, TrigramIndex.Valid, TrigramIndex.Normalized, TrigramIndex.HidesNothing, Occurs,
         FoundInAll, Ascending;
    Windows();
    FoundItself(ABC);
    NothingIsRecorded();
    index, completed := IndexPart();
    found := index.Search(ABC);
    assert forall p :: p in found ==> p in (set q | q in found);
    NothingFound(found, index.view);
  }
}
