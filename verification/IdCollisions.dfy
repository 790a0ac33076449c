/** Files that share an id, and the matches that are none. */
module IdCollisions {
  import opened Bytes
  import opened Trigrams
  import opened IndexViews
  import opened LostFile

  /** The matches of every query are the files for which all its trigrams were recorded. */
  ghost predicate IsExact(v: View) {
    forall query: seq<Byte>, p: Path ::
      p in Matches(v, query) <==> p in v.order && forall t :: t in TrigramsOf(query) ==> (p, t) in v.recorded
  }

  /** One trigram, recorded for the first file. */
  function FirstOnly(order: seq<Path>): View
    requires order != []
  {
    View(order, {(order[0], TRIGRAM_ABC)})
  }

  lemma OneTrigram(t: int)
    ensures t in TrigramsOf(ABC) <==> t == TRIGRAM_ABC
    ensures 0 <= TRIGRAM_ABC < TRIGRAM_COUNT
  {
    Windows();
    TrigramListMembers(ABC, t);
    hide TrigramsOf, TrigramList;
  }

  /** File 65536, counted from 0, has the id of the first. */
  lemma IdsRepeat(order: seq<Path>)
    requires Distinct(order) && |order| > FILE_ID_COUNT
    ensures var v, p := FirstOnly(order), order[FILE_ID_COUNT];
            order[0] != p && RecordedFor(v, TRIGRAM_ABC, IdOf(v, p))
  {
    var v, p := FirstOnly(order), order[FILE_ID_COUNT];
    hide IdOf;
    IdAt(v, 0);
    IdAt(v, FILE_ID_COUNT);
    assert order[0] in v.order && (order[0], TRIGRAM_ABC) in v.recorded && IdOf(v, order[0]) == IdOf(v, p);
  }

  /** So it matches in its place. */
  lemma SharedIdMatches(order: seq<Path>)
    requires Distinct(order) && |order| > FILE_ID_COUNT
    ensures WellFormed(FirstOnly(order)) && order[FILE_ID_COUNT] in Matches(FirstOnly(order), ABC)
    ensures TRIGRAM_ABC in TrigramsOf(ABC) && (order[FILE_ID_COUNT], TRIGRAM_ABC) !in FirstOnly(order).recorded
  {
    var v, p := FirstOnly(order), order[FILE_ID_COUNT];
    hide TrigramsOf, IdOf, RecordedFor;
    IdsRepeat(order);
    OneTrigram(TRIGRAM_ABC);
    forall t | t in TrigramsOf(ABC) ensures t == TRIGRAM_ABC {
      OneTrigram(t);
    }
  }

  /** Whatever is recorded for these files, a search has no false positives: that holds exactly if there
      are at most 65536 of them. */
  lemma ExactUpToIds(order: seq<Path>)
    requires Distinct(order)
    ensures (forall v :: WellFormed(v) && v.order == order ==> IsExact(v)) <==> |order| <= FILE_ID_COUNT
  {
    if |order| <= FILE_ID_COUNT {
      forall v, query: seq<Byte>, p: Path | WellFormed(v) && v.order == order
        ensures p in Matches(v, query) <==> p in v.order && forall t :: t in TrigramsOf(query) ==> (p, t) in v.recorded
      {
        MatchesExactly(v, query, p);
      }
    } else {
      SharedIdMatches(order);
      hide Matches, TrigramsOf, WellFormed;
      assert !IsExact(FirstOnly(order));
    }
  }

  // ----- an indexing history that leads there -----

  /** `n` files, of which only the first has a content. */
  function Files(n: nat): (files: seq<FileContent>)
    ensures |files| == n && forall i :: 0 <= i < n ==> files[i] == FileContent(i, if i == 0 then ABC else [])
  {
    seq(n, i requires 0 <= i < n => FileContent(i, if i == 0 then ABC else []))
  }

  function Paths(n: nat): (paths: seq<Path>)
    ensures |paths| == n && forall i :: 0 <= i < n ==> paths[i] == i
  {
    seq(n, i requires 0 <= i < n => i)
  }

  lemma {:induction false} FilesRecorded(n: nat)
    requires n > 0
    ensures RecordAll(EMPTY_VIEW, Files(n)) == FirstOnly(Paths(n))
  {
    var front, last := Files(n)[..n - 1], Files(n)[n - 1];
    assert front == Files(n - 1);
    assert Paths(n) == Paths(n - 1) + [n - 1];
    assert RecordAll(EMPTY_VIEW, Files(n)) == Record(RecordAll(EMPTY_VIEW, front), n - 1, FileTrigrams(last.content));
    Contents();
    hide Record, FirstOnly, FileTrigrams;
    if n == 1 {
      FirstFile();
    } else {
      FilesRecorded(n - 1);
      NothingToRecord();
      EmptyFile(Paths(n - 1), n - 1);
    }
  }

  lemma NothingToRecord()
    ensures FileTrigrams([]) == {}
  {
  }

  lemma FirstFile()
    ensures Record(EMPTY_VIEW, 0, Elements([TRIGRAM_ABC])) == FirstOnly([0])
  {
    assert Elements([TRIGRAM_ABC]) == {TRIGRAM_ABC};
    assert Pairs(0, {TRIGRAM_ABC}) == {(0, TRIGRAM_ABC)};
  }

  lemma EmptyFile(order: seq<Path>, p: Path)
    requires order != [] && p !in order
    ensures Record(FirstOnly(order), p, {}) == FirstOnly(order + [p])
  {
    assert Pairs(p, {}) == {};
  }

  /** An empty file is among the matches of a query that occurs in another file only. */
  lemma EmptyFileMatches()
    ensures var history := Files(FILE_ID_COUNT + 1);
            && FILE_ID_COUNT in Matches(RecordAll(EMPTY_VIEW, history), ABC)
            && (forall k :: 0 <= k < |history| && history[k].path == FILE_ID_COUNT ==> history[k].content == [])
            && !Occurs(ABC, [])
  {
    var n := FILE_ID_COUNT + 1;
    FilesRecorded(n);
    hide RecordAll, Matches, TrigramsOf;
    SharedIdMatches(Paths(n));
  }
}
