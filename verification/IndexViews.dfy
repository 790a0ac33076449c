/**
  What the search index means: the files in the order they got their ids, and which trigrams were
  ever recorded for which file.  Ids have 16 bits and wrap around.
 */
module IndexViews {
  import opened Bytes
  import opened Sequences
  import opened Trigrams

  /** A file path, as its rank in the order of all paths. */
  type Path = nat

  const FILE_ID_COUNT: int := 0x1_0000

  datatype View = View(order: seq<Path>, recorded: set<(Path, int)>)

  const EMPTY_VIEW := View([], {})

  predicate Distinct(s: seq<Path>) {
    forall i, j :: 0 <= i < j < |s| ==> s[i] != s[j]
  }

  predicate WellFormed(v: View) {
    && Distinct(v.order)
    && forall r :: r in v.recorded ==> r.0 in v.order && 0 <= r.1 < TRIGRAM_COUNT
  }

  /** The first file gets id 1, and after 65535 comes 0. */
  function IdOf(v: View, p: Path): (id: int)
    requires p in v.order
    ensures 0 <= id < FILE_ID_COUNT
  {
    (IndexOf(v.order, p) + 1) % FILE_ID_COUNT
  }

  function Register(v: View, p: Path): View {
    if p in v.order then v else v.(order := v.order + [p])
  }

  function Pairs(p: Path, trigrams: set<int>): set<(Path, int)> {
    set t | t in trigrams :: (p, t)
  }

  function Elements(s: seq<int>): set<int> {
    set t | t in s
  }

  lemma OneMorePair(p: Path, s: seq<int>, t: int)
    ensures Pairs(p, Elements(s + [t])) == Pairs(p, Elements(s)) + {(p, t)}
  {
    assert Elements(s + [t]) == Elements(s) + {t};
  }

  lemma NoPairs(p: Path)
    ensures Pairs(p, Elements([])) == {}
  {
  }

  function Record(v: View, p: Path, trigrams: set<int>): View {
    Register(v, p).(recorded := v.recorded + Pairs(p, trigrams))
  }

  /** The trigram was recorded for some file with this id. */
  predicate RecordedFor(v: View, trigram: int, id: int) {
    exists p :: p in v.order && (p, trigram) in v.recorded && IdOf(v, p) == id
  }

  /** What a search is to find: the files whose id was recorded for every trigram of the query. */
  function Matches(v: View, query: seq<Byte>): set<Path> {
    set p | p in v.order && forall t :: t in TrigramsOf(query) ==> RecordedFor(v, t, IdOf(v, p))
  }

  lemma IdAt(v: View, i: nat)
    requires Distinct(v.order) && i < |v.order|
    ensures IdOf(v, v.order[i]) == (i + 1) % FILE_ID_COUNT
  {
    var k := IndexOf(v.order, v.order[i]);
    assert k == i;
  }

  lemma RegisterKeepsIds(v: View, p: Path, q: Path)
    requires WellFormed(v) && q in v.order
    ensures WellFormed(Register(v, p)) && q in Register(v, p).order && IdOf(Register(v, p), q) == IdOf(v, q)
  {
    var r := Register(v, p);
    var i := IndexOf(v.order, q);
    assert r.order[i] == q;
    IdAt(r, i);
  }

  lemma RegisteredId(v: View, p: Path)
    requires WellFormed(v)
    ensures WellFormed(Register(v, p)) && p in Register(v, p).order
    ensures p !in v.order ==> IdOf(Register(v, p), p) == (|v.order| + 1) % FILE_ID_COUNT
  {
    if p !in v.order {
      IdAt(Register(v, p), |v.order|);
    }
  }

  lemma RecordKeepsWellFormed(v: View, p: Path, trigrams: set<int>)
    requires WellFormed(v) && forall t :: t in trigrams ==> 0 <= t < TRIGRAM_COUNT
    ensures WellFormed(Record(v, p, trigrams))
  {
    RegisteredId(v, p);
  }

  /** A new file takes an id, but nothing is recorded for it yet. */
  lemma RegisterKeepsRecorded(v: View, p: Path, trigram: int)
    requires WellFormed(v)
    ensures forall id :: RecordedFor(Register(v, p), trigram, id) <==> RecordedFor(v, trigram, id)
  {
    var r := Register(v, p);
    forall q | q in v.order ensures q in r.order && IdOf(r, q) == IdOf(v, q) {
      RegisterKeepsIds(v, p, q);
    }
    forall id ensures RecordedFor(r, trigram, id) <==> RecordedFor(v, trigram, id) {
      if RecordedFor(r, trigram, id) {
        var q :| q in r.order && (q, trigram) in r.recorded && IdOf(r, q) == id;
        assert q in v.order;
      }
      if RecordedFor(v, trigram, id) {
        var q :| q in v.order && (q, trigram) in v.recorded && IdOf(v, q) == id;
        assert q in r.order;
      }
    }
  }

  /** What a new file changes: it takes the next id. */
  lemma RegisterNew(v: View, p: Path)
    requires WellFormed(v) && p !in v.order
    ensures var r := Register(v, p);
            && WellFormed(r) && |r.order| == |v.order| + 1
            && (forall q :: q in r.order <==> q in v.order || q == p)
            && IdOf(r, p) == (|v.order| % FILE_ID_COUNT + 1) % FILE_ID_COUNT
            && (forall q :: q in v.order ==> IdOf(r, q) == IdOf(v, q))
            && (forall t, id :: RecordedFor(r, t, id) <==> RecordedFor(v, t, id))
  {
    RegisteredId(v, p);
    hide IdOf, RecordedFor, WellFormed;
    forall q | q in v.order ensures IdOf(Register(v, p), q) == IdOf(v, q) {
      RegisterKeepsIds(v, p, q);
    }
    forall t, id ensures RecordedFor(Register(v, p), t, id) <==> RecordedFor(v, t, id) {
      RegisterKeepsRecorded(v, p, t);
    }
  }

  lemma RecordOneTrigram(v: View, p: Path, recorded: int)
    requires WellFormed(v) && p in v.order && 0 <= recorded < TRIGRAM_COUNT
    ensures var r := v.(recorded := v.recorded + {(p, recorded)});
            && WellFormed(r) && (forall q :: q in v.order ==> IdOf(r, q) == IdOf(v, q))
            && (forall t, id :: RecordedFor(r, t, id) <==> RecordedFor(v, t, id) || (t == recorded && id == IdOf(v, p)))
  {
    hide RecordedFor;
    forall t, id ensures RecordedFor(v.(recorded := v.recorded + {(p, recorded)}), t, id)
                    <==> RecordedFor(v, t, id) || (t == recorded && id == IdOf(v, p))
    {
      RecordOne(v, p, recorded, t, id);
    }
  }

  /** Recording one trigram adds the id of its file to one posting list. */
  lemma RecordOne(v: View, p: Path, recorded: int, trigram: int, id: int)
    requires p in v.order
    ensures RecordedFor(v.(recorded := v.recorded + {(p, recorded)}), trigram, id)
       <==> RecordedFor(v, trigram, id) || (trigram == recorded && id == IdOf(v, p))
  {
    var r := v.(recorded := v.recorded + {(p, recorded)});
    if RecordedFor(r, trigram, id) {
      var q :| q in r.order && (q, trigram) in r.recorded && IdOf(r, q) == id;
      assert IdOf(v, q) == id;
    }
    if RecordedFor(v, trigram, id) {
      var q :| q in v.order && (q, trigram) in v.recorded && IdOf(v, q) == id;
      assert IdOf(r, q) == id;
    }
    if trigram == recorded && id == IdOf(v, p) {
      assert IdOf(r, p) == id;
    }
  }

  ghost predicate IdsDistinct(v: View) {
    forall p, q :: p in v.order && q in v.order && p != q ==> IdOf(v, p) != IdOf(v, q)
  }

  /** Ids tell files apart exactly as long as there are at most 65536 of them. */
  lemma IdsDistinctExactly(v: View)
    requires WellFormed(v)
    ensures IdsDistinct(v) <==> |v.order| <= FILE_ID_COUNT
  {
    if |v.order| <= FILE_ID_COUNT {
      forall p, q | p in v.order && q in v.order && p != q ensures IdOf(v, p) != IdOf(v, q) {
        var i, j := IndexOf(v.order, p), IndexOf(v.order, q);
        assert i != j;
      }
    } else {
      IdAt(v, 0);
      IdAt(v, FILE_ID_COUNT);
      assert v.order[0] != v.order[FILE_ID_COUNT];
      assert v.order[0] in v.order && v.order[FILE_ID_COUNT] in v.order;
    }
  }

  /** With that many files a search finds exactly the files for which every trigram was recorded. */
  lemma MatchesExactly(v: View, query: seq<Byte>, p: Path)
    requires WellFormed(v) && |v.order| <= FILE_ID_COUNT
    ensures p in Matches(v, query) <==> p in v.order && forall t :: t in TrigramsOf(query) ==> (p, t) in v.recorded
  {
    IdsDistinctExactly(v);
    if p in Matches(v, query) {
      forall t | t in TrigramsOf(query) ensures (p, t) in v.recorded {
        assert RecordedFor(v, t, IdOf(v, p));
      }
    }
    if p in v.order && forall t :: t in TrigramsOf(query) ==> (p, t) in v.recorded {
      forall t | t in TrigramsOf(query) ensures RecordedFor(v, t, IdOf(v, p)) {
      }
    }
  }

  // ----- histories -----

  /** One file that was read to its end. */
  datatype FileContent = FileContent(path: Path, content: seq<Byte>)

  function RecordAll(v: View, history: seq<FileContent>): View
    decreases |history|
  {
    if history == [] then v
    else
      var front := RecordAll(v, history[..|history| - 1]);
      var last := history[|history| - 1];
      Record(front, last.path, FileTrigrams(last.content))
  }

  /** One job after the other is one longer history. */
  lemma {:induction false} RecordAllConcat(v: View, first: seq<FileContent>, second: seq<FileContent>)
    ensures RecordAll(v, first + second) == RecordAll(RecordAll(v, first), second)
    decreases |second|
  {
    if second == [] {
      assert first + second == first;
    } else {
      assert (first + second)[..|first + second| - 1] == first + second[..|second| - 1];
      RecordAllConcat(v, first, second[..|second| - 1]);
    }
  }

  lemma TrigramsInRange(text: seq<Byte>)
    ensures forall t :: t in FileTrigrams(text) ==> 0 <= t < TRIGRAM_COUNT
  {
  }

  lemma {:induction false} RecordAllWellFormed(v: View, history: seq<FileContent>)
    requires WellFormed(v)
    ensures WellFormed(RecordAll(v, history))
    decreases |history|
  {
    if history != [] {
      RecordAllWellFormed(v, history[..|history| - 1]);
      var last := history[|history| - 1];
      TrigramsInRange(last.content);
      RecordKeepsWellFormed(RecordAll(v, history[..|history| - 1]), last.path, FileTrigrams(last.content));
    }
  }

  /** Nothing recorded is ever forgotten, whatever is indexed later. */
  lemma {:induction false} NothingForgotten(v: View, history: seq<FileContent>, k: nat)
    requires k < |history|
    ensures var r := RecordAll(v, history);
            && history[k].path in r.order
            && forall t :: t in FileTrigrams(history[k].content) ==> (history[k].path, t) in r.recorded
    decreases |history|
  {
    if k < |history| - 1 {
      NothingForgotten(v, history[..|history| - 1], k);
    }
  }

  lemma FoundByTrigrams(history: seq<FileContent>, k: nat, query: seq<Byte>)
    requires k < |history| && TrigramsOf(query) <= FileTrigrams(history[k].content)
    ensures history[k].path in Matches(RecordAll(EMPTY_VIEW, history), query)
  {
    var v := RecordAll(EMPTY_VIEW, history);
    NothingForgotten(EMPTY_VIEW, history, k);
    var p := history[k].path;
    forall t | t in TrigramsOf(query) ensures RecordedFor(v, t, IdOf(v, p)) {
      assert (p, t) in v.recorded;
    }
  }

  /** No false negatives: whatever was indexed before or after, re-indexing and wrapped ids included,
      a file of text bytes is found by every query that occurs in its content. */
  lemma NoFalseNegatives(history: seq<FileContent>, k: nat, query: seq<Byte>)
    requires k < |history| && IsText(history[k].content) && Occurs(query, history[k].content)
    ensures history[k].path in Matches(RecordAll(EMPTY_VIEW, history), query)
  {
    BinaryInBytes(history[k].content);
    OccurrenceHasTrigrams(query, history[k].content);
    FoundByTrigrams(history, k, query);
  }

  lemma {:induction false} RecordedOnlyFrom(history: seq<FileContent>, p: Path, t: int)
    requires (p, t) in RecordAll(EMPTY_VIEW, history).recorded
    ensures exists k :: 0 <= k < |history| && history[k].path == p && t in FileTrigrams(history[k].content)
    decreases |history|
  {
    if history != [] {
      var last := |history| - 1;
      if history[last].path == p && t in FileTrigrams(history[last].content) {
      } else {
        RecordedOnlyFrom(history[..last], p, t);
      }
    }
  }

  /** For three known bytes and not too many files, a search is exactly substring search in all the contents
      a file ever had, as far as they were text. */
  lemma ThreeCharacterSearchExactly(history: seq<FileContent>, p: Path, query: seq<Byte>)
    requires |RecordAll(EMPTY_VIEW, history).order| <= FILE_ID_COUNT
    requires |query| == 3 && IsKnownByte(query[0]) && IsKnownByte(query[1]) && IsKnownByte(query[2])
    ensures p in Matches(RecordAll(EMPTY_VIEW, history), query) <==>
              exists k :: 0 <= k < |history| && history[k].path == p && IsText(history[k].content)
                          && Occurs(query, history[k].content)
  {
    var v := RecordAll(EMPTY_VIEW, history);
    DefinedInBytes(query, 0);
    RecordAllWellFormed(EMPTY_VIEW, history);
    MatchesExactly(v, query, p);
    var t := TrigramOf(query, 0);
    assert TrigramsOf(query) == {t} by {
      assert t in TrigramsOf(query);
    }
    if p in Matches(v, query) {
      RecordedOnlyFrom(history, p, t);
      var k :| 0 <= k < |history| && history[k].path == p && t in FileTrigrams(history[k].content);
      ThreeCharactersDecide(query, history[k].content);
      BinaryInBytes(history[k].content);
    }
    forall k | 0 <= k < |history| && history[k].path == p && IsText(history[k].content)
      ensures Occurs(query, history[k].content) ==> p in Matches(v, query)
    {
      if Occurs(query, history[k].content) {
        NoFalseNegatives(history, k, query);
      }
    }
  }
}
