/** A search that loses a file, because the posting lists were not normalised. */
module LostFile {
  import opened Bytes
  import opened Sequences
  import opened Trigrams
  import opened PostingLists
  import opened IndexViews
  import opened SearchIndex

  const ABC: seq<Byte> := [97, 98, 99]
  const ABCD: seq<Byte> := [97, 98, 99, 100]

  /** File 0 is indexed, then file 1, then file 0 again with the content of file 1. */
  const HISTORY := [FileContent(0, ABC), FileContent(1, ABCD), FileContent(0, ABCD)]

  const TRIGRAM_ABC := TRIGRAM_COUNT / CHARACTER_COUNT * 39 + CHARACTER_COUNT * 40 + 41
  const TRIGRAM_BCD := TRIGRAM_COUNT / CHARACTER_COUNT * 40 + CHARACTER_COUNT * 41 + 42

  lemma CodeOfLetter(b: Byte)
    requires 97 <= b <= 122
    ensures TrigramChar(b) == b - 58 && Code(b) == b - 58
  {
    RankClosed(b);
  }

  lemma LettersOnly(text: seq<Byte>)
    requires forall i :: 0 <= i < |text| ==> 97 <= text[i] <= 122
    ensures !HasBinary(text)
  {
    forall i | 0 <= i < |text| ensures TrigramChar(text[i]) != BINARY_CHAR {
      CodeOfLetter(text[i]);
    }
  }

  lemma LetterWindow(text: seq<Byte>, i: nat, a: Byte, b: Byte, c: Byte)
    requires i + 2 < |text| && text[i] == a && text[i + 1] == b && text[i + 2] == c
    requires 97 <= a <= 122 && 97 <= b <= 122 && 97 <= c <= 122
    ensures TrigramOf(text, i) == CHARACTER_COUNT * CHARACTER_COUNT * (a - 58) + CHARACTER_COUNT * (b - 58) + c - 58
  {
    CodeOfLetter(a);
    CodeOfLetter(b);
    CodeOfLetter(c);
    hide Code, TrigramChar;
  }

  lemma Windows()
    ensures TrigramList(ABC) == [TRIGRAM_ABC] && TrigramList(ABCD) == [TRIGRAM_ABC, TRIGRAM_BCD]
    ensures !HasBinary(ABC) && !HasBinary(ABCD)
    ensures 0 <= TRIGRAM_ABC < TRIGRAM_BCD < TRIGRAM_COUNT
  {
    hide TrigramChar, Code, TrigramOf, HasBinary, TrigramList;
    LettersOnly(ABC);
    LettersOnly(ABCD);
    LetterWindow(ABC, 0, 97, 98, 99);
    LetterWindow(ABCD, 0, 97, 98, 99);
    LetterWindow(ABCD, 1, 98, 99, 100);
    OneWindow(ABC, TRIGRAM_ABC);
    TwoWindows(ABCD, TRIGRAM_ABC, TRIGRAM_BCD);
  }

  lemma OneWindow(text: seq<Byte>, a: int)
    requires |text| == 3 && TrigramOf(text, 0) == a >= 0
    ensures TrigramList(text) == [a]
  {
    hide TrigramOf;
    assert TrigramsBefore(text, 0) == [];
  }

  lemma TwoWindows(text: seq<Byte>, a: int, b: int)
    requires |text| == 4 && TrigramOf(text, 0) == a >= 0 && TrigramOf(text, 1) == b >= 0
    ensures TrigramList(text) == [a, b]
  {
    hide TrigramOf;
    assert TrigramsBefore(text, 0) == [] && TrigramsBefore(text, 1) == [a];
  }

  lemma Contents()
    ensures FileTrigrams(ABC) == Elements([TRIGRAM_ABC])
    ensures FileTrigrams(ABCD) == Elements([TRIGRAM_ABC, TRIGRAM_BCD])
  {
    Windows();
    ListIsSet(ABC);
    ListIsSet(ABCD);
    hide TrigramsOf, TrigramList, HasBinary, Elements;
  }

  lemma ListIsSet(text: seq<Byte>)
    ensures TrigramsOf(text) == Elements(TrigramList(text))
  {
    forall t ensures t in TrigramList(text) <==> t in TrigramsOf(text) {
      TrigramListMembers(text, t);
    }
    hide TrigramsOf, TrigramList;
  }

  /** The lists of two trigrams after the three recordings. */
  lemma ListsAfter(a: int, b: int)
    requires a != b
    ensures Appended([], [a], a, 1) == [1] && Appended([], [a], b, 1) == []
    ensures Appended([1], [a, b], a, 2) == [1, 2] && Appended([], [a, b], b, 2) == [2]
    ensures Appended([1, 2], [a, b], a, 1) == [1, 2, 1] && Appended([2], [a, b], b, 1) == [2, 1]
  {
    AppendedOne([], a, a, 1);
    AppendedOne([], a, b, 1);
    AppendedTwo([1], a, b, a, 2);
    AppendedTwo([], a, b, b, 2);
    AppendedTwo([1, 2], a, b, a, 1);
    AppendedTwo([2], a, b, b, 1);
  }

  lemma AppendedOne(posting: seq<int>, a: int, t: int, id: int)
    ensures Appended(posting, [a], t, id) == posting + if a == t then [id] else []
  {
    assert [a][..0] == [];
  }

  lemma AppendedTwo(posting: seq<int>, a: int, b: int, t: int, id: int)
    ensures Appended(posting, [a, b], t, id) == posting + (if a == t then [id] else []) + if b == t then [id] else []
  {
    assert [a, b][..1] == [a];
    AppendedOne(posting, a, t, id);
  }

  /** Looking for id 1 the second pass comes to id 2 first. */
  lemma OnlyTwoIsFound()
    ensures FoundInAll([[1, 2, 1], [2, 1]], 2) && !FoundInAll([[1, 2, 1], [2, 1]], 1)
  {
    var lists := [[1, 2, 1], [2, 1]];
    assert lists[0] == [1, 2, 1] && lists[1] == [2, 1] && lists[0][1] == 2;
    FoundInStep([2, 1], 1);
    FoundInStep([2, 1], 2);
    hide FoundIn;
  }

  /** File 0 recorded, then file 1, then file 0 again. */
  function First(x: set<int>): View {
    Record(EMPTY_VIEW, 0, x)
  }

  function Second(x: set<int>, y: set<int>): View {
    Record(First(x), 1, y)
  }

  function Third(x: set<int>, y: set<int>): View {
    Record(Second(x, y), 0, y)
  }

  /** The ids of the two files after each recording. */
  lemma HistoryIds(x: set<int>, y: set<int>)
    ensures First(x).order == [0] && Second(x, y).order == [0, 1] && Third(x, y).order == [0, 1]
    ensures IdOf(First(x), 0) == 1 && IdOf(Second(x, y), 1) == 2
    ensures IdOf(Third(x, y), 0) == 1 && IdOf(Third(x, y), 1) == 2
  {
    RecordOrder(EMPTY_VIEW, 0, x);
    RecordOrder(First(x), 1, y);
    RecordOrder(Second(x, y), 0, y);
    assert [] + [0] == [0] && [0] + [1] == [0, 1];
    hide Record, IdOf;
    FirstTwoIds(First(x));
    FirstTwoIds(Second(x, y));
    FirstTwoIds(Third(x, y));
  }

  lemma RecordOrder(v: View, p: Path, trigrams: set<int>)
    ensures Record(v, p, trigrams).order == if p in v.order then v.order else v.order + [p]
  {
    hide Pairs;
  }

  lemma FirstTwoIds(v: View)
    ensures v.order == [0] || v.order == [0, 1] ==> IdOf(v, 0) == 1
    ensures v.order == [0, 1] ==> IdOf(v, 1) == 2
  {
    assert [0, 1][1..] == [1] && IndexOf([1], 1) == 0;
  }

  lemma HistoryIsRecorded()
    ensures RecordAll(EMPTY_VIEW, HISTORY) == Third(FileTrigrams(ABC), FileTrigrams(ABCD))
  {
    hide FileTrigrams, Record;
    var x, y := FileTrigrams(ABC), FileTrigrams(ABCD);
    RecordAllOne(EMPTY_VIEW, FileContent(0, ABC));
    RecordAllOne(First(x), FileContent(1, ABCD));
    RecordAllOne(Second(x, y), FileContent(0, ABCD));
    var one, two, three := [FileContent(0, ABC)], [FileContent(1, ABCD)], [FileContent(0, ABCD)];
    assert HISTORY == one + two + three;
    RecordAllConcat(EMPTY_VIEW, one + two, three);
    RecordAllConcat(EMPTY_VIEW, one, two);
  }

  lemma RecordAllOne(v: View, f: FileContent)
    ensures RecordAll(v, [f]) == Record(v, f.path, FileTrigrams(f.content))
  {
    assert [f][..0] == [];
    hide Record, FileTrigrams;
  }

  predicate AreTrigrams(trigrams: seq<int>) {
    forall k :: 0 <= k < |trigrams| ==> 0 <= trigrams[k] < TRIGRAM_COUNT
  }

  ghost predicate Lists(index: TrigramIndex, a: int, b: int, listA: seq<int>, listB: seq<int>)
    reads index, index.index
  {
    && index.index.Length == TRIGRAM_COUNT && 0 <= a < TRIGRAM_COUNT && 0 <= b < TRIGRAM_COUNT
    && index.index[a] == listA && index.index[b] == listB
  }

  /** One recording, and what it does to the lists of two trigrams. */
  method IndexOne(index: TrigramIndex, path: Path, trigrams: seq<int>, id: int,
                  ghost a: int, ghost b: int, ghost listA: seq<int>, ghost listB: seq<int>)
    requires index.Valid() && AreTrigrams(trigrams) && Lists(index, a, b, listA, listB)
    requires IdOf(Record(index.view, path, Elements(trigrams)), path) == id
    modifies index, index.index, index.isNormalized
    ensures index.Valid() && index.view == Record(old(index.view), path, Elements(trigrams))
    ensures Lists(index, a, b, Appended(listA, trigrams, a, id), Appended(listB, trigrams, b, id))
  {
    hide Appended, IdOf, Record, Elements, TrigramIndex.Valid;
    ghost var lists := index.index[..];
    index.SetTrigramsForFile(path, trigrams);
    assert index.index[..][a] == Appended(lists[a], trigrams, a, id)
           && index.index[..][b] == Appended(lists[b], trigrams, b, id);
  }

  /** Whatever the two trigrams are, this history leaves the list of the second out of order. */
  method IndexThree(a: int, b: int) returns (index: TrigramIndex)
    requires 0 <= a < TRIGRAM_COUNT && 0 <= b < TRIGRAM_COUNT && a != b
    ensures index.Valid() && fresh(index) && index.view == Third(Elements([a]), Elements([a, b]))
    ensures Lists(index, a, b, [1, 2, 1], [2, 1])
  {
    index := new TrigramIndex();
    assert Lists(index, a, b, [], []);
    var one, two := [a], [a, b];
    assert AreTrigrams(one) && AreTrigrams(two);
    ghost var x, y := Elements(one), Elements(two);
    HistoryIds(x, y);
    ListsAfter(a, b);
    assert First(x) == Record(EMPTY_VIEW, 0, x) && Second(x, y) == Record(First(x), 1, y)
           && Third(x, y) == Record(Second(x, y), 0, y);
    hide *;
    IndexOne(index, 0, one, 1, a, b, [], []);
    IndexOne(index, 1, two, 2, a, b, [1], []);
    IndexOne(index, 0, two, 1, a, b, [1, 2], [2]);
  }

  /** Searching for both trigrams then loses the file that was recorded last. */
  method SearchLosesOne(index: TrigramIndex, query: seq<Byte>, a: int, b: int) returns (found: seq<Path>)
    requires index.Valid() && Lists(index, a, b, [1, 2, 1], [2, 1])
    requires TrigramList(query) == [a, b]
    requires index.view.order == [0, 1] && IdOf(index.view, 0) == 1 && IdOf(index.view, 1) == 2
    ensures found == [1]
  {
    TrigramListInRange(query);
    ghost var lists := index.PostingsFor(query);
    assert lists == [[1, 2, 1], [2, 1]];
    hide *;
    found := index.Search(query);
    OnlyFileOne(index.view, lists, found);
  }

  lemma OnlyFileOne(v: View, lists: seq<seq<int>>, found: seq<Path>)
    requires lists == [[1, 2, 1], [2, 1]] && v.order == [0, 1] && IdOf(v, 0) == 1 && IdOf(v, 1) == 2
    requires Ascending(found)
    requires forall p :: p in found <==> p in v.order && (lists == [] || FoundInAll(lists, IdOf(v, p)))
    ensures found == [1]
  {
    OnlyTwoIsFound();
    hide FoundInAll, IdOf, Ascending;
    assert 1 in v.order && 0 in v.order && forall p :: p in v.order ==> p == 0 || p == 1;
    OnlyOne(found);
  }

  lemma LastContentMatches()
    ensures var v := RecordAll(EMPTY_VIEW, HISTORY);
            && v == Third(Elements([TRIGRAM_ABC]), Elements([TRIGRAM_ABC, TRIGRAM_BCD]))
            && IsText(ABCD) && Occurs(ABCD, ABCD) && 0 in Matches(v, ABCD)
            && v.order == [0, 1] && IdOf(v, 0) == 1 && IdOf(v, 1) == 2
  {
    Windows();
    Contents();
    HistoryIds(FileTrigrams(ABC), FileTrigrams(ABCD));
    HistoryIsRecorded();
    FoundItself(ABCD);
    assert HISTORY[2].path == 0 && HISTORY[2].content == ABCD;
    hide *;
    NoFalseNegatives(HISTORY, 2, ABCD);
  }

  /** The last content of file 0 is the query itself, but the search finds only file 1. */
  method SearchLosesFile() returns (index: TrigramIndex, found: seq<Path>)
    ensures index.Valid() && index.view == RecordAll(EMPTY_VIEW, HISTORY)
    ensures IsText(ABCD) && Occurs(ABCD, ABCD) && 0 in Matches(index.view, ABCD)
    ensures found == [1]
  {
    LastContentMatches();
    Windows();
    hide *;
    var a, b := TRIGRAM_ABC, TRIGRAM_BCD;
    index := IndexThree(a, b);
    found := SearchLosesOne(index, ABCD, a, b);
  }

  lemma FoundItself(text: seq<Byte>)
    ensures Occurs(text, text)
  {
    assert OccursAt(text, text, 0);
  }

  lemma OnlyOne(found: seq<int>)
    requires Ascending(found) && 1 in found && forall p :: p in found ==> p == 1
    ensures found == [1]
  {
    assert |found| > 1 ==> found[0] < found[1];
    assert forall i :: 0 <= i < |found| ==> found[i] in found;
  }
}
