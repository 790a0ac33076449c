/** The trigram index as the program keeps it: posting lists, sorted on demand. */
module SearchIndex {
  import opened Bytes
  import opened Trigrams
  import opened PostingLists
  import opened IndexViews

  class TrigramIndex {
    var fileIds: map<Path, int>
    var lastFileId: int
    const index: array<seq<int>>
    const isNormalized: array<bool>
    /** What the fields mean. */
    ghost var view: View

    ghost predicate IdsValid()
      reads this
    {
      && WellFormed(view)
      && (forall p :: p in fileIds <==> p in view.order)
      && (forall p :: p in fileIds ==> fileIds[p] == IdOf(view, p))
      && lastFileId == |view.order| % FILE_ID_COUNT
    }

    /** A posting list holds exactly the ids of the files its trigram was recorded for. */
    ghost predicate PostingValid(t: int)
      requires 0 <= t < index.Length
      reads this, index
    {
      forall id :: id in index[t] <==> RecordedFor(view, t, id)
    }

    ghost predicate Valid()
      reads this, index, isNormalized
    {
      && index.Length == isNormalized.Length == TRIGRAM_COUNT
      && IdsValid()
      && (forall t :: 0 <= t < index.Length ==> PostingValid(t))
      && (forall t :: 0 <= t < index.Length && isNormalized[t] ==> Sorted(index[t]))
    }

    /** Every posting list is sorted. */
    ghost predicate Normalized()
      reads index
    {
      forall t :: 0 <= t < index.Length ==> Sorted(index[t])
    }

    constructor ()
      ensures Valid() && view == EMPTY_VIEW && fresh(index) && fresh(isNormalized)
      ensures forall t :: 0 <= t < TRIGRAM_COUNT ==> isNormalized[t] && index[t] == []
    {
      fileIds, lastFileId := map[], 0;
      index := new seq<int>[TRIGRAM_COUNT](_ => []);
      isNormalized := new bool[TRIGRAM_COUNT](_ => true);
      view := EMPTY_VIEW;
    }

    method GetFileId(path: Path) returns (id: int)
      requires Valid()
      modifies this`fileIds, this`lastFileId, this`view
      ensures Valid() && view == Register(old(view), path) && id == IdOf(view, path)
    {
      hide IdOf, RecordedFor, WellFormed;
      if path in fileIds {
        return fileIds[path];
      }
      RegisterNew(view, path);
      lastFileId := (lastFileId + 1) % FILE_ID_COUNT;
      fileIds := fileIds[path := lastFileId];
      view := Register(view, path);
      forall t | 0 <= t < index.Length ensures PostingValid(t) {
        assert old(PostingValid(t));
      }
      return lastFileId;
    }

    method SetTrigramsForFile(path: Path, trigrams: seq<int>)
      requires Valid() && forall k :: 0 <= k < |trigrams| ==> 0 <= trigrams[k] < TRIGRAM_COUNT
      modifies this, index, isNormalized
      ensures Valid() && view == Record(old(view), path, Elements(trigrams))
      ensures AllAppended(old(index[..]), index[..], trigrams, IdOf(view, path))
    {
      RegisteredId(view, path);
      assert index.Length == TRIGRAM_COUNT;
      hide Pairs, Elements, Valid, IdOf, WellFormed, Register, Appended, AllAppended, RecordedUpTo;
      var fileId := GetFileId(path);
      ghost var registered := view;
      RecordedNone(registered, path, trigrams);
      AllAppendedNone(index[..], trigrams, fileId);
      for k := 0 to |trigrams|
        invariant Valid() && path in view.order && fileId == IdOf(view, path)
        invariant RecordedUpTo(registered, view, path, trigrams[..k])
        invariant AllAppended(old(index[..]), index[..], trigrams[..k], fileId)
      {
        ghost var lists, before := index[..], view;
        AddPosting(path, fileId, trigrams[k]);
        AllAppendedNext(old(index[..]), lists, index[..], trigrams, k, fileId);
        RecordedNext(registered, before, view, path, trigrams, k);
      }
      assert trigrams[..|trigrams|] == trigrams;
      RecordedAll(old(view), registered, view, path, trigrams);
    }

    method AddPosting(path: Path, fileId: int, trigram: int)
      requires Valid() && path in view.order && fileId == IdOf(view, path) && 0 <= trigram < TRIGRAM_COUNT
      modifies this`view, index, isNormalized
      ensures Valid() && view == old(view).(recorded := old(view).recorded + {(path, trigram)})
      ensures forall t :: 0 <= t < TRIGRAM_COUNT ==> index[t] == old(index[t]) + if t == trigram then [fileId] else []
    {
      hide IdOf, RecordedFor, WellFormed;
      RecordOneTrigram(view, path, trigram);
      index[trigram] := index[trigram] + [fileId];
      isNormalized[trigram] := false;
      view := view.(recorded := view.recorded + {(path, trigram)});
      forall t | 0 <= t < index.Length ensures PostingValid(t) {
        assert old(PostingValid(t));
      }
    }

    method NormalizeVectors()
      requires Valid()
      modifies index, isNormalized
      ensures Valid() && forall t :: 0 <= t < TRIGRAM_COUNT ==> isNormalized[t]
      ensures Normalized() && forall t :: 0 <= t < TRIGRAM_COUNT ==> multiset(index[t]) == multiset(old(index[t]))
    {
      for i := 0 to TRIGRAM_COUNT
        invariant Valid()
        invariant forall t :: 0 <= t < i ==> isNormalized[t]
        invariant forall t :: 0 <= t < TRIGRAM_COUNT ==> multiset(index[t]) == multiset(old(index[t]))
      {
        if !isNormalized[i] {
          SortIsSorted(index[i]);
          assert PostingValid(i);
          SortPosting(i);
        }
        assert Sorted(index[i]);
      }
    }

    method SortPosting(i: nat)
      requires Valid() && i < TRIGRAM_COUNT
      modifies index, isNormalized
      ensures Valid() && isNormalized[i]
      ensures forall t :: 0 <= t < TRIGRAM_COUNT && t != i ==>
                index[t] == old(index[t]) && isNormalized[t] == old(isNormalized[t])
      ensures multiset(index[i]) == multiset(old(index[i]))
    {
      ghost var before := index[i];
      SortIsSorted(before);
      index[i] := Sort(index[i]);
      isNormalized[i] := true;
      forall t | 0 <= t < index.Length ensures PostingValid(t) {
        assert old(PostingValid(t));
        forall id ensures id in index[t] <==> id in old(index[t]) {
          assert t == i ==> (id in multiset(index[t]) <==> id in multiset(before));
        }
      }
    }

    /** The trigrams of the query, in the order of its windows. */
    static method QueryTrigrams(query: seq<Byte>) returns (trigrams: seq<int>)
      ensures trigrams == TrigramList(query)
    {
      var trigramChars: seq<int> := [];
      for i := 0 to |query|
        invariant trigramChars == Codes(query)[..i]
      {
        var trigramChar := TrigramChar(query[i]);
        if trigramChar == BINARY_CHAR {
          trigramChar := UNDEFINED_CHAR;
        }
        trigramChars := trigramChars + [trigramChar];
      }
      assert trigramChars == Codes(query);
      CodesAreCodes(query);
      trigrams := [];
      var i := 0;
      while i + 2 < |query|
        invariant i == 0 || i + 1 < |query|
        invariant 0 <= i && trigrams == TrigramsBefore(query, i)
      {
        var trigram := TrigramAtIndex(trigramChars, i);
        assert trigram == TrigramOf(query, i);
        if trigram != UNDEFINED_TRIGRAM {
          trigrams := trigrams + [trigram];
        }
        i := i + 1;
      }
    }

    ghost function Postings(trigrams: seq<int>): (lists: seq<seq<int>>)
      requires forall k :: 0 <= k < |trigrams| ==> 0 <= trigrams[k] < index.Length
      reads index
      ensures |lists| == |trigrams| && forall k :: 0 <= k < |trigrams| ==> lists[k] == index[trigrams[k]]
    {
      if trigrams == [] then []
      else Postings(trigrams[..|trigrams| - 1]) + [index[trigrams[|trigrams| - 1]]]
    }

    /** The posting lists of the query. */
    ghost function PostingsFor(query: seq<Byte>): seq<seq<int>>
      requires index.Length == TRIGRAM_COUNT
      reads index
    {
      TrigramListInRange(query);
      Postings(TrigramList(query))
    }

    /** No list behind the first has a larger id in front of the first id of a file that is to be found. */
    ghost predicate HidesNothing(query: seq<Byte>)
      requires index.Length == TRIGRAM_COUNT
      reads this, index
    {
      var lists := PostingsFor(query);
      forall p, k :: p in view.order && p in Matches(view, query) && 1 <= k < |lists| ==>
                       !HiddenIn(lists[k], IdOf(view, p))
    }

    /** In every state: the files whose id is in the first posting list of the query and found in each of
        the others, in path order.  All of them are to be found, and nobody is missing exactly if the
        lists hide nothing. */
    method Search(query: seq<Byte>) returns (result: seq<Path>)
      requires Valid()
      ensures Ascending(result)
      ensures forall p :: p in result <==>
                p in view.order && (PostingsFor(query) == [] || FoundInAll(PostingsFor(query), IdOf(view, p)))
      ensures (set p | p in result) <= Matches(view, query)
      ensures (set p | p in result) == Matches(view, query) <==> HidesNothing(query)
    {
      var trigrams := QueryTrigrams(query);
      TrigramListInRange(query);
      var ids := CommonIds(trigrams);
      result := FilesWithIds(fileIds, trigrams == [], ids);
      FoundExactly(query, result);
    }

    /** Sorted lists hide nothing. */
    lemma NormalizedHidesNothing(query: seq<Byte>)
      requires Valid() && Normalized()
      ensures HidesNothing(query)
    {
      TrigramListInRange(query);
      var lists := PostingsFor(query);
      forall p, k | p in view.order && p in Matches(view, query) && 1 <= k < |lists|
        ensures !HiddenIn(lists[k], IdOf(view, p))
      {
        MatchIsInList(query, p, k);
        SortedHidesNone(lists[k]);
      }
    }

    /** To be found means to be in every list of the query. */
    lemma MatchIsInList(query: seq<Byte>, p: Path, k: nat)
      requires Valid() && p in view.order && p in Matches(view, query) && k < |PostingsFor(query)|
      ensures IdOf(view, p) in PostingsFor(query)[k]
    {
      MatchesAreCommon(query, p);
    }

    lemma MatchesAreCommon(query: seq<Byte>, p: Path)
      requires Valid() && p in view.order
      ensures var lists := PostingsFor(query);
              p in Matches(view, query) <==> forall k :: 0 <= k < |lists| ==> IdOf(view, p) in lists[k]
    {
      var trigrams, lists, id := TrigramList(query), PostingsFor(query), IdOf(view, p);
      TrigramListInRange(query);
      forall t ensures t in trigrams <==> t in TrigramsOf(query) {
        TrigramListMembers(query, t);
      }
      forall k | 0 <= k < |trigrams| ensures id in lists[k] <==> RecordedFor(view, trigrams[k], id) {
        assert PostingValid(trigrams[k]);
      }
      hide TrigramsOf, TrigramList, RecordedFor, IdOf;
      assert forall k :: 0 <= k < |trigrams| ==> trigrams[k] in TrigramsOf(query);
    }

    lemma FoundExactly(query: seq<Byte>, result: seq<Path>)
      requires Valid()
      requires forall p :: p in result <==>
                 p in view.order && (PostingsFor(query) == [] || IdOf(view, p) in Merged(PostingsFor(query)))
      ensures forall p :: p in result <==>
                p in view.order && (PostingsFor(query) == [] || FoundInAll(PostingsFor(query), IdOf(view, p)))
      ensures (set p | p in result) <= Matches(view, query)
      ensures (set p | p in result) == Matches(view, query) <==> HidesNothing(query)
    {
      var lists := PostingsFor(query);
      if lists != [] {
        MergedExactly(lists);
      }
      forall p | p in view.order
        ensures p in result ==> p in Matches(view, query)
        ensures p in Matches(view, query) ==>
                  (p in result <==> forall k :: 1 <= k < |lists| ==> !HiddenIn(lists[k], IdOf(view, p)))
      {
        MatchesAreCommon(query, p);
        if lists != [] {
          CommonUnlessHidden(lists, IdOf(view, p));
        }
      }
      assert forall p :: p in Matches(view, query) ==> p in view.order;
      hide Merged, FoundInAll, Matches, HiddenIn, IdOf;
    }

    /** The ids in all of the posting lists, one list after the other. */
    method CommonIds(trigrams: seq<int>) returns (ids: seq<int>)
      requires index.Length == TRIGRAM_COUNT
      requires forall k :: 0 <= k < |trigrams| ==> 0 <= trigrams[k] < TRIGRAM_COUNT
      ensures ids == Merged(Postings(trigrams))
    {
      ids := [];
      var first := true;
      for k := 0 to |trigrams|
        invariant first <==> k == 0
        invariant ids == Merged(Postings(trigrams[..k]))
      {
        assert trigrams[..k + 1][..k] == trigrams[..k];
        var posting := index[trigrams[k]];
        assert Postings(trigrams[..k + 1]) == Postings(trigrams[..k]) + [posting];
        assert Postings(trigrams[..k + 1])[..k] == Postings(trigrams[..k]);
        if first {
          ids := InsertAll(posting);
          first := false;
        } else {
          ids := SetIntersection(ids, posting);
        }
      }
      assert trigrams[..|trigrams|] == trigrams;
    }

    static method InsertAll(posting: seq<int>) returns (ids: seq<int>)
      ensures ids == Inserted(posting)
    {
      ids := [];
      for i := 0 to |posting|
        invariant ids == Inserted(posting[..i])
      {
        assert posting[..i + 1][..i] == posting[..i];
        ids := Insert(ids, posting[i]);
      }
      assert posting[..|posting|] == posting;
    }

    /** Walks the map of file ids in path order. */
    static method FilesWithIds(fileIds: map<Path, int>, all: bool, ids: seq<int>) returns (result: seq<Path>)
      ensures Ascending(result)
      ensures forall p :: p in result <==> p in fileIds && (all || fileIds[p] in ids)
    {
      hide Ascending;
      AscendingEmpty();
      result := [];
      var rest := fileIds.Keys;
      while rest != {}
        invariant rest <= fileIds.Keys
        invariant Ascending(result)
        invariant forall p, q :: p in result && q in rest ==> p < q
        invariant forall p :: p in result <==> p in fileIds && p !in rest && (all || fileIds[p] in ids)
        decreases |rest|
      {
        ghost var smallest := SmallestPath(rest);
        var p :| p in rest && IsSmallest(p, rest);
        if all || fileIds[p] in ids {
          AscendingAppend(result, p);
          result := result + [p];
        }
        forall q | q in rest - {p} ensures p < q {
          SmallestIsSmaller(p, rest, q);
        }
        rest := rest - {p};
      }
    }
  }

  /** `v` is the view with the file registered, and these trigrams recorded for it. */
  ghost predicate RecordedUpTo(registered: View, v: View, path: Path, trigrams: seq<int>) {
    v == registered.(recorded := registered.recorded + Pairs(path, Elements(trigrams)))
  }

  lemma RecordedNone(registered: View, path: Path, trigrams: seq<int>)
    ensures RecordedUpTo(registered, registered, path, trigrams[..0])
  {
    NoPairs(path);
  }

  lemma RecordedNext(registered: View, v: View, w: View, path: Path, trigrams: seq<int>, k: nat)
    requires k < |trigrams| && RecordedUpTo(registered, v, path, trigrams[..k])
    requires w == v.(recorded := v.recorded + {(path, trigrams[k])})
    ensures RecordedUpTo(registered, w, path, trigrams[..k + 1])
  {
    assert trigrams[..k + 1] == trigrams[..k] + [trigrams[k]];
    OneMorePair(path, trigrams[..k], trigrams[k]);
    hide Pairs, Elements;
  }

  lemma RecordedAll(before: View, registered: View, v: View, path: Path, trigrams: seq<int>)
    requires registered == Register(before, path) && RecordedUpTo(registered, v, path, trigrams)
    ensures v == Record(before, path, Elements(trigrams))
  {
    hide Pairs, Elements;
  }

  /** Every posting list got the id once for each time its trigram is listed. */
  ghost predicate AllAppended(before: seq<seq<int>>, after: seq<seq<int>>, trigrams: seq<int>, id: int) {
    |before| == |after| && forall t :: 0 <= t < |before| ==> after[t] == Appended(before[t], trigrams, t, id)
  }

  lemma AllAppendedNone(lists: seq<seq<int>>, trigrams: seq<int>, id: int)
    ensures AllAppended(lists, lists, trigrams[..0], id)
  {
  }

  lemma AllAppendedNext(before: seq<seq<int>>, lists: seq<seq<int>>, after: seq<seq<int>>, trigrams: seq<int>, k: nat,
                        id: int)
    requires k < |trigrams| && AllAppended(before, lists, trigrams[..k], id) && |after| == |lists|
    requires forall t :: 0 <= t < |lists| ==> after[t] == lists[t] + if t == trigrams[k] then [id] else []
    ensures AllAppended(before, after, trigrams[..k + 1], id)
  {
    assert trigrams[..k + 1][..k] == trigrams[..k];
  }

  lemma TrigramListInRange(query: seq<Byte>)
    ensures forall k :: 0 <= k < |TrigramList(query)| ==> 0 <= TrigramList(query)[k] < TRIGRAM_COUNT
  {
    forall k | 0 <= k < |TrigramList(query)| ensures 0 <= TrigramList(query)[k] < TRIGRAM_COUNT {
      TrigramListMembers(query, TrigramList(query)[k]);
      assert TrigramList(query)[k] in TrigramsOf(query);
    }
  }

  predicate IsSmallest(p: Path, paths: set<Path>) {
    forall q :: q in paths ==> p <= q
  }

  lemma SmallestIsSmaller(p: Path, paths: set<Path>, q: Path)
    requires IsSmallest(p, paths) && q in paths && q != p
    ensures p < q
  {
  }

  lemma {:induction false} SmallestPath(paths: set<Path>) returns (m: Path)
    requires paths != {}
    ensures m in paths && IsSmallest(m, paths)
    decreases |paths|
  {
    var p :| p in paths;
    var others := paths - {p};
    m := p;
    if others != {} {
      var o := SmallestPath(others);
      m := if o < p then o else p;
      forall q | q in paths ensures m <= q {
        assert q == p || q in others;
      }
    }
  }

  lemma AscendingEmpty()
    ensures Ascending([])
  {
  }

  lemma AscendingAppend(s: seq<int>, x: int)
    requires Ascending(s) && forall y :: y in s ==> y < x
    ensures Ascending(s + [x])
  {
    forall i, j | 0 <= i < j < |s| + 1 ensures (s + [x])[i] < (s + [x])[j] {
      assert s[i] in s;
    }
  }
}
