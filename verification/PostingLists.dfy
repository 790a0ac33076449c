/** Sets of file ids as the search computes them: ascending sequences, and sorted posting lists. */
module PostingLists {

  predicate Sorted(s: seq<int>) {
    forall i, j :: 0 <= i < j < |s| ==> s[i] <= s[j]
  }

  predicate Ascending(s: seq<int>) {
    forall i, j :: 0 <= i < j < |s| ==> s[i] < s[j]
  }

  lemma AscendingCons(x: int, tail: seq<int>)
    requires Ascending(tail) && forall y :: y in tail ==> x < y
    ensures Ascending([x] + tail)
  {
    forall i, j | 0 <= i < j < |tail| + 1 ensures ([x] + tail)[i] < ([x] + tail)[j] {
      assert ([x] + tail)[j] == tail[j - 1] && tail[j - 1] in tail;
      assert i > 0 ==> ([x] + tail)[i] == tail[i - 1];
    }
  }

  lemma SortedCons(x: int, tail: seq<int>)
    requires Sorted(tail) && forall y :: y in tail ==> x <= y
    ensures Sorted([x] + tail)
  {
    forall i, j | 0 <= i < j < |tail| + 1 ensures ([x] + tail)[i] <= ([x] + tail)[j] {
      assert ([x] + tail)[j] == tail[j - 1] && tail[j - 1] in tail;
      assert i > 0 ==> ([x] + tail)[i] == tail[i - 1];
    }
  }

  /** Insertion into an ordered set. */
  function Insert(s: seq<int>, x: int): seq<int> {
    if s == [] then [x]
    else if x < s[0] then [x] + s
    else if x == s[0] then s
    else [s[0]] + Insert(s[1..], x)
  }

  lemma {:induction false} InsertIsAscending(s: seq<int>, x: int)
    requires Ascending(s)
    ensures Ascending(Insert(s, x))
    ensures forall y :: y in Insert(s, x) <==> y == x || y in s
  {
    if s != [] {
      assert s == [s[0]] + s[1..];
      if x < s[0] {
        AscendingCons(x, s);
      } else if x > s[0] {
        InsertIsAscending(s[1..], x);
        AscendingCons(s[0], Insert(s[1..], x));
      }
    }
  }

  /** The set intersection of the standard library: one pass over two ordered ranges. */
  function Intersection(a: seq<int>, b: seq<int>): seq<int>
    decreases |a| + |b|
  {
    if a == [] || b == [] then []
    else if a[0] < b[0] then Intersection(a[1..], b)
    else if b[0] < a[0] then Intersection(a, b[1..])
    else [a[0]] + Intersection(a[1..], b[1..])
  }

  method SetIntersection(a: seq<int>, b: seq<int>) returns (r: seq<int>)
    ensures r == Intersection(a, b)
  {
    r := [];
    var i, j := 0, 0;
    while i < |a| && j < |b|
      invariant 0 <= i <= |a| && 0 <= j <= |b|
      invariant r + Intersection(a[i..], b[j..]) == Intersection(a, b)
      decreases |a| - i + |b| - j
    {
      assert a[i..][1..] == a[i + 1..] && b[j..][1..] == b[j + 1..];
      if a[i] < b[j] {
        i := i + 1;
      } else if b[j] < a[i] {
        j := j + 1;
      } else {
        r := r + [a[i]];
        i, j := i + 1, j + 1;
      }
    }
  }

  /** Going through `b`, an ordered pass that looks for `x` comes to it before anything larger. */
  predicate FoundIn(b: seq<int>, x: int) {
    exists j :: 0 <= j < |b| && b[j] == x && forall m :: 0 <= m < j ==> b[m] < x
  }

  /** A larger id stands in front of the first `x`. */
  predicate HiddenIn(b: seq<int>, x: int) {
    exists m :: 0 <= m < |b| && b[m] > x && x !in b[..m]
  }

  lemma FoundInStep(b: seq<int>, x: int)
    ensures FoundIn(b, x) <==> b != [] && (b[0] == x || (b[0] < x && FoundIn(b[1..], x)))
  {
    if FoundIn(b, x) {
      var j :| 0 <= j < |b| && b[j] == x && forall m :: 0 <= m < j ==> b[m] < x;
      if j > 0 {
        assert b[1..][j - 1] == x && forall m :: 0 <= m < j - 1 ==> b[1..][m] < x;
      }
    }
    if b != [] && b[0] < x && FoundIn(b[1..], x) {
      var j :| 0 <= j < |b| - 1 && b[1..][j] == x && forall m :: 0 <= m < j ==> b[1..][m] < x;
      assert b[j + 1] == x && forall m :: 0 <= m < j + 1 ==> b[m] < x by {
        forall m | 0 < m < j + 1 ensures b[m] < x {
          assert b[m] == b[1..][m - 1];
        }
      }
    }
  }

  lemma {:induction false} FirstOccurrence(b: seq<int>, x: int) returns (j: nat)
    requires x in b
    ensures j < |b| && b[j] == x && x !in b[..j]
  {
    if b[0] == x {
      j := 0;
    } else {
      assert b == [b[0]] + b[1..];
      var k := FirstOccurrence(b[1..], x);
      j := k + 1;
      assert b[..j] == [b[0]] + b[1..][..k];
    }
  }

  /** An id of the list is either found or hidden. */
  lemma FoundUnlessHidden(b: seq<int>, x: int)
    ensures x in b ==> (FoundIn(b, x) <==> !HiddenIn(b, x))
    ensures FoundIn(b, x) ==> x in b
  {
    if x in b {
      var j := FirstOccurrence(b, x);
      if FoundIn(b, x) {
        var f :| 0 <= f < |b| && b[f] == x && forall m :: 0 <= m < f ==> b[m] < x;
        forall m | 0 <= m < |b| && b[m] > x ensures x in b[..m] {
          assert f < m && b[..m][f] == x;
        }
      } else {
        var m :| 0 <= m < j && b[m] >= x;
        assert b[m] in b[..j];
        assert b[..m] == b[..j][..m];
      }
    }
  }

  /** The pass finds exactly those ids of an ordered set that it comes to before anything larger. */
  lemma {:induction false} IntersectionFinds(a: seq<int>, b: seq<int>)
    requires Ascending(a)
    ensures Ascending(Intersection(a, b))
    ensures forall x :: x in Intersection(a, b) <==> x in a && FoundIn(b, x)
    decreases |a| + |b|
  {
    if a != [] && b != [] {
      assert a == [a[0]] + a[1..];
      assert forall y :: y in a[1..] ==> y > a[0];
      forall x ensures FoundIn(b, x) <==> b[0] == x || (b[0] < x && FoundIn(b[1..], x)) {
        FoundInStep(b, x);
      }
      hide FoundIn;
      if a[0] < b[0] {
        IntersectionFinds(a[1..], b);
      } else if b[0] < a[0] {
        IntersectionFinds(a, b[1..]);
      } else {
        IntersectionFinds(a[1..], b[1..]);
        AscendingCons(a[0], Intersection(a[1..], b[1..]));
      }
    }
  }

  ghost predicate ExactFor(a: seq<int>, b: seq<int>) {
    forall x :: x in Intersection(a, b) <==> x in a && x in b
  }

  /** Intersecting with a posting list is right for every set of ids exactly when the list hides none. */
  lemma IntersectionExactly(b: seq<int>)
    ensures (forall a :: Ascending(a) ==> ExactFor(a, b)) <==> forall x :: x in b ==> !HiddenIn(b, x)
  {
    forall x ensures x in b ==> (FoundIn(b, x) <==> !HiddenIn(b, x)) {
      FoundUnlessHidden(b, x);
    }
    forall x ensures FoundIn(b, x) ==> x in b {
      FoundUnlessHidden(b, x);
    }
    forall a | Ascending(a) ensures ExactFor(a, b) <==> forall x :: x in a && x in b ==> FoundIn(b, x) {
      IntersectionFinds(a, b);
    }
    forall x | x in b && HiddenIn(b, x) ensures exists a :: Ascending(a) && !ExactFor(a, b) {
      assert Ascending([x]) && x in [x];
      assert !ExactFor([x], b);
    }
  }

  lemma SortedHidesNone(b: seq<int>)
    requires Sorted(b)
    ensures forall x :: x in b ==> !HiddenIn(b, x)
  {
    forall x, m | x in b && 0 <= m < |b| && b[m] > x ensures x in b[..m] {
      var j :| 0 <= j < |b| && b[j] == x;
      assert b[..m][j] == x;
    }
  }

  // ----- searching several posting lists -----

  /** The ids of a posting list as an ordered set. */
  function Inserted(posting: seq<int>): (ids: seq<int>)
  {
    if posting == [] then [] else Insert(Inserted(posting[..|posting| - 1]), posting[|posting| - 1])
  }

  lemma {:induction false} InsertedIsSet(posting: seq<int>)
    ensures Ascending(Inserted(posting)) && forall id :: id in Inserted(posting) <==> id in posting
  {
    if posting != [] {
      var front, last := posting[..|posting| - 1], posting[|posting| - 1];
      assert posting == front + [last];
      InsertedIsSet(front);
      InsertIsAscending(Inserted(front), last);
    }
  }

  /** The first list as a set, intersected with one list after the other. */
  function Merged(lists: seq<seq<int>>): seq<int> {
    if lists == [] then []
    else if |lists| == 1 then Inserted(lists[0])
    else Intersection(Merged(lists[..|lists| - 1]), lists[|lists| - 1])
  }

  /** In the first list, and found by the pass through each of the others. */
  predicate FoundInAll(lists: seq<seq<int>>, id: int)
    requires lists != []
  {
    id in lists[0] && forall k :: 1 <= k < |lists| ==> FoundIn(lists[k], id)
  }

  /** Exactly these ids are left after all lists, whatever their order. */
  lemma {:induction false} MergedExactly(lists: seq<seq<int>>)
    requires lists != []
    ensures Ascending(Merged(lists))
    ensures forall id :: id in Merged(lists) <==> FoundInAll(lists, id)
  {
    if |lists| == 1 {
      InsertedIsSet(lists[0]);
    } else {
      var front, last := lists[..|lists| - 1], lists[|lists| - 1];
      MergedExactly(front);
      IntersectionFinds(Merged(front), last);
      forall id ensures FoundInAll(lists, id) <==> FoundInAll(front, id) && FoundIn(last, id) {
        OneMoreList(lists, id);
      }
      hide FoundIn, FoundInAll, Intersection;
    }
  }

  lemma OneMoreList(lists: seq<seq<int>>, id: int)
    requires |lists| > 1
    ensures FoundInAll(lists, id) <==> FoundInAll(lists[..|lists| - 1], id) && FoundIn(lists[|lists| - 1], id)
  {
    hide FoundIn;
    var front := lists[..|lists| - 1];
    assert forall k :: 0 <= k < |front| ==> front[k] == lists[k];
  }

  /** An id that is in all lists is left unless a list behind the first hides it. */
  lemma CommonUnlessHidden(lists: seq<seq<int>>, id: int)
    requires lists != []
    ensures FoundInAll(lists, id) ==> forall k :: 0 <= k < |lists| ==> id in lists[k]
    ensures (forall k :: 0 <= k < |lists| ==> id in lists[k]) ==>
              (FoundInAll(lists, id) <==> forall k :: 1 <= k < |lists| ==> !HiddenIn(lists[k], id))
  {
    forall k | 0 <= k < |lists|
      ensures id in lists[k] ==> (FoundIn(lists[k], id) <==> !HiddenIn(lists[k], id))
      ensures FoundIn(lists[k], id) ==> id in lists[k]
    {
      FoundUnlessHidden(lists[k], id);
    }
    hide FoundIn, HiddenIn;
  }

  /** What recording these trigrams for one id appends to the posting list of trigram `t`. */
  function Appended(posting: seq<int>, trigrams: seq<int>, t: int, id: int): seq<int> {
    if trigrams == [] then posting
    else Appended(posting, trigrams[..|trigrams| - 1], t, id) + if trigrams[|trigrams| - 1] == t then [id] else []
  }

  /** Sorting is what the normalisation of the index relies on. */
  function InsertSorted(s: seq<int>, x: int): seq<int> {
    if s == [] || x <= s[0] then [x] + s else [s[0]] + InsertSorted(s[1..], x)
  }

  function Sort(s: seq<int>): seq<int> {
    if s == [] then [] else InsertSorted(Sort(s[1..]), s[0])
  }

  lemma {:induction false} InsertSortedIsSorted(s: seq<int>, x: int)
    requires Sorted(s)
    ensures Sorted(InsertSorted(s, x))
    ensures multiset(InsertSorted(s, x)) == multiset(s) + multiset{x}
  {
    if s == [] || x <= s[0] {
      SortedCons(x, s);
    } else {
      var tail := InsertSorted(s[1..], x);
      assert s == [s[0]] + s[1..];
      InsertSortedIsSorted(s[1..], x);
      forall y | y in tail ensures s[0] <= y {
        assert y in multiset(tail);
        assert y in multiset(s[1..]) || y == x;
      }
      SortedCons(s[0], tail);
    }
  }

  lemma {:induction false} SortIsSorted(s: seq<int>)
    ensures Sorted(Sort(s)) && multiset(Sort(s)) == multiset(s)
  {
    if s != [] {
      assert s == [s[0]] + s[1..];
      SortIsSorted(s[1..]);
      InsertSortedIsSorted(Sort(s[1..]), s[0]);
    }
  }
}
