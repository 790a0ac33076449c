/** The notification controller as the program runs it: in-place purging, layout and the queue. */
module NotificationController {
  import opened Sequences
  import opened ToastStack
  import opened ToastDisplay

  class DesktopNotificationController {
    const capacity: nat
    const margin: nat
    var instances: seq<Slot>
    var queue: seq<nat>
    /** The notifications reported as closed, and those whose window could not be created. */
    var closed: seq<nat>
    var dropped: seq<nat>
    ghost var added: seq<nat>
    ghost var popped: seq<nat>
    ghost var withdrawn: seq<nat>

    ghost function D(): Display
      reads this
    {
      Display(capacity, margin, instances, queue, closed, dropped, added, popped, withdrawn)
    }

    constructor (maximumToasts: nat, toastMargin: nat)
      ensures D() == Empty(maximumToasts, toastMargin) && Valid(D())
    {
      capacity, margin := maximumToasts, toastMargin;
      instances, queue, closed, dropped := [], [], [], [];
      added, popped, withdrawn := [], [], [];
    }

    method AddNotification(id: nat, heights: map<nat, nat>)
      requires LastHasWindow(instances)
      modifies this
      ensures D() == Add(old(D()), id, heights) && LastHasWindow(instances)
    {
      queue := queue + [id];
      added := added + [id];
      CheckQueue(heights);
    }

    method CloseNotification(id: nat)
      modifies this`queue, this`closed, this`withdrawn
      ensures D() == Close(old(D()), id)
    {
      for i := 0 to |queue|
        invariant unchanged(this) && id !in queue[..i]
      {
        if queue[i] == id {
          PlaceIsFirst(queue, i);
          queue := queue[..i] + queue[i + 1..];
          closed := closed + [id];
          withdrawn := withdrawn + [id];
          return;
        }
      }
      assert queue[..|queue|] == queue;
    }

    method CheckQueue(heights: map<nat, nat>)
      requires LastHasWindow(instances)
      modifies this`instances, this`queue, this`dropped, this`popped
      ensures D() == ToastDisplay.CheckQueue(old(D()), heights) && LastHasWindow(instances)
    {
      while |instances| < capacity && queue != []
        invariant ToastDisplay.CheckQueue(D(), heights) == ToastDisplay.CheckQueue(old(D()), heights)
        invariant LastHasWindow(instances)
        decreases |queue|
      {
        CreateToast(queue[0], heights);
        popped := popped + [queue[0]];
        queue := queue[1..];
      }
    }

    /** The new toast goes on top of the last one, which must still have its window. */
    method CreateToast(id: nat, heights: map<nat, nat>)
      requires LastHasWindow(instances)
      modifies this`instances, this`dropped
      ensures D() == ToastDisplay.CreateToast(old(D()), id, heights) && LastHasWindow(instances)
    {
      if id in heights {
        var position := 0;
        if instances != [] {
          var item := instances[|instances| - 1];
          assert item.open;
          position := item.target + item.height + margin;
        }
        instances := instances + [Slot(id, true, false, false, heights[id], position)];
      } else {
        dropped := dropped + [id];
      }
    }

    method DestroyToast(i: nat)
      requires i < |instances|
      modifies this`instances, this`closed
      ensures instances == old(instances)[i := Closed(old(instances)[i])]
      ensures closed == old(closed) + if old(instances)[i].open then [old(instances)[i].data] else []
    {
      if instances[i].open {
        var data := instances[i].data;
        instances := instances[i := instances[i].(open := false)];
        closed := closed + [data];
      }
    }

    /** The next highlighted toast from `from` on. */
    method FindHighlighted(from: nat) returns (k: nat)
      requires from <= |instances|
      ensures k == NextHighlighted(instances, from)
    {
      k := from;
      while k < |instances| && !(instances[k].open && instances[k].highlighted)
        invariant from <= k <= |instances| && NextHighlighted(instances, k) == NextHighlighted(instances, from)
      {
        k := k + 1;
      }
    }

    /** The living in front of the dead, both in their old order. */
    static method StablePartition(s: seq<Slot>) returns (living: seq<Slot>, dead: seq<Slot>)
      ensures living == Filter(s, IsAlive()) && dead == Filter(s, IsDead())
    {
      living, dead := [], [];
      for i := 0 to |s|
        invariant living == Filter(s[..i], IsAlive()) && dead == Filter(s[..i], IsDead())
      {
        FilterNext(s, i, IsAlive());
        FilterNext(s, i, IsDead());
        if s[i].open && s[i].visible {
          living := living + [s[i]];
        } else {
          dead := dead + [s[i]];
        }
      }
      assert s[..|s|] == s;
    }

    method DestroyToasts(from: nat, to: nat)
      requires from <= to <= |instances|
      modifies this`instances, this`closed
      ensures instances == old(instances)[..from] + CloseAll(old(instances)[from..to]) + old(instances)[to..]
      ensures closed == old(closed) + Ids(Filter(old(instances)[from..to], HasWindow()))
    {
      ghost var before := instances;
      hide Filter, CloseAll, Ids, Closed;
      NothingDestroyed(before, from);
      for i := from to to
        invariant |instances| == |before|
        invariant instances == before[..from] + CloseAll(before[from..i]) + before[i..]
        invariant closed == old(closed) + Ids(Filter(before[from..i], HasWindow()))
      {
        NextDestroyed(before, from, i);
        DestroyToast(i);
      }
    }

    /** One segment: from `from` up to the highlighted toast at `to`. */
    method CollapseSegment(from: nat, to: nat) returns (middle: nat)
      requires from <= to <= |instances|
      modifies this`instances, this`closed
      ensures instances == old(instances)[..from] + Compact(old(instances)[from..to]) + old(instances)[to..]
      ensures closed == old(closed) + Ids(Filter(old(instances)[from..to], IsExpired()))
      ensures middle == from + |Filter(old(instances)[from..to], IsAlive())|
    {
      hide *;
      ghost var before, segment := instances, instances[from..to];
      var living, dead := StablePartition(instances[from..to]);
      SegmentParts(segment);
      ExpiredAmongDead(segment);
      middle := from + |living|;
      Rearranged(before, from, living, dead, CloseAll(dead), to);
      instances := instances[..from] + living + dead + instances[to..];
      DestroyToasts(middle, to);
    }

    /** What the purge loop keeps: the places in `done` replace the first ones of `before`. */
    ghost predicate Purging(before: seq<Slot>, done: seq<Slot>, closedBefore: seq<nat>)
      reads this`instances, this`closed
    {
      && |done| <= |before| && instances == done + before[|done|..]
      && Leads(done, CollapseFrom(before, |done|), Collapse(before))
      && closed + Ids(Filter(before[|done|..], IsExpired())) == closedBefore + Purged(before)
    }

    lemma PurgingStarts()
      ensures Purging(instances, [], closed)
    {
      hide CollapseFrom, Filter, Ids;
      assert instances[0..] == instances;
    }

    lemma SameNextWhilePurging(before: seq<Slot>, done: seq<Slot>, closedBefore: seq<nat>)
      requires Purging(before, done, closedBefore)
      ensures |instances| == |before| && |done| <= |before|
      ensures NextHighlighted(instances, |done|) == NextHighlighted(before, |done|)
    {
      hide CollapseFrom, Collapse, Leads, Filter, Ids, Purged, NextHighlighted;
      PartsOf(done, before, |done|, |done|);
      SameNext(instances, before, |done|);
    }

    /** One round of the purge loop: the segment in front of the highlighted toast at `to`. */
    method PurgeSegment(from: nat, to: nat, ghost before: seq<Slot>, ghost done: seq<Slot>,
                        ghost closedBefore: seq<nat>)
      returns (ghost next: seq<Slot>)
      requires Purging(before, done, closedBefore) && |done| == from && Proper(before)
      requires to == NextHighlighted(before, from) < |before|
      modifies this`instances, this`closed
      ensures Purging(before, next, closedBefore) && |next| == to + 1
    {
      hide CollapseFrom, Collapse, Compact, Filter, Ids, Purged, NextHighlighted, Leads;
      PartsOf(done, before, from, to);
      var _ := CollapseSegment(from, to);
      MiddleSegment(done, before, from);
      ExpiredInSegment(before, from);
      NextPart(done, before, from, to);
      next := done + Compact(before[from..to]) + [before[to]];
    }

    /** The last round: the segment behind all highlighted toasts, whose dead are erased. */
    method PurgeLastSegment(from: nat, ghost before: seq<Slot>, ghost done: seq<Slot>, ghost closedBefore: seq<nat>)
      requires Purging(before, done, closedBefore) && |done| == from && NextHighlighted(before, from) == |before|
      modifies this`instances, this`closed
      ensures instances == Collapse(before) && closed == closedBefore + Purged(before)
    {
      hide CollapseFrom, Collapse, Compact, Filter, Ids, Purged, NextHighlighted, Leads;
      PartsOf(done, before, from, |before|);
      var middle := CollapseSegment(from, |instances|);
      LastSegment(done, before, from);
      instances := instances[..middle];
    }

    /** The purge loop of AnimateAll. */
    method PurgeDismissed()
      requires Proper(instances)
      modifies this`instances, this`closed
      ensures D() == Purge(old(D())) && LastHasWindow(instances)
    {
      hide Collapse, CollapseFrom, Filter, Ids, Purged, Purging, NextHighlighted, Proper;
      CollapseShapes(instances);
      ghost var before, done := instances, [];
      if instances == [] {
        EmptyStack();
        return;
      }
      PurgingStarts();
      var it := 0;
      while true
        invariant it == |done| <= |before| && Purging(before, done, old(closed))
        decreases |before| - it
      {
        SameNextWhilePurging(before, done, old(closed));
        var it2 := FindHighlighted(it);
        if it2 == |instances| {
          PurgeLastSegment(it, before, done, old(closed));
          break;
        }
        done := PurgeSegment(it, it2, before, done, old(closed));
        it := it2 + 1;
      }
    }

    /** What the positioning loop keeps. */
    ghost predicate Positioning(before: seq<Slot>, done: seq<Slot>, targetPos: int)
      reads this`instances
    {
      && |done| <= |before| && instances == done + before[|done|..]
      && Leads(done, Layout(before[|done|..], targetPos, margin), Layout(before, 0, margin))
    }

    /** One round of the positioning loop. */
    method PositionSlot(i: nat, targetPos: int, ghost before: seq<Slot>, ghost done: seq<Slot>)
      returns (next: int, ghost nowDone: seq<Slot>)
      requires Positioning(before, done, targetPos) && |done| == i < |before|
      modifies this`instances
      ensures Positioning(before, nowDone, next) && |nowDone| == i + 1
    {
      LayoutNext(done, before, i, targetPos, margin);
      ReplaceNext(done, before, i);
      hide Layout;
      next := targetPos;
      if instances[i].open {
        if instances[i].highlighted {
          next := instances[i].target;
        } else {
          instances := instances[i := instances[i].(target := next)];
        }
        next := next + instances[i].height + margin;
      }
      nowDone := done + [instances[i]];
    }

    /** The positioning loop of AnimateAll. */
    method SetPositions()
      requires LastHasWindow(instances)
      modifies this`instances
      ensures D() == Relayout(old(D())) && LastHasWindow(instances)
    {
      ghost var before, done := instances, [];
      LayoutKeepsLast(before, margin);
      assert before[0..] == before;
      var targetPos := 0;
      for i := 0 to |instances|
        invariant |instances| == |before| && i == |done| && Positioning(before, done, targetPos)
      {
        targetPos, done := PositionSlot(i, targetPos, before, done);
      }
      assert before[|before|..] == [];
    }

    /** `looks` is what the windows have become since the last call. */
    method AnimateAll(looks: seq<Look>, heights: map<nat, nat>)
      requires |looks| == |instances| && ProperLooks(looks) && Proper(instances)
      modifies this
      ensures D() == ToastDisplay.AnimateAll(old(D()), looks, heights) && LastHasWindow(instances)
    {
      instances := RefreshAll(instances, looks);
      PurgeDismissed();
      SetPositions();
      CheckQueue(heights);
    }
  }

  lemma {:induction false} PlaceIsFirst(q: seq<nat>, i: nat)
    requires i < |q| && q[i] !in q[..i]
    ensures IndexOf(q, q[i]) == i
  {
    if i > 0 {
      assert q[0] in q[..i];
      assert q[..i] == [q[0]] + q[1..][..i - 1];
      PlaceIsFirst(q[1..], i - 1);
    }
  }

  lemma LayoutKeepsLast(s: seq<Slot>, margin: nat)
    requires LastHasWindow(s)
    ensures LastHasWindow(Layout(s, 0, margin))
  {
    LayoutKeepsWindows(s, 0, margin);
  }

  lemma EmptyStack()
    ensures Collapse([]) == [] && Purged([]) == []
  {
  }

  /** The next highlighted place depends on the rest of the stack only. */
  lemma {:induction false} SameNext(a: seq<Slot>, b: seq<Slot>, from: nat)
    requires |a| == |b| && from <= |a| && a[from..] == b[from..]
    ensures NextHighlighted(a, from) == NextHighlighted(b, from)
    decreases |a| - from
  {
    if from < |a| {
      assert a[from] == a[from..][0] && b[from] == b[from..][0];
      assert a[from + 1..] == a[from..][1..] && b[from + 1..] == b[from..][1..];
      SameNext(a, b, from + 1);
    }
  }

  lemma NothingDestroyed(s: seq<Slot>, from: nat)
    requires from <= |s|
    ensures s[..from] + CloseAll(s[from..from]) + s[from..] == s && Ids(Filter(s[from..from], HasWindow())) == []
  {
  }

  /** One more slot of a segment is closed. */
  lemma NextDestroyed(s: seq<Slot>, from: nat, i: nat)
    requires from <= i < |s|
    ensures var w := s[..from] + CloseAll(s[from..i]) + s[i..];
            && |w| == |s| && w[i] == s[i]
            && w[i := Closed(s[i])] == s[..from] + CloseAll(s[from..i + 1]) + s[i + 1..]
    ensures Ids(Filter(s[from..i + 1], HasWindow()))
         == Ids(Filter(s[from..i], HasWindow())) + if s[i].open then [s[i].data] else []
  {
    hide Filter, CloseAll, Ids, Closed;
    assert s[from..i + 1] == s[from..i] + [s[i]];
    CloseLast(s[from..i], s[i]);
    ReplaceInside(s[..from], CloseAll(s[from..i]), s[i..], Closed(s[i]));
    assert s[i..][1..] == s[i + 1..];
  }

  lemma CloseLast(a: seq<Slot>, x: Slot)
    ensures CloseAll(a + [x]) == CloseAll(a) + [Closed(x)]
    ensures Ids(Filter(a + [x], HasWindow())) == Ids(Filter(a, HasWindow())) + if x.open then [x.data] else []
  {
    FilterConcat(a, [x], HasWindow());
    FilterOne(x, HasWindow());
    hide Filter;
  }

  lemma ReplaceInside(a: seq<Slot>, b: seq<Slot>, c: seq<Slot>, x: Slot)
    requires c != []
    ensures var w := a + b + c;
            w[|a| + |b|] == c[0] && w[|a| + |b| := x] == a + (b + [x]) + c[1..]
  {
  }

  lemma SegmentParts(s: seq<Slot>)
    ensures Compact(s) == Filter(s, IsAlive()) + CloseAll(Filter(s, IsDead()))
    ensures |Filter(s, IsAlive())| + |Filter(s, IsDead())| == |s|
  {
    CompactLength(s);
    hide Filter;
  }

  /** Of the dead, those with a window are the expired ones. */
  lemma {:induction false} ExpiredAmongDead(s: seq<Slot>)
    ensures Filter(Filter(s, IsDead()), HasWindow()) == Filter(s, IsExpired())
  {
    if s != [] {
      var front, last := s[..|s| - 1], s[|s| - 1];
      ExpiredAmongDead(front);
      FilterConcat(Filter(front, IsDead()), if IsDead()(last) then [last] else [], HasWindow());
      FilterOne(last, HasWindow());
    }
  }

  /** What is done and what is left to do make up the goal. */
  ghost predicate Leads(done: seq<Slot>, rest: seq<Slot>, goal: seq<Slot>) {
    done + rest == goal
  }

  /** The parts of a stack with its segment rearranged. */
  lemma Rearranged(s: seq<Slot>, from: nat, living: seq<Slot>, dead: seq<Slot>, closed: seq<Slot>, to: nat)
    requires from <= to <= |s| && |living| + |dead| == to - from
    ensures var w, middle := s[..from] + living + dead + s[to..], from + |living|;
            && |w| == |s| && w[middle..to] == dead
            && w[..middle] + closed + w[to..] == s[..from] + (living + closed) + s[to..]
  {
    var w, middle := s[..from] + living + dead + s[to..], from + |living|;
    assert w[..middle] == s[..from] + living && w[to..] == s[to..];
    GroupMiddle(s[..from], living, closed, s[to..]);
  }

  lemma GroupMiddle(a: seq<Slot>, b: seq<Slot>, c: seq<Slot>, d: seq<Slot>)
    ensures a + b + c + d == a + (b + c) + d
  {
  }

  /** A stack whose first places have been replaced. */
  lemma PartsOf(done: seq<Slot>, s: seq<Slot>, from: nat, to: nat)
    requires |done| == from <= to <= |s|
    ensures var w := done + s[from..];
            |w| == |s| && w[..from] == done && w[from..to] == s[from..to] && w[to..] == s[to..]
  {
  }

  lemma Regroup(a: seq<Slot>, b: seq<Slot>, c: seq<Slot>, d: seq<Slot>)
    ensures a + (b + c + d) == a + b + c + d
  {
  }

  lemma NextPart(done: seq<Slot>, s: seq<Slot>, from: nat, to: nat)
    requires |done| == from <= to < |s|
    ensures |Compact(s[from..to])| == to - from
    ensures done + Compact(s[from..to]) + s[to..] == done + Compact(s[from..to]) + [s[to]] + s[to + 1..]
  {
    CompactLength(s[from..to]);
    assert s[to..] == [s[to]] + s[to + 1..];
  }

  lemma LastSegment(done: seq<Slot>, s: seq<Slot>, from: nat)
    requires |done| == from <= |s| && NextHighlighted(s, from) == |s| && Leads(done, CollapseFrom(s, from), Collapse(s))
    ensures s[from..|s|] == s[from..] && CollapseFrom(s, from) == Filter(s[from..], IsAlive())
    ensures var living := Filter(s[from..], IsAlive());
            && from + |living| <= |done + Compact(s[from..]) + s[|s|..]|
            && (done + Compact(s[from..]) + s[|s|..])[..from + |living|] == done + living == Collapse(s)
  {
  }

  /** The next place of a stack, as it is or with another slot in it. */
  lemma ReplaceNext(done: seq<Slot>, s: seq<Slot>, i: nat)
    requires |done| == i < |s|
    ensures var w := done + s[i..];
            && |w| == |s| && w[i] == s[i] && w == done + [s[i]] + s[i + 1..]
            && forall x :: w[i := x] == done + [x] + s[i + 1..]
  {
    assert s[i..] == [s[i]] + s[i + 1..];
  }

  lemma LayoutNext(done: seq<Slot>, s: seq<Slot>, i: nat, position: int, margin: nat)
    requires i < |s|
    ensures var target := if s[i].open && !s[i].highlighted then position else s[i].target;
            done + [s[i].(target := target)]
              + Layout(s[i + 1..], if s[i].open then target + s[i].height + margin else position, margin)
            == done + Layout(s[i..], position, margin)
  {
    var target := if s[i].open && !s[i].highlighted then position else s[i].target;
    var rest := Layout(s[i + 1..], if s[i].open then target + s[i].height + margin else position, margin);
    assert s[i..][0] == s[i] && s[i..][1..] == s[i + 1..];
    assert s[i].(target := s[i].target) == s[i];
    assert Layout(s[i..], position, margin) == [s[i].(target := target)] + rest;
    hide Layout;
    Regroup(done, [s[i].(target := target)], [], rest);
  }

  lemma MiddleSegment(done: seq<Slot>, s: seq<Slot>, from: nat)
    requires from <= |s| && NextHighlighted(s, from) < |s| && Leads(done, CollapseFrom(s, from), Collapse(s))
    ensures var k := NextHighlighted(s, from);
            Leads(done + Compact(s[from..k]) + [s[k]], CollapseFrom(s, k + 1), Collapse(s))
  {
    var k := NextHighlighted(s, from);
    var compact, rest := Compact(s[from..k]), CollapseFrom(s, k + 1);
    assert CollapseFrom(s, from) == compact + [s[k]] + rest;
    hide CollapseFrom, Collapse, Compact;
    Regroup(done, compact, [s[k]], rest);
  }

  lemma ExpiredInSegment(s: seq<Slot>, from: nat)
    requires from <= |s| && NextHighlighted(s, from) < |s| && Proper(s)
    ensures var k := NextHighlighted(s, from);
            Ids(Filter(s[from..], IsExpired()))
              == Ids(Filter(s[from..k], IsExpired())) + Ids(Filter(s[k + 1..], IsExpired()))
  {
    var k := NextHighlighted(s, from);
    assert !IsExpired()(s[k]);
    SplitAt(s, from, k);
    hide *;
    var a, b := Filter(s[from..k], IsExpired()), Filter(s[k + 1..], IsExpired());
    FilterThree(s[from..k], s[k], s[k + 1..], IsExpired());
    FilterOne(s[k], IsExpired());
    assert a + [] + b == a + b;
    IdsConcat(a, b);
  }
}
