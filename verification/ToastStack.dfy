/** The stack of toasts: purging the dead ones around highlighted ones, and laying out the rest. */
module ToastStack {
  import opened Sequences

  /** One place of the stack.  `open`: it still has a window.  The other fields are those of the
      window; `target` is the vertical position it moves to. */
  datatype Slot = Slot(data: nat, open: bool, visible: bool, highlighted: bool, height: nat, target: int)

  function IsAlive(): Slot -> bool {
    (s: Slot) => s.open && s.visible
  }

  function IsDead(): Slot -> bool {
    (s: Slot) => !(s.open && s.visible)
  }

  /** Has a window that is to be destroyed. */
  function IsExpired(): Slot -> bool {
    (s: Slot) => s.open && !s.visible
  }

  function HasWindow(): Slot -> bool {
    (s: Slot) => s.open
  }

  predicate IsHighlighted(s: Slot) {
    s.open && s.highlighted
  }

  /** Only a visible toast is highlighted. */
  predicate Proper(s: seq<Slot>) {
    forall i :: 0 <= i < |s| && IsHighlighted(s[i]) ==> s[i].visible
  }

  function Closed(s: Slot): Slot {
    s.(open := false)
  }

  function CloseAll(s: seq<Slot>): (r: seq<Slot>)
    ensures |r| == |s| && forall i :: 0 <= i < |s| ==> r[i] == Closed(s[i])
  {
    seq(|s|, i requires 0 <= i < |s| => Closed(s[i]))
  }

  function Ids(s: seq<Slot>): (r: seq<nat>)
    ensures |r| == |s| && forall i :: 0 <= i < |s| ==> r[i] == s[i].data
  {
    seq(|s|, i requires 0 <= i < |s| => s[i].data)
  }

  /** The next highlighted slot from `from` on, or the end. */
  function NextHighlighted(s: seq<Slot>, from: nat): (k: nat)
    requires from <= |s|
    ensures from <= k <= |s|
    ensures forall i :: from <= i < k ==> !IsHighlighted(s[i])
    ensures k < |s| ==> IsHighlighted(s[k])
    decreases |s| - from
  {
    if from == |s| || IsHighlighted(s[from]) then from else NextHighlighted(s, from + 1)
  }

  /** One segment in front of a highlighted slot: the living move up, the dead stay behind as holes. */
  function Compact(s: seq<Slot>): seq<Slot> {
    Filter(s, IsAlive()) + CloseAll(Filter(s, IsDead()))
  }

  /** The stack after purging, from `from` on. */
  function CollapseFrom(s: seq<Slot>, from: nat): seq<Slot>
    requires from <= |s|
    decreases |s| - from
  {
    var k := NextHighlighted(s, from);
    if k == |s| then Filter(s[from..], IsAlive())
    else Compact(s[from..k]) + [s[k]] + CollapseFrom(s, k + 1)
  }

  function Collapse(s: seq<Slot>): seq<Slot> {
    CollapseFrom(s, 0)
  }

  /** The notifications whose window is destroyed by purging. */
  function Purged(s: seq<Slot>): seq<nat> {
    Ids(Filter(s, IsExpired()))
  }

  // ----- what purging does -----

  lemma FilterThree(a: seq<Slot>, x: Slot, b: seq<Slot>, p: Slot -> bool)
    ensures Filter(a + [x] + b, p) == Filter(a, p) + Filter([x], p) + Filter(b, p)
  {
    hide Filter;
    FilterConcat(a + [x], b, p);
    FilterConcat(a, [x], p);
  }

  lemma SplitAt(s: seq<Slot>, from: nat, k: nat)
    requires from <= k < |s|
    ensures s[from..] == s[from..k] + [s[k]] + s[k + 1..]
  {
  }

  lemma PlaceIn(a: seq<Slot>, x: Slot, b: seq<Slot>, i: nat)
    requires i < |a| + 1 + |b|
    ensures (a + [x] + b)[i] == if i < |a| then a[i] else if i == |a| then x else b[i - |a| - 1]
  {
  }

  /** A filter from the front. */
  lemma FilterFirst(s: seq<Slot>, p: Slot -> bool)
    requires s != []
    ensures p(s[0]) ==> Filter(s, p) != [] && Filter(s, p)[0] == s[0] && Filter(s, p)[1..] == Filter(s[1..], p)
    ensures !p(s[0]) ==> Filter(s, p) == Filter(s[1..], p)
  {
    assert s == [s[0]] + s[1..];
    FilterConcat([s[0]], s[1..], p);
    FilterOne(s[0], p);
    assert [] + Filter(s[1..], p) == Filter(s[1..], p);
    assert ([s[0]] + Filter(s[1..], p))[1..] == Filter(s[1..], p);
  }

  lemma {:induction false} FilterTwice(s: seq<Slot>, p: Slot -> bool)
    ensures Filter(Filter(s, p), p) == Filter(s, p)
  {
    FilterMembers(s, p);
    FilterAll(Filter(s, p), p);
  }

  lemma CompactLength(s: seq<Slot>)
    ensures |Compact(s)| == |s|
  {
    FilterSplits(s, IsAlive(), IsDead());
    assert |multiset(Filter(s, IsAlive())) + multiset(Filter(s, IsDead()))| == |s|;
  }

  lemma CompactKeepsLiving(s: seq<Slot>)
    ensures Filter(Compact(s), IsAlive()) == Filter(s, IsAlive())
  {
    var holes := CloseAll(Filter(s, IsDead()));
    FilterConcat(Filter(s, IsAlive()), holes, IsAlive());
    FilterTwice(s, IsAlive());
    forall x | x in holes ensures !IsAlive()(x) {
      var i :| 0 <= i < |holes| && holes[i] == x;
    }
    FilterNone(holes, IsAlive());
  }

  /** The living keep their order, and nobody living is lost. */
  lemma {:induction false} CollapseKeepsLiving(s: seq<Slot>, from: nat)
    requires from <= |s| && Proper(s)
    ensures Filter(CollapseFrom(s, from), IsAlive()) == Filter(s[from..], IsAlive())
    decreases |s| - from
  {
    var k := NextHighlighted(s, from);
    if k == |s| {
      FilterTwice(s[from..], IsAlive());
    } else {
      var front, rest := s[from..k], CollapseFrom(s, k + 1);
      assert CollapseFrom(s, from) == Compact(front) + [s[k]] + rest;
      hide *;
      CollapseKeepsLiving(s, k + 1);
      CompactKeepsLiving(front);
      FilterThree(Compact(front), s[k], rest, IsAlive());
      SplitAt(s, from, k);
      FilterThree(front, s[k], s[k + 1..], IsAlive());
    }
  }

  /** A highlighted toast does not move, and no other place becomes highlighted. */
  lemma {:induction false} CollapseKeepsHighlighted(s: seq<Slot>, from: nat, i: nat)
    requires from <= i < |s| && Proper(s)
    ensures var r := CollapseFrom(s, from);
            && (IsHighlighted(s[i]) ==> i - from < |r| && r[i - from] == s[i])
            && (i - from < |r| && IsHighlighted(r[i - from]) ==> IsHighlighted(s[i]))
    decreases |s| - from
  {
    hide Compact, Filter, NextHighlighted;
    var k := NextHighlighted(s, from);
    var r := CollapseFrom(s, from);
    if k == |s| {
      FilterMembers(s[from..], IsAlive());
      if i - from < |r| {
        assert r[i - from] in r;
        assert r[i - from] in s[from..];
      }
    } else {
      var front := s[from..k];
      assert r == Compact(front) + [s[k]] + CollapseFrom(s, k + 1);
      hide CollapseFrom;
      CompactLength(front);
      if i > k {
        CollapseKeepsHighlighted(s, k + 1, i);
      } else if i < k {
        CompactIsPlain(front, i - from);
      }
      if i - from < |r| {
        PlaceIn(Compact(front), s[k], CollapseFrom(s, k + 1), i - from);
      }
    }
  }

  /** Nothing in a segment is highlighted. */
  lemma CompactIsPlain(s: seq<Slot>, i: nat)
    requires (forall j :: 0 <= j < |s| ==> !IsHighlighted(s[j])) && i < |Compact(s)|
    ensures !IsHighlighted(Compact(s)[i])
  {
    FilterMembers(s, IsAlive());
    var living := Filter(s, IsAlive());
    if i < |living| {
      assert living[i] in s;
    }
  }

  /** A place is fine if it is alive, or a hole followed by a hole or by a highlighted toast. */
  predicate Settled(r: seq<Slot>, i: nat)
    requires i < |r|
  {
    || (r[i].open && r[i].visible)
    || (!r[i].open && i + 1 < |r| && (!r[i + 1].open || IsHighlighted(r[i + 1])))
  }

  predicate AllSettled(r: seq<Slot>) {
    (forall i :: 0 <= i < |r| ==> Settled(r, i)) && (r != [] ==> r[|r| - 1].open)
  }

  /** After purging every window is visible, holes are left only right in front of a highlighted
      toast, and the last place has a window. */
  lemma {:induction false} CollapseSettles(s: seq<Slot>, from: nat)
    requires from <= |s| && Proper(s)
    ensures AllSettled(CollapseFrom(s, from))
    decreases |s| - from
  {
    var k := NextHighlighted(s, from);
    if k == |s| {
      LivingSettle(s[from..]);
    } else {
      var front, rest := s[from..k], CollapseFrom(s, k + 1);
      var living, holes := Filter(front, IsAlive()), CloseAll(Filter(front, IsDead()));
      assert CollapseFrom(s, from) == living + holes + [s[k]] + rest;
      LivingSettle(front);
      hide CollapseFrom, Filter, NextHighlighted, AllSettled, Settled;
      CollapseSettles(s, k + 1);
      SettledParts(living, holes, s[k], rest);
    }
  }

  lemma LivingSettle(s: seq<Slot>)
    ensures var living := Filter(s, IsAlive());
            AllSettled(living) && forall i :: 0 <= i < |living| ==> living[i].open && living[i].visible
  {
    FilterMembers(s, IsAlive());
    var living := Filter(s, IsAlive());
    forall i | 0 <= i < |living| ensures living[i].open && living[i].visible {
      assert living[i] in living;
    }
  }

  lemma SettledParts(living: seq<Slot>, holes: seq<Slot>, x: Slot, rest: seq<Slot>)
    requires forall i :: 0 <= i < |living| ==> living[i].open && living[i].visible
    requires forall i :: 0 <= i < |holes| ==> !holes[i].open
    requires IsHighlighted(x) && x.visible
    requires AllSettled(rest)
    ensures AllSettled(living + holes + [x] + rest)
  {
    var compact := living + holes;
    var r := compact + [x] + rest;
    forall i | 0 <= i < |r| ensures Settled(r, i) {
      PlaceIn(compact, x, rest, i);
      if i + 1 < |r| {
        PlaceIn(compact, x, rest, i + 1);
      }
      assert i > |compact| ==> Settled(rest, i - |compact| - 1);
    }
  }

  /** The stack does not grow. */
  lemma {:induction false} CollapseShrinks(s: seq<Slot>, from: nat)
    requires from <= |s|
    ensures |CollapseFrom(s, from)| <= |s| - from
    decreases |s| - from
  {
    var k := NextHighlighted(s, from);
    if k == |s| {
      FilterMembers(s[from..], IsAlive());
    } else {
      CompactLength(s[from..k]);
      CollapseShrinks(s, k + 1);
    }
  }

  /** Purging again purges nobody: every window is destroyed once. */
  lemma CollapsePurgesOnce(s: seq<Slot>)
    requires Proper(s)
    ensures Purged(Collapse(s)) == []
  {
    CollapseSettles(s, 0);
    forall x | x in Collapse(s) ensures !IsExpired()(x) {
      var i :| 0 <= i < |Collapse(s)| && Collapse(s)[i] == x;
      assert Settled(Collapse(s), i);
    }
    FilterNone(Collapse(s), IsExpired());
  }

  // ----- layout -----

  /** New positions from the bottom up; highlighted toasts stay and push the later ones behind them. */
  function Layout(s: seq<Slot>, position: int, margin: nat): (r: seq<Slot>)
    ensures |r| == |s|
  {
    if s == [] then []
    else if !s[0].open then [s[0]] + Layout(s[1..], position, margin)
    else
      var target := if s[0].highlighted then s[0].target else position;
      [s[0].(target := target)] + Layout(s[1..], target + s[0].height + margin, margin)
  }

  /** The toasts lie above `position` and do not overlap. */
  predicate Stacked(s: seq<Slot>, position: int, margin: nat) {
    s == [] ||
    if !s[0].open then Stacked(s[1..], position, margin)
    else s[0].target >= position && Stacked(s[1..], s[0].target + s[0].height + margin, margin)
  }

  /** The running position never passes a highlighted toast. */
  predicate Clear(s: seq<Slot>, position: int, margin: nat) {
    s == [] ||
    if !s[0].open then Clear(s[1..], position, margin)
    else if s[0].highlighted then s[0].target >= position && Clear(s[1..], s[0].target + s[0].height + margin, margin)
    else Clear(s[1..], position + s[0].height + margin, margin)
  }

  /** Whatever the heights have become: the new layout is free of overlaps exactly if the toasts in
      front of each highlighted one fit below it. */
  lemma {:induction false} LayoutStacksExactly(s: seq<Slot>, position: int, margin: nat)
    ensures Stacked(Layout(s, position, margin), position, margin) <==> Clear(s, position, margin)
  {
    if s != [] {
      var target := if s[0].highlighted then s[0].target else position;
      LayoutStacksExactly(s[1..], if s[0].open then target + s[0].height + margin else position, margin);
      assert Layout(s, position, margin)[1..]
          == Layout(s[1..], if s[0].open then target + s[0].height + margin else position, margin);
    }
  }

  /** Toasts that did not overlap before still do not, stay or move down, and highlighted ones stay. */
  lemma {:induction false} LayoutLowers(s: seq<Slot>, position: int, before: int, margin: nat)
    requires position <= before && Stacked(s, before, margin)
    ensures Clear(s, position, margin) && Stacked(Layout(s, position, margin), position, margin)
    ensures forall i :: 0 <= i < |s| ==>
              && Layout(s, position, margin)[i] == s[i].(target := Layout(s, position, margin)[i].target)
              && Layout(s, position, margin)[i].target <= s[i].target
              && (!s[i].open || s[i].highlighted ==> Layout(s, position, margin)[i] == s[i])
  {
    LayoutStacksExactly(s, position, margin);
    if s != [] {
      var r := Layout(s, position, margin);
      if s[0].open {
        var target := if s[0].highlighted then s[0].target else position;
        LayoutLowers(s[1..], target + s[0].height + margin, s[0].target + s[0].height + margin, margin);
        assert r[1..] == Layout(s[1..], target + s[0].height + margin, margin);
      } else {
        LayoutLowers(s[1..], position, before, margin);
        assert r[1..] == Layout(s[1..], position, margin);
      }
    }
  }

  /** Holes do not matter for the layout. */
  lemma {:induction false} StackedWindows(s: seq<Slot>, position: int, margin: nat)
    ensures Stacked(s, position, margin) <==> Stacked(Filter(s, HasWindow()), position, margin)
  {
    if s != [] {
      FilterFirst(s, HasWindow());
      StackedWindows(s[1..], if s[0].open then s[0].target + s[0].height + margin else position, margin);
    }
  }

  /** Taking toasts out leaves the rest free of overlaps. */
  lemma {:induction false} StackedLiving(s: seq<Slot>, position: int, before: int, margin: nat)
    requires position <= before && Stacked(s, before, margin)
    ensures Stacked(Filter(s, IsAlive()), position, margin)
  {
    if s != [] {
      FilterFirst(s, IsAlive());
      if s[0].open {
        StackedLiving(s[1..], if s[0].visible then s[0].target + s[0].height + margin else position,
                      s[0].target + s[0].height + margin, margin);
      } else {
        StackedLiving(s[1..], position, before, margin);
      }
    }
  }

  /** Purging and laying out: no overlap, nobody moves up, and highlighted toasts keep their place. */
  lemma PurgeThenLayout(s: seq<Slot>, margin: nat)
    requires Proper(s) && Stacked(s, 0, margin)
    ensures var collapsed := Collapse(s);
            var r := Layout(collapsed, 0, margin);
            && Stacked(r, 0, margin)
            && (forall i :: 0 <= i < |r| ==> r[i].target <= collapsed[i].target)
            && (forall i :: 0 <= i < |s| && IsHighlighted(s[i]) ==> i < |r| && r[i] == s[i])
  {
    var collapsed := Collapse(s);
    assert s[0..] == s && collapsed == CollapseFrom(s, 0);
    hide *;
    CollapseKeepsLiving(s, 0);
    StackedLiving(s, 0, 0, margin);
    WindowsAreLiving(s);
    StackedWindows(collapsed, 0, margin);
    LayoutLowers(collapsed, 0, 0, margin);
    HighlightedStay(s, Layout(collapsed, 0, margin));
  }

  lemma HighlightedStay(s: seq<Slot>, r: seq<Slot>)
    requires Proper(s) && |r| == |Collapse(s)|
    requires forall i :: 0 <= i < |r| && Collapse(s)[i].highlighted ==> r[i] == Collapse(s)[i]
    ensures forall i :: 0 <= i < |s| && IsHighlighted(s[i]) ==> i < |r| && r[i] == s[i]
  {
    hide CollapseFrom;
    forall i | 0 <= i < |s| && IsHighlighted(s[i]) ensures i < |r| && r[i] == s[i] {
      CollapseKeepsHighlighted(s, 0, i);
    }
  }

  lemma WindowsAreLiving(s: seq<Slot>)
    requires Proper(s)
    ensures Filter(Collapse(s), HasWindow()) == Filter(Collapse(s), IsAlive())
  {
    CollapseSettles(s, 0);
    forall x | x in Collapse(s) ensures HasWindow()(x) == IsAlive()(x) {
      var i :| 0 <= i < |Collapse(s)| && Collapse(s)[i] == x;
      assert Settled(Collapse(s), i);
    }
    FilterSame(Collapse(s), HasWindow(), IsAlive());
  }

  lemma {:induction false} FilterSame(s: seq<Slot>, p: Slot -> bool, q: Slot -> bool)
    requires forall x :: x in s ==> p(x) == q(x)
    ensures Filter(s, p) == Filter(s, q)
  {
    if s != [] {
      assert s == s[..|s| - 1] + [s[|s| - 1]];
      FilterSame(s[..|s| - 1], p, q);
    }
  }
}
