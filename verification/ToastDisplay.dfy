/** The bounded display of toasts with its queue, on values, and the life of a notification. */
module ToastDisplay {
  import opened Sequences
  import opened ToastStack

  /** `closed` lists the notifications reported as closed.  `dropped` are those whose window could not
      be created.  `added`, `popped` and `withdrawn` remember what was added, what left the queue for
      the display, and what was closed while still queued. */
  datatype Display = Display(
    capacity: nat, margin: nat,
    instances: seq<Slot>, queue: seq<nat>, closed: seq<nat>, dropped: seq<nat>,
    added: seq<nat>, popped: seq<nat>, withdrawn: seq<nat>)

  function Empty(capacity: nat, margin: nat): Display {
    Display(capacity, margin, [], [], [], [], [], [], [])
  }

  /** What the windows look like when the stack is refreshed. */
  datatype Look = Look(visible: bool, highlighted: bool, height: nat)

  // ----- operations -----

  function PositionOnTop(s: seq<Slot>, margin: nat): int {
    if s == [] then 0 else s[|s| - 1].target + s[|s| - 1].height + margin
  }

  /** `heights` says for which notifications a window can be created, and how high it is. */
  function CreateToast(d: Display, id: nat, heights: map<nat, nat>): Display {
    if id in heights
    then
      var toast := Slot(id, true, false, false, heights[id], PositionOnTop(d.instances, d.margin));
      d.(instances := d.instances + [toast])
    else d.(dropped := d.dropped + [id])
  }

  function PopFront(d: Display): Display
    requires d.queue != []
  {
    d.(queue := d.queue[1..], popped := d.popped + [d.queue[0]])
  }

  function CheckQueue(d: Display, heights: map<nat, nat>): Display
    decreases |d.queue|
  {
    if |d.instances| < d.capacity && d.queue != []
    then CheckQueue(PopFront(CreateToast(d, d.queue[0], heights)), heights)
    else d
  }

  function Add(d: Display, id: nat, heights: map<nat, nat>): Display {
    CheckQueue(d.(queue := d.queue + [id], added := d.added + [id]), heights)
  }

  /** A queued notification is withdrawn at once; a shown one only starts to fade. */
  function Close(d: Display, id: nat): Display {
    if id in d.queue
    then
      var i := IndexOf(d.queue, id);
      d.(queue := d.queue[..i] + d.queue[i + 1..], closed := d.closed + [id], withdrawn := d.withdrawn + [id])
    else d
  }

  function Refreshed(s: Slot, look: Look): Slot {
    if s.open then s.(visible := look.visible, highlighted := look.highlighted, height := look.height) else s
  }

  function RefreshAll(s: seq<Slot>, looks: seq<Look>): (r: seq<Slot>)
    requires |looks| == |s|
    ensures |r| == |s| && forall i :: 0 <= i < |s| ==> r[i] == Refreshed(s[i], looks[i])
  {
    seq(|s|, i requires 0 <= i < |s| => Refreshed(s[i], looks[i]))
  }

  function Purge(d: Display): Display {
    d.(instances := Collapse(d.instances), closed := d.closed + Purged(d.instances))
  }

  function Relayout(d: Display): Display {
    d.(instances := Layout(d.instances, 0, d.margin))
  }

  function AnimateAll(d: Display, looks: seq<Look>, heights: map<nat, nat>): Display
    requires |looks| == |d.instances|
  {
    CheckQueue(Relayout(Purge(d.(instances := RefreshAll(d.instances, looks)))), heights)
  }

  // ----- invariant -----

  function Occurrences(s: seq<nat>, id: nat): nat {
    if s == [] then 0 else Occurrences(s[..|s| - 1], id) + if s[|s| - 1] == id then 1 else 0
  }

  function IsNot(withdrawn: seq<nat>): nat -> bool {
    (id: nat) => id !in withdrawn
  }

  function Shown(d: Display): seq<nat> {
    Ids(Filter(d.instances, HasWindow()))
  }

  function Places(d: Display, id: nat): nat {
    Occurrences(Shown(d), id) + Occurrences(d.queue, id) + Occurrences(d.closed, id) + Occurrences(d.dropped, id)
  }

  /** Every notification is in exactly as many places as it was added. */
  ghost predicate Balanced(d: Display) {
    forall id: nat :: Places(d, id) == Occurrences(d.added, id)
  }

  /** Notifications leave the queue in the order they were added, those withdrawn aside. */
  predicate InOrder(d: Display) {
    d.popped + d.queue == Filter(d.added, IsNot(d.withdrawn))
  }

  predicate LastHasWindow(s: seq<Slot>) {
    s != [] ==> s[|s| - 1].open
  }

  predicate Shaped(d: Display) {
    && |d.instances| <= d.capacity
    && LastHasWindow(d.instances)
    && Proper(d.instances)
    && (forall id :: id in d.withdrawn ==> id in d.added)
    && (forall id :: id in d.queue ==> id !in d.withdrawn)
    && (forall i, j :: 0 <= i < j < |d.added| ==> d.added[i] != d.added[j])
  }

  /** A waiting notification means that the display is full. */
  predicate Full(d: Display) {
    d.queue != [] ==> |d.instances| == d.capacity
  }

  ghost predicate Valid(d: Display) {
    Shaped(d) && Full(d) && Balanced(d) && InOrder(d)
  }

  // ----- counting -----

  lemma {:induction false} OccurrencesConcat(a: seq<nat>, b: seq<nat>, id: nat)
    ensures Occurrences(a + b, id) == Occurrences(a, id) + Occurrences(b, id)
  {
    if b == [] {
      assert a + b == a;
    } else {
      assert (a + b)[..|a + b| - 1] == a + b[..|b| - 1];
      OccurrencesConcat(a, b[..|b| - 1], id);
    }
  }

  lemma OccurrencesOne(x: nat, id: nat)
    ensures Occurrences([x], id) == if x == id then 1 else 0
  {
    assert [x][..0] == [];
  }

  lemma {:induction false} OccurrencesMember(s: seq<nat>, id: nat)
    ensures Occurrences(s, id) > 0 <==> id in s
  {
    if s != [] {
      assert s == s[..|s| - 1] + [s[|s| - 1]];
      OccurrencesMember(s[..|s| - 1], id);
    }
  }

  lemma {:induction false} OccurrencesDistinct(s: seq<nat>, id: nat)
    requires forall i, j :: 0 <= i < j < |s| ==> s[i] != s[j]
    ensures Occurrences(s, id) <= 1
  {
    if s != [] {
      OccurrencesDistinct(s[..|s| - 1], id);
      OccurrencesMember(s[..|s| - 1], id);
    }
  }

  lemma IdsConcat(a: seq<Slot>, b: seq<Slot>)
    ensures Ids(a + b) == Ids(a) + Ids(b)
  {
  }

  /** Of the windows, those that are visible stay and the others are purged. */
  lemma {:induction false} WindowsSplit(s: seq<Slot>, id: nat)
    ensures Occurrences(Ids(Filter(s, HasWindow())), id)
         == Occurrences(Ids(Filter(s, IsAlive())), id) + Occurrences(Ids(Filter(s, IsExpired())), id)
  {
    if s != [] {
      var front, last := s[..|s| - 1], s[|s| - 1];
      WindowsSplit(front, id);
      NextWindow(front, last, s, HasWindow(), id);
      NextWindow(front, last, s, IsAlive(), id);
      NextWindow(front, last, s, IsExpired(), id);
    }
  }

  lemma NextWindow(front: seq<Slot>, last: Slot, s: seq<Slot>, p: Slot -> bool, id: nat)
    requires s == front + [last]
    ensures Occurrences(Ids(Filter(s, p)), id)
         == Occurrences(Ids(Filter(front, p)), id) + if p(last) && last.data == id then 1 else 0
  {
    assert s[..|s| - 1] == front && s[|s| - 1] == last;
    var kept := Filter(front, p);
    if p(last) {
      assert Filter(s, p) == kept + [last];
      hide Filter, Occurrences;
      IdsConcat(kept, [last]);
      OccurrencesConcat(Ids(kept), [last.data], id);
      OccurrencesOne(last.data, id);
      assert Ids([last]) == [last.data];
    } else {
      assert Filter(s, p) == kept;
    }
  }

  /** Positions and looks do not change which notifications have windows. */
  lemma {:induction false} SameWindows(a: seq<Slot>, b: seq<Slot>)
    requires |a| == |b| && forall i :: 0 <= i < |a| ==> a[i].open == b[i].open && a[i].data == b[i].data
    ensures Ids(Filter(a, HasWindow())) == Ids(Filter(b, HasWindow()))
  {
    if a != [] {
      SameWindows(a[..|a| - 1], b[..|b| - 1]);
    }
  }

  lemma {:induction false} LayoutKeepsWindows(s: seq<Slot>, position: int, margin: nat)
    ensures forall i :: 0 <= i < |s| ==>
              Layout(s, position, margin)[i] == s[i].(target := Layout(s, position, margin)[i].target)
  {
    if s != [] {
      var target := if s[0].highlighted then s[0].target else position;
      LayoutKeepsWindows(s[1..], if s[0].open then target + s[0].height + margin else position, margin);
    }
  }

  // ----- the invariant is kept -----

  lemma CreateKeeps(d: Display, heights: map<nat, nat>)
    requires Shaped(d) && Balanced(d) && InOrder(d) && |d.instances| < d.capacity && d.queue != []
    ensures var e := PopFront(CreateToast(d, d.queue[0], heights));
            Shaped(e) && Balanced(e) && InOrder(e)
  {
    var id := d.queue[0];
    var e := PopFront(CreateToast(d, id, heights));
    assert d.queue == [id] + d.queue[1..];
    assert e.popped + e.queue == d.popped + d.queue;
    hide Occurrences, Filter, IsNot;
    forall x: nat ensures Places(e, x) == Occurrences(e.added, x) {
      assert Places(d, x) == Occurrences(d.added, x);
      OccurrencesConcat([id], d.queue[1..], x);
      OccurrencesOne(id, x);
      if id in heights {
        NextWindow(d.instances, e.instances[|d.instances|], e.instances, HasWindow(), x);
      } else {
        OccurrencesConcat(d.dropped, [id], x);
      }
    }
  }

  lemma {:induction false} CheckQueueKeeps(d: Display, heights: map<nat, nat>)
    requires Shaped(d) && Balanced(d) && InOrder(d)
    ensures Valid(CheckQueue(d, heights))
    decreases |d.queue|
  {
    if |d.instances| < d.capacity && d.queue != [] {
      CreateKeeps(d, heights);
      CheckQueueKeeps(PopFront(CreateToast(d, d.queue[0], heights)), heights);
    }
  }

  lemma AddKeeps(d: Display, id: nat, heights: map<nat, nat>)
    requires Valid(d) && id !in d.added
    ensures Valid(Add(d, id, heights))
  {
    var e := d.(queue := d.queue + [id], added := d.added + [id]);
    FilterConcat(d.added, [id], IsNot(d.withdrawn));
    assert [id][..0] == [];
    assert e.popped + e.queue == d.popped + d.queue + [id];
    hide Occurrences, Filter, CheckQueue, Proper, LastHasWindow;
    forall x: nat ensures Places(e, x) == Occurrences(e.added, x) {
      assert Places(d, x) == Occurrences(d.added, x);
      OccurrencesConcat(d.queue, [id], x);
      OccurrencesConcat(d.added, [id], x);
    }
    CheckQueueKeeps(e, heights);
  }

  lemma {:induction false} FilterWithout(s: seq<nat>, withdrawn: seq<nat>, id: nat)
    ensures Filter(s, IsNot(withdrawn + [id])) == Filter(Filter(s, IsNot(withdrawn)), IsNot([id]))
  {
    if s != [] {
      var front, last := s[..|s| - 1], s[|s| - 1];
      FilterWithout(front, withdrawn, id);
      FilterConcat(Filter(front, IsNot(withdrawn)), if IsNot(withdrawn)(last) then [last] else [], IsNot([id]));
      assert [last][..0] == [];
    }
  }

  lemma RemoveOne(front: seq<nat>, id: nat, back: seq<nat>)
    requires id !in front && id !in back
    ensures Filter(front + [id] + back, IsNot([id])) == front + back
  {
    hide Filter;
    var p := IsNot([id]);
    forall x | x in front + back ensures p(x) {
      assert x != id;
    }
    FilterAll(front, p);
    FilterAll(back, p);
    FilterNone([id], p);
    FilterConcat(front, [id], p);
    assert front + [] == front;
    FilterConcat(front + [id], back, p);
  }

  lemma {:induction false} FilterKeepsDistinct(s: seq<nat>, p: nat -> bool, id: nat)
    requires Occurrences(s, id) <= 1
    ensures Occurrences(Filter(s, p), id) <= 1
    ensures Occurrences(Filter(s, p), id) <= Occurrences(s, id)
  {
    if s != [] {
      var front, last := s[..|s| - 1], s[|s| - 1];
      FilterKeepsDistinct(front, p, id);
      OccurrencesConcat(Filter(front, p), if p(last) then [last] else [], id);
      OccurrencesOne(last, id);
    }
  }

  lemma CountParts(front: seq<nat>, id: nat, back: seq<nat>, x: nat)
    ensures Occurrences(front + [id] + back, x) == Occurrences(front + back, x) + if x == id then 1 else 0
    ensures Occurrences(front + back, x) == Occurrences(front, x) + Occurrences(back, x)
  {
    OccurrencesConcat(front + [id], back, x);
    OccurrencesConcat(front, [id], x);
    OccurrencesConcat(front, back, x);
    OccurrencesOne(id, x);
  }

  lemma AppearsOnce(front: seq<nat>, id: nat, back: seq<nat>)
    requires Occurrences(front + [id] + back, id) <= 1
    ensures id !in front && id !in back
  {
    CountParts(front, id, back, id);
    OccurrencesMember(front, id);
    OccurrencesMember(back, id);
  }

  lemma CloseKeepsOrder(d: Display, id: nat)
    requires Shaped(d) && InOrder(d) && id in d.queue
    ensures InOrder(Close(d, id))
  {
    var i := IndexOf(d.queue, id);
    var front, back := d.popped + d.queue[..i], d.queue[i + 1..];
    assert d.popped + d.queue == front + [id] + back;
    assert Close(d, id).popped + Close(d, id).queue == front + back;
    OccurrencesDistinct(d.added, id);
    FilterKeepsDistinct(d.added, IsNot(d.withdrawn), id);
    AppearsOnce(front, id, back);
    RemoveOne(front, id, back);
    FilterWithout(d.added, d.withdrawn, id);
  }

  lemma QueuedWasAdded(d: Display, id: nat)
    requires InOrder(d) && id in d.queue
    ensures id in d.added && id !in d.withdrawn
  {
    assert id in d.popped + d.queue;
    FilterMembers(d.added, IsNot(d.withdrawn));
  }

  /** The notification moves from the queue to those reported as closed. */
  lemma CloseKeepsPlaces(d: Display, id: nat, x: nat)
    requires id in d.queue
    ensures Places(Close(d, id), x) == Places(d, x)
  {
    var i := IndexOf(d.queue, id);
    var front, back := d.queue[..i], d.queue[i + 1..];
    assert d.queue == front + [id] + back;
    CountParts(front, id, back, x);
    OccurrencesConcat(d.closed, [id], x);
    OccurrencesOne(id, x);
    hide Occurrences, Filter, IndexOf;
  }

  lemma CloseKeepsShape(d: Display, id: nat)
    requires Shaped(d) && id in d.queue && id in d.added && Occurrences(d.queue, id) <= 1
    ensures Shaped(Close(d, id))
  {
    var i := IndexOf(d.queue, id);
    var front, back := d.queue[..i], d.queue[i + 1..];
    assert d.queue == front + [id] + back;
    hide Occurrences, LastHasWindow, Proper, IndexOf;
    AppearsOnce(front, id, back);
    forall x | x in front + back ensures x !in d.withdrawn + [id] {
      assert x in d.queue;
    }
  }

  lemma InOnePlace(d: Display, id: nat)
    requires Shaped(d) && Balanced(d)
    ensures Places(d, id) <= 1
  {
    assert Places(d, id) == Occurrences(d.added, id);
    hide Places, Occurrences;
    OccurrencesDistinct(d.added, id);
  }

  lemma CloseKeeps(d: Display, id: nat)
    requires Valid(d)
    ensures Valid(Close(d, id))
  {
    if id in d.queue {
      var e := Close(d, id);
      CloseKeepsOrder(d, id);
      QueuedWasAdded(d, id);
      InOnePlace(d, id);
      CloseKeepsShape(d, id);
      hide Occurrences, Shaped, InOrder, Shown, IndexOf;
      forall x: nat ensures Places(e, x) == Occurrences(e.added, x) {
        assert Places(d, x) == Occurrences(d.added, x);
        hide Places;
        CloseKeepsPlaces(d, id, x);
      }
    }
  }

  /** Only visible windows look highlighted. */
  predicate ProperLooks(looks: seq<Look>) {
    forall i :: 0 <= i < |looks| && looks[i].highlighted ==> looks[i].visible
  }

  lemma CollapseShapes(s: seq<Slot>)
    requires Proper(s)
    ensures |Collapse(s)| <= |s| && LastHasWindow(Collapse(s)) && Proper(Collapse(s))
  {
    CollapseShrinks(s, 0);
    CollapseSettles(s, 0);
    hide CollapseFrom;
    forall i | 0 <= i < |Collapse(s)| && IsHighlighted(Collapse(s)[i]) ensures Collapse(s)[i].visible {
      assert Settled(CollapseFrom(s, 0), i);
    }
  }

  /** A window is either kept on display or reported as closed. */
  lemma CollapseCounts(s: seq<Slot>, id: nat)
    requires Proper(s)
    ensures Occurrences(Ids(Filter(s, HasWindow())), id)
         == Occurrences(Ids(Filter(Collapse(s), HasWindow())), id) + Occurrences(Purged(s), id)
  {
    assert s[0..] == s;
    CollapseKeepsLiving(s, 0);
    WindowsAreLiving(s);
    WindowsSplit(s, id);
    hide CollapseFrom, Filter, Ids, Occurrences;
  }

  lemma PurgeKeeps(d: Display)
    requires Shaped(d) && Balanced(d) && InOrder(d)
    ensures Shaped(Purge(d)) && Balanced(Purge(d)) && InOrder(Purge(d))
  {
    var e := Purge(d);
    CollapseShapes(d.instances);
    hide Collapse, Filter, Ids, Occurrences, Proper, LastHasWindow, Purged;
    forall x: nat ensures Places(e, x) == Occurrences(e.added, x) {
      assert Places(d, x) == Occurrences(d.added, x);
      CollapseCounts(d.instances, x);
      OccurrencesConcat(d.closed, Purged(d.instances), x);
    }
  }

  lemma RelayoutKeeps(d: Display)
    requires Shaped(d) && Balanced(d) && InOrder(d)
    ensures Shaped(Relayout(d)) && Balanced(Relayout(d)) && InOrder(Relayout(d))
  {
    LayoutKeepsWindows(d.instances, 0, d.margin);
    hide Layout;
    SameWindows(d.instances, Relayout(d).instances);
    forall x: nat ensures Places(Relayout(d), x) == Occurrences(d.added, x) {
      assert Places(d, x) == Occurrences(d.added, x);
    }
  }

  lemma AnimateKeeps(d: Display, looks: seq<Look>, heights: map<nat, nat>)
    requires Valid(d) && |looks| == |d.instances| && ProperLooks(looks)
    ensures Valid(AnimateAll(d, looks, heights))
  {
    var refreshed := d.(instances := RefreshAll(d.instances, looks));
    SameWindows(d.instances, refreshed.instances);
    assert Balanced(refreshed) by {
      forall x: nat ensures Places(refreshed, x) == Occurrences(d.added, x) {
        assert Places(d, x) == Occurrences(d.added, x);
      }
    }
    assert Shaped(refreshed);
    hide Shaped, Balanced, InOrder, Collapse, Layout;
    PurgeKeeps(refreshed);
    RelayoutKeeps(Purge(refreshed));
    CheckQueueKeeps(Relayout(Purge(refreshed)), heights);
  }

  // ----- whole runs -----

  datatype Event =
    | Added(id: nat, heights: map<nat, nat>)
    | Closing(id: nat)
    | Animated(looks: seq<Look>, heights: map<nat, nat>)

  /** A notification is added once; windows look proper. */
  predicate Enabled(d: Display, e: Event) {
    match e
    case Added(id, _) => id !in d.added
    case Closing(_) => true
    case Animated(looks, _) => |looks| == |d.instances| && ProperLooks(looks)
  }

  function Step(d: Display, e: Event): Display
    requires Enabled(d, e)
  {
    match e
    case Added(id, heights) => Add(d, id, heights)
    case Closing(id) => Close(d, id)
    case Animated(looks, heights) => AnimateAll(d, looks, heights)
  }

  predicate Possible(d: Display, run: seq<Event>)
    decreases |run|
  {
    run == [] || (Enabled(d, run[0]) && Possible(Step(d, run[0]), run[1..]))
  }

  function After(d: Display, run: seq<Event>): Display
    requires Possible(d, run)
    decreases |run|
  {
    if run == [] then d else After(Step(d, run[0]), run[1..])
  }

  lemma {:induction false} RunKeeps(d: Display, run: seq<Event>)
    requires Valid(d) && Possible(d, run)
    ensures Valid(After(d, run))
    decreases |run|
  {
    if run != [] {
      hide Valid;
      match run[0] {
        case Added(id, heights) => AddKeeps(d, id, heights);
        case Closing(id) => CloseKeeps(d, id);
        case Animated(looks, heights) => AnimateKeeps(d, looks, heights);
      }
      RunKeeps(Step(d, run[0]), run[1..]);
    }
  }

  /** The life of a notification, over every run: the display is never over its capacity and is full
      while somebody waits; notifications leave the queue in the order they were added, withdrawn ones
      aside; and each is in exactly one place: waiting, shown, closed (reported once), or dropped
      because its window could not be created. */
  lemma LifeOfNotifications(capacity: nat, margin: nat, run: seq<Event>, id: nat)
    requires Possible(Empty(capacity, margin), run)
    ensures var d := After(Empty(capacity, margin), run);
            && |d.instances| <= d.capacity && (d.queue != [] ==> |d.instances| == d.capacity)
            && d.popped + d.queue == Filter(d.added, IsNot(d.withdrawn))
            && Occurrences(Shown(d), id) + Occurrences(d.queue, id) + Occurrences(d.closed, id)
               + Occurrences(d.dropped, id)
               == if id in d.added then 1 else 0
  {
    var empty := Empty(capacity, margin);
    assert Valid(empty);
    RunKeeps(empty, run);
    var d := After(empty, run);
    hide After, Possible;
    assert Places(d, id) == Occurrences(d.added, id);
    OccurrencesMember(d.added, id);
    OccurrencesDistinct(d.added, id);
  }

  // ----- positions over runs -----

  lemma {:induction false} StackedAppend(s: seq<Slot>, position: int, margin: nat, last: Slot)
    requires Stacked(s, position, margin) && LastHasWindow(s) && last.open
    requires last.target >= if s == [] then position else PositionOnTop(s, margin)
    ensures Stacked(s + [last], position, margin)
  {
    if s != [] {
      assert (s + [last])[1..] == s[1..] + [last];
      var next := if s[0].open then s[0].target + s[0].height + margin else position;
      if |s| > 1 {
        assert s[1..][|s[1..]| - 1] == s[|s| - 1];
      }
      StackedAppend(s[1..], next, margin, last);
    }
  }

  lemma {:induction false} CheckQueueStacks(d: Display, heights: map<nat, nat>)
    requires Stacked(d.instances, 0, d.margin) && LastHasWindow(d.instances)
    ensures Stacked(CheckQueue(d, heights).instances, 0, d.margin)
    decreases |d.queue|
  {
    if |d.instances| < d.capacity && d.queue != [] {
      var e := CreateToast(d, d.queue[0], heights);
      if d.queue[0] in heights {
        StackedAppend(d.instances, 0, d.margin, e.instances[|d.instances|]);
      }
      CheckQueueStacks(PopFront(e), heights);
    }
  }

  /** As long as no toast changes its height, the toasts on display never overlap. */
  lemma AnimateStacks(d: Display, looks: seq<Look>, heights: map<nat, nat>)
    requires Valid(d) && |looks| == |d.instances| && ProperLooks(looks) && Stacked(d.instances, 0, d.margin)
    requires forall i :: 0 <= i < |looks| ==> looks[i].height == d.instances[i].height
    ensures Stacked(AnimateAll(d, looks, heights).instances, 0, d.margin)
  {
    var refreshed := RefreshAll(d.instances, looks);
    var purged := Purge(d.(instances := refreshed));
    assert forall i :: 0 <= i < |refreshed| ==> refreshed[i].open == d.instances[i].open;
    hide Stacked, CollapseFrom, Layout, RefreshAll, Valid, CheckQueue;
    RefreshStacks(d.instances, looks, 0, d.margin);
    PurgeThenLayout(refreshed, d.margin);
    LayoutKeepsWindows(purged.instances, 0, d.margin);
    assert refreshed[0..] == refreshed;
    CollapseSettles(refreshed, 0);
    CheckQueueStacks(Relayout(purged), heights);
  }

  lemma {:induction false} RefreshStacks(s: seq<Slot>, looks: seq<Look>, position: int, margin: nat)
    requires |looks| == |s| && Stacked(s, position, margin)
    requires forall i :: 0 <= i < |looks| ==> looks[i].height == s[i].height
    ensures Stacked(RefreshAll(s, looks), position, margin)
  {
    if s != [] {
      RefreshStacks(s[1..], looks[1..], if s[0].open then s[0].target + s[0].height + margin else position, margin);
      assert RefreshAll(s, looks)[1..] == RefreshAll(s[1..], looks[1..]);
    }
  }

  /** In every animation step of the run each toast has the height it had before. */
  predicate KeepsHeights(d: Display, run: seq<Event>)
    requires Possible(d, run)
    decreases |run|
  {
    run == [] ||
    (&& (run[0].Animated? ==> forall i :: 0 <= i < |d.instances| ==> run[0].looks[i].height == d.instances[i].height)
     && KeepsHeights(Step(d, run[0]), run[1..]))
  }

  lemma StepStacks(d: Display, e: Event)
    requires Valid(d) && Enabled(d, e) && Stacked(d.instances, 0, d.margin)
    requires e.Animated? ==> forall i :: 0 <= i < |d.instances| ==> e.looks[i].height == d.instances[i].height
    ensures Stacked(Step(d, e).instances, 0, Step(d, e).margin)
  {
    MarginStays(d, e);
    hide Stacked, CheckQueue, Purge, Relayout, RefreshAll;
    match e
    case Added(id, heights) => CheckQueueStacks(d.(queue := d.queue + [id], added := d.added + [id]), heights);
    case Closing(_) =>
    case Animated(looks, heights) => AnimateStacks(d, looks, heights);
  }

  lemma {:induction false} CheckQueueKeepsMargin(d: Display, heights: map<nat, nat>)
    ensures CheckQueue(d, heights).margin == d.margin
    decreases |d.queue|
  {
    if |d.instances| < d.capacity && d.queue != [] {
      CheckQueueKeepsMargin(PopFront(CreateToast(d, d.queue[0], heights)), heights);
    }
  }

  lemma MarginStays(d: Display, e: Event)
    requires Enabled(d, e)
    ensures Step(d, e).margin == d.margin
  {
    match e
    case Added(id, heights) => CheckQueueKeepsMargin(d.(queue := d.queue + [id], added := d.added + [id]), heights);
    case Closing(_) =>
    case Animated(looks, heights) =>
      CheckQueueKeepsMargin(Relayout(Purge(d.(instances := RefreshAll(d.instances, looks)))), heights);
  }

  /** Over every run in which no toast changes its height, the toasts on display never overlap. */
  lemma {:induction false} RunStacks(d: Display, run: seq<Event>)
    requires Valid(d) && Stacked(d.instances, 0, d.margin) && Possible(d, run) && KeepsHeights(d, run)
    ensures Stacked(After(d, run).instances, 0, After(d, run).margin)
    decreases |run|
  {
    if run != [] {
      hide Valid, Stacked, Step, Enabled;
      StepStacks(d, run[0]);
      RunKeeps(d, [run[0]]);
      assert [run[0]][1..] == [] && After(d, [run[0]]) == Step(d, run[0]);
      RunStacks(Step(d, run[0]), run[1..]);
    }
  }

  lemma NeverOverlap(capacity: nat, margin: nat, run: seq<Event>)
    requires Possible(Empty(capacity, margin), run) && KeepsHeights(Empty(capacity, margin), run)
    ensures var d := After(Empty(capacity, margin), run); Stacked(d.instances, 0, d.margin)
  {
    assert Valid(Empty(capacity, margin));
    RunStacks(Empty(capacity, margin), run);
  }

  // ----- no gaps over runs -----

  /** The upper edge of what is below slot `i`, and the margin; `position` if there is nothing. */
  function EdgeBelow(s: seq<Slot>, i: nat, position: int, margin: nat): int
    requires i <= |s|
  {
    if i == 0 then position
    else if s[i - 1].open then s[i - 1].target + s[i - 1].height + margin
    else EdgeBelow(s, i - 1, position, margin)
  }

  /** Every toast that is not highlighted sits directly on what is below it. */
  predicate Packed(s: seq<Slot>, position: int, margin: nat) {
    forall i :: 0 <= i < |s| && s[i].open && !s[i].highlighted ==> s[i].target == EdgeBelow(s, i, position, margin)
  }

  /** What is below the rest of a stack is the first slot, unless it has no window. */
  lemma {:induction false} EdgeOfRest(s: seq<Slot>, i: nat, position: int, margin: nat)
    requires s != [] && i <= |s| - 1
    ensures EdgeBelow(s, i + 1, position, margin)
         == EdgeBelow(s[1..], i, if s[0].open then s[0].target + s[0].height + margin else position, margin)
  {
    if i > 0 {
      EdgeOfRest(s, i - 1, position, margin);
    }
  }

  lemma {:induction false} LayoutPacks(s: seq<Slot>, position: int, margin: nat)
    ensures Packed(Layout(s, position, margin), position, margin)
    decreases |s|
  {
    if s != [] {
      var r := Layout(s, position, margin);
      var next := if r[0].open then r[0].target + r[0].height + margin else position;
      LayoutPacks(s[1..], next, margin);
      assert r[1..] == Layout(s[1..], next, margin);
      forall i | 0 <= i < |r| && r[i].open && !r[i].highlighted
        ensures r[i].target == EdgeBelow(r, i, position, margin)
      {
        if i > 0 {
          EdgeOfRest(r, i - 1, position, margin);
          assert r[i] == r[1..][i - 1];
        }
      }
    }
  }

  lemma {:induction false} SameEdge(a: seq<Slot>, b: seq<Slot>, i: nat, position: int, margin: nat)
    requires i <= |a| && i <= |b| && a[..i] == b[..i]
    ensures EdgeBelow(a, i, position, margin) == EdgeBelow(b, i, position, margin)
  {
    if i > 0 {
      assert a[i - 1] == a[..i][i - 1] && b[i - 1] == b[..i][i - 1];
      assert a[..i - 1] == a[..i][..i - 1] && b[..i - 1] == b[..i][..i - 1];
      SameEdge(a, b, i - 1, position, margin);
    }
  }

  lemma PackedAppend(s: seq<Slot>, margin: nat, last: Slot)
    requires Packed(s, 0, margin) && LastHasWindow(s) && last.target == PositionOnTop(s, margin)
    ensures Packed(s + [last], 0, margin)
  {
    var t := s + [last];
    forall i | 0 <= i < |t| && t[i].open && !t[i].highlighted ensures t[i].target == EdgeBelow(t, i, 0, margin) {
      SameEdge(s, t, i, 0, margin);
    }
  }

  lemma {:induction false} CheckQueuePacks(d: Display, heights: map<nat, nat>)
    requires Packed(d.instances, 0, d.margin) && LastHasWindow(d.instances)
    ensures Packed(CheckQueue(d, heights).instances, 0, d.margin)
    decreases |d.queue|
  {
    if |d.instances| < d.capacity && d.queue != [] {
      var e := CreateToast(d, d.queue[0], heights);
      hide Packed;
      if d.queue[0] in heights {
        PackedAppend(d.instances, d.margin, e.instances[|d.instances|]);
      }
      CheckQueuePacks(PopFront(e), heights);
    }
  }

  lemma StepPacks(d: Display, e: Event)
    requires Valid(d) && Enabled(d, e) && Packed(d.instances, 0, d.margin)
    ensures Packed(Step(d, e).instances, 0, Step(d, e).margin)
  {
    MarginStays(d, e);
    hide Packed, CheckQueue;
    match e
    case Added(id, heights) => CheckQueuePacks(d.(queue := d.queue + [id], added := d.added + [id]), heights);
    case Closing(_) =>
    case Animated(looks, heights) =>
      var purged := Purge(d.(instances := RefreshAll(d.instances, looks)));
      LayoutPacks(purged.instances, 0, d.margin);
      PurgedHasLast(d, looks);
      LayoutKeepsWindows(purged.instances, 0, d.margin);
      hide Layout, Purge, RefreshAll;
      CheckQueuePacks(Relayout(purged), heights);
  }

  lemma PurgedHasLast(d: Display, looks: seq<Look>)
    requires Valid(d) && |looks| == |d.instances| && ProperLooks(looks)
    ensures LastHasWindow(Purge(d.(instances := RefreshAll(d.instances, looks))).instances)
  {
    hide Collapse;
    CollapseShapes(RefreshAll(d.instances, looks));
  }

  lemma {:induction false} RunPacks(d: Display, run: seq<Event>)
    requires Valid(d) && Packed(d.instances, 0, d.margin) && Possible(d, run)
    ensures Packed(After(d, run).instances, 0, After(d, run).margin)
    decreases |run|
  {
    if run != [] {
      hide Valid, Packed, Step, Enabled;
      StepPacks(d, run[0]);
      RunKeeps(d, [run[0]]);
      assert [run[0]][1..] == [] && After(d, [run[0]]) == Step(d, run[0]);
      RunPacks(Step(d, run[0]), run[1..]);
    }
  }

  /** Over every run, whatever heights and looks do, no gap is left below a toast that is not highlighted. */
  lemma AlwaysPacked(capacity: nat, margin: nat, run: seq<Event>)
    requires Possible(Empty(capacity, margin), run)
    ensures var d := After(Empty(capacity, margin), run); Packed(d.instances, 0, d.margin)
  {
    assert Valid(Empty(capacity, margin));
    RunPacks(Empty(capacity, margin), run);
  }

  // ----- a toast that grows -----

  const SIZES: map<nat, nat> := map[1 := 10, 2 := 10]
  const LOWER := Slot(1, true, false, false, 10, 0)
  const UPPER := Slot(2, true, false, false, 10, 15)

  const NONE_SHOWN := Empty(2, 5)
  const ONE_SHOWN := Display(2, 5, [LOWER], [], [], [], [1], [1], [])
  const TWO_SHOWN := Display(2, 5, [LOWER, UPPER], [], [], [], [1, 2], [1, 2], [])

  /** The lower toast grows while the upper one is highlighted. */
  const GROWING := Animated([Look(true, false, 50), Look(true, true, 10)], SIZES)

  lemma ToastsShown()
    ensures Enabled(NONE_SHOWN, Added(1, SIZES)) && Step(NONE_SHOWN, Added(1, SIZES)) == ONE_SHOWN
    ensures Enabled(ONE_SHOWN, Added(2, SIZES)) && Step(ONE_SHOWN, Added(2, SIZES)) == TWO_SHOWN
  {
    AddToRoom(NONE_SHOWN, 1, LOWER, ONE_SHOWN);
    AddToRoom(ONE_SHOWN, 2, UPPER, TWO_SHOWN);
  }

  /** A notification that finds an empty queue and room on the display is shown at once. */
  lemma AddToRoom(d: Display, id: nat, slot: Slot, r: Display)
    requires d.queue == [] && |d.instances| < d.capacity && id in SIZES
    requires slot == Slot(id, true, false, false, SIZES[id], PositionOnTop(d.instances, d.margin))
    requires r == d.(instances := d.instances + [slot], added := d.added + [id], popped := d.popped + [id])
    ensures Add(d, id, SIZES) == r
  {
    var queued := d.(queue := d.queue + [id], added := d.added + [id]);
    assert queued.queue == [id] && queued.queue[1..] == [];
    assert PopFront(CreateToast(queued, id, SIZES)) == r;
    assert CheckQueue(r, SIZES) == r;
  }

  lemma GrownStack()
    ensures var grown := [Slot(1, true, true, false, 50, 0), Slot(2, true, true, true, 10, 15)];
            Layout(Collapse(grown), 0, 5) == grown && !Stacked(grown, 0, 5)
  {
    var low, high := Slot(1, true, true, false, 50, 0), Slot(2, true, true, true, 10, 15);
    var grown := [low, high];
    assert NextHighlighted(grown, 1) == 1 && NextHighlighted(grown, 0) == 1;
    assert grown[0..1] == [low] && grown[1] == high && grown[2..] == [];
    FilterOne(low, IsAlive());
    FilterOne(low, IsDead());
    assert CloseAll([]) == [];
    assert Compact([low]) == [low];
    assert Filter(grown[2..], IsAlive()) == [];
    assert CollapseFrom(grown, 2) == [];
    assert Collapse(grown) == [low] + [high] + [] == grown;
    assert grown[1..] == [high] && [high][1..] == [];
    assert Layout([high], 55, 5) == [high] + Layout([], 30, 5) == [high];
    assert Layout(grown, 0, 5) == [low] + [high];
    assert !Stacked([high], 55, 5);
  }

  lemma GrownToast()
    ensures Enabled(TWO_SHOWN, GROWING)
    ensures var d := Step(TWO_SHOWN, GROWING); d.margin == 5 && !Stacked(d.instances, 0, 5)
  {
    GrownStack();
    hide CollapseFrom, Layout, Stacked;
    MarginStays(TWO_SHOWN, GROWING);
    var grown := [Slot(1, true, true, false, 50, 0), Slot(2, true, true, true, 10, 15)];
    assert RefreshAll(TWO_SHOWN.instances, GROWING.looks) == grown;
    hide Collapse, Layout, Stacked;
    var relaid := Relayout(Purge(TWO_SHOWN.(instances := grown)));
    assert relaid.instances == grown && relaid.queue == [];
    assert CheckQueue(relaid, SIZES) == relaid;
  }

  lemma FirstEvent(d: Display, e: Event, run: seq<Event>)
    requires Enabled(d, e) && Possible(Step(d, e), run)
    ensures Possible(d, [e] + run) && After(d, [e] + run) == After(Step(d, e), run)
  {
    hide Enabled, Step;
    assert ([e] + run)[0] == e && ([e] + run)[1..] == run;
  }

  /** Without the heights staying the same a possible run ends with overlapping toasts. */
  lemma GrowthOverlaps() returns (run: seq<Event>)
    ensures Possible(NONE_SHOWN, run)
    ensures var d := After(NONE_SHOWN, run); !Stacked(d.instances, 0, d.margin)
  {
    ToastsShown();
    GrownToast();
    var end := Step(TWO_SHOWN, GROWING);
    assert Possible(end, []) && After(end, []) == end;
    hide *;
    FirstEvent(TWO_SHOWN, GROWING, []);
    FirstEvent(ONE_SHOWN, Added(2, SIZES), [GROWING] + []);
    run := [Added(1, SIZES)] + ([Added(2, SIZES)] + ([GROWING] + []));
    FirstEvent(NONE_SHOWN, Added(1, SIZES), [Added(2, SIZES)] + ([GROWING] + []));
  }
}
