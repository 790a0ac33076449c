/** The closed prediction of the next completion, against the naive round robin. */
module TickPrediction {
  import opened RoundRobin

  /** What the prediction starts from when there is nothing to predict. */
  const NO_RECORD_TICKS: int := 0x10000

  /** Integer division of C++: it truncates toward zero. */
  function TruncatingDivision(a: int, b: int): (q: int)
    requires b > 0
    ensures a >= 0 ==> q * b <= a < q * b + b
    ensures a < 0 ==> q * b - b < a <= q * b
  {
    if a >= 0 then a / b else -((-a) / b)
  }

  function PacketsLeft(bytes: int): int {
    TruncatingDivision(bytes + PACKET_SIZE - 1, PACKET_SIZE)
  }

  /** The tick at which record `i` is predicted to have paid its last packet. */
  function TicksLeft(q: seq<Record>, i: nat): int
    requires i < |q|
  {
    i + 1 + |q| * (PacketsLeft(q[i].bytes) - 1)
  }

  /** `m` is the smallest prediction of the first `n` records. */
  predicate IsMinTicksLeft(q: seq<Record>, n: nat, m: int)
    requires n <= |q|
  {
    if n == 0 then m == NO_RECORD_TICKS
    else
      && (forall i :: 0 <= i < n ==> m <= TicksLeft(q, i))
      && (exists i :: 0 <= i < n && m == TicksLeft(q, i))
  }

  function MinTicksLeft(q: seq<Record>): (m: int)
    ensures IsMinTicksLeft(q, |q|, m)
  {
    MinTicksLeftOfFirst(q, |q|)
  }

  function MinTicksLeftOfFirst(q: seq<Record>, n: nat): (m: int)
    requires n <= |q|
    ensures IsMinTicksLeft(q, n, m)
  {
    if n == 0 then NO_RECORD_TICKS
    else
      var m := MinTicksLeftOfFirst(q, n - 1);
      assert n > 1 ==> exists i :: 0 <= i < n && m == TicksLeft(q, i);
      if n == 1 || TicksLeft(q, n - 1) < m then TicksLeft(q, n - 1) else m
  }

  predicate AllPositive(q: seq<Record>) {
    forall i :: 0 <= i < |q| ==> q[i].bytes > 0
  }

  lemma MultiplyMonotone(a: int, b: int, count: nat)
    requires a <= b
    ensures a * count <= b * count
  {
  }

  lemma DivisionMonotone(a: nat, b: nat, divisor: nat)
    requires a <= b && divisor > 0
    ensures a / divisor <= b / divisor
  {
    var qa, qb := a / divisor, b / divisor;
    assert a == qa * divisor + a % divisor;
    assert b == qb * divisor + b % divisor;
    assert (qb + 1) * divisor == qb * divisor + divisor;
    if qb + 1 <= qa {
      MultiplyMonotone(qb + 1, qa, divisor);
    }
  }

  /** The record that starts at place `i` has received `p` packets exactly from this tick on. */
  lemma PacketsReach(i: nat, count: nat, ticks: nat, p: nat)
    requires i < count && p >= 1
    ensures Packets(i, count, ticks) >= p <==> ticks >= i + 1 + count * (p - 1)
  {
    var rounds, shift := ticks / count, ticks % count;
    var full, needed := rounds * count, (p - 1) * count;
    assert ticks == full + shift && needed == count * (p - 1);
    if rounds > p - 1 {
      MultiplyMonotone(p, rounds, count);
      assert p * count == needed + count;
    } else if rounds < p - 1 {
      MultiplyMonotone(rounds + 1, p - 1, count);
      assert (rounds + 1) * count == full + count;
    } else {
      assert full == needed;
    }
  }

  lemma PacketsLeftCovers(bytes: int, p: nat)
    requires bytes > 0
    ensures PacketsLeft(bytes) >= 1
    ensures p >= PacketsLeft(bytes) <==> bytes - p * PACKET_SIZE <= 0
  {
  }

  /** Record `i` has nothing left to pay exactly from tick `TicksLeft(q, i)` on. */
  lemma TicksLeftExact(q: seq<Record>, i: nat, ticks: nat)
    requires i < |q| && q[i].bytes > 0
    ensures Charge(q[i], Packets(i, |q|, ticks)).bytes <= 0 <==> ticks >= TicksLeft(q, i)
    ensures TicksLeft(q, i) >= 1
  {
    var p := PacketsLeft(q[i].bytes);
    PacketsLeftCovers(q[i].bytes, Packets(i, |q|, ticks));
    PacketsReach(i, |q|, ticks, p);
    assert |q| * (p - 1) >= 0;
  }

  /** Before the predicted tick every record still has something to pay. */
  lemma NothingBeforePrediction(q: seq<Record>, ticks: nat)
    requires AllPositive(q)
    requires q == [] || ticks < MinTicksLeft(q)
    ensures AllPositive(Serve(q, ticks))
  {
    var served := Serve(q, ticks);
    forall j | 0 <= j < |served| ensures served[j].bytes > 0 {
      var i := ServeOnlyTracked(q, ticks, j);
      TicksLeftExact(q, i, ticks);
    }
  }

  /** The prediction is exactly the first tick of the naive round robin at which some
      record has nothing left to pay. */
  lemma PredictionIsFirstCompletion(q: seq<Record>)
    requires q != [] && AllPositive(q)
    ensures MinTicksLeft(q) >= 1
    ensures forall ticks: nat :: AllPositive(Serve(q, ticks)) <==> ticks < MinTicksLeft(q)
  {
    var m := MinTicksLeft(q);
    var first :| 0 <= first < |q| && m == TicksLeft(q, first);
    TicksLeftExact(q, first, 0);
    forall ticks: nat
      ensures AllPositive(Serve(q, ticks)) <==> ticks < m
    {
      if ticks < m {
        NothingBeforePrediction(q, ticks);
      } else {
        TicksLeftExact(q, first, ticks);
        ServeTracks(q, ticks, first);
        assert Serve(q, ticks)[PlaceAfter(first, |q|, ticks)].bytes <= 0;
      }
    }
  }

  /** Collection wants a negative balance, and that is there one full round after the
      predicted tick at the latest, and at every tick from then on. */
  lemma CollectionWithinOneRound(q: seq<Record>, ticks: nat)
    requires q != [] && AllPositive(q)
    requires ticks >= MinTicksLeft(q) + |q|
    ensures exists j :: 0 <= j < |q| && Serve(q, ticks)[j].bytes < 0
  {
    var first :| 0 <= first < |q| && MinTicksLeft(q) == TicksLeft(q, first);
    var p := PacketsLeft(q[first].bytes);
    PacketsLeftCovers(q[first].bytes, p);
    assert first + 1 + |q| * (p - 1) + |q| == first + 1 + |q| * p;
    PacketsReach(first, |q|, ticks, p + 1);
    ServeTracks(q, ticks, first);
    assert Serve(q, ticks)[PlaceAfter(first, |q|, ticks)].bytes < 0;
  }

  // ----- collection -----

  /** The tick from which on record `i` has paid more than it owed: at once if it starts with credit,
      otherwise one packet after its whole packets. */
  function OverdrawnTicks(q: seq<Record>, i: nat): nat
    requires i < |q|
  {
    if q[i].bytes < 0 then 0 else i + 1 + |q| * (q[i].bytes / PACKET_SIZE)
  }

  lemma OverdrawnExact(q: seq<Record>, i: nat, ticks: nat)
    requires i < |q|
    ensures Charge(q[i], Packets(i, |q|, ticks)).bytes < 0 <==> ticks >= OverdrawnTicks(q, i)
  {
    if q[i].bytes >= 0 {
      PacketsReach(i, |q|, ticks, q[i].bytes / PACKET_SIZE + 1);
    }
  }

  /** `m` is the smallest such tick of the first `n` records. */
  predicate IsFirstOverdrawn(q: seq<Record>, n: nat, m: nat)
    requires 0 < n <= |q|
  {
    && (forall i :: 0 <= i < n ==> m <= OverdrawnTicks(q, i))
    && (exists i :: 0 <= i < n && m == OverdrawnTicks(q, i))
  }

  function FirstOverdrawnOf(q: seq<Record>, n: nat): (m: nat)
    requires 0 < n <= |q|
    ensures IsFirstOverdrawn(q, n, m)
  {
    if n == 1 then OverdrawnTicks(q, 0)
    else
      var m := FirstOverdrawnOf(q, n - 1);
      assert exists i :: 0 <= i < n && m == OverdrawnTicks(q, i);
      if OverdrawnTicks(q, n - 1) < m then OverdrawnTicks(q, n - 1) else m
  }

  function FirstOverdrawn(q: seq<Record>): (m: nat)
    requires q != []
    ensures IsFirstOverdrawn(q, |q|, m)
  {
    FirstOverdrawnOf(q, |q|)
  }

  /** What collection looks for. */
  predicate HasOverdrawn(q: seq<Record>) {
    exists r :: r in q && r.bytes < 0
  }

  /** For all balances: collection finds something in the naive round robin exactly from that tick on. */
  lemma CollectableExactly(q: seq<Record>, ticks: nat)
    requires q != []
    ensures HasOverdrawn(Serve(q, ticks)) <==> ticks >= FirstOverdrawn(q)
  {
    var served, m := Serve(q, ticks), FirstOverdrawn(q);
    if HasOverdrawn(served) {
      var j :| 0 <= j < |served| && served[j].bytes < 0;
      var i := ServeOnlyTracked(q, ticks, j);
      OverdrawnExact(q, i, ticks);
    }
    if ticks >= m {
      var i :| 0 <= i < |q| && m == OverdrawnTicks(q, i);
      OverdrawnExact(q, i, ticks);
      ServeTracks(q, ticks, i);
      assert served[PlaceAfter(i, |q|, ticks)] in served;
    }
  }

  /** A record without bytes left is predicted to be through already. */
  lemma PaidUpIsPast(q: seq<Record>, i: nat)
    requires i < |q| && q[i].bytes <= 0
    ensures TicksLeft(q, i) <= 0
  {
    var p := PacketsLeft(q[i].bytes);
    assert p <= 0;
    MultiplyMonotone(p - 1, -1, |q|);
  }

  lemma PredictedBeforeOverdrawn(q: seq<Record>, i: nat)
    requires i < |q|
    ensures TicksLeft(q, i) <= OverdrawnTicks(q, i)
  {
    var bytes := q[i].bytes;
    if bytes <= 0 {
      PaidUpIsPast(q, i);
    } else {
      MultiplyMonotone(PacketsLeft(bytes) - 1, bytes / PACKET_SIZE, |q|);
    }
  }

  /** The prediction never comes after the collection it is made for. */
  lemma PredictedBeforeCollection(q: seq<Record>)
    requires q != []
    ensures MinTicksLeft(q) <= FirstOverdrawn(q)
  {
    hide TicksLeft, OverdrawnTicks, MinTicksLeft, FirstOverdrawn;
    var i :| 0 <= i < |q| && FirstOverdrawn(q) == OverdrawnTicks(q, i);
    PredictedBeforeOverdrawn(q, i);
  }

  lemma OneLeft(r: Record)
    ensures MinTicksLeft([r]) == PacketsLeft(r.bytes)
    ensures FirstOverdrawn([r]) == if r.bytes < 0 then 0 else 1 + r.bytes / PACKET_SIZE
    ensures MinTicksLeft([]) == NO_RECORD_TICKS
  {
    assert TicksLeft([r], 0) == PacketsLeft(r.bytes);
  }
}
