/**
  The bandwidth sharing discipline of the throttling emulator.

  `Serve` is the naive form: at every tick the record at the head of the queue is
  charged one packet and moved to the tail.  The emulator never runs it; it uses the
  quotient and remainder form (`ClosedForm`) and a closed prediction of the next
  completion (module TickPrediction).  Both are proved against `Serve` here.
 */
module RoundRobin {
  const PACKET_SIZE: int := 1500

  /** One throttled operation.  `callback` is the identity of the callback to run. */
  datatype Record = Record(result: int, bytes: int, sendEnd: int, isUpload: bool, callback: nat)

  function Charge(r: Record, packets: int): (c: Record)
  {
    r.(bytes := r.bytes - packets * PACKET_SIZE)
  }

  function ChargeAll(q: seq<Record>, packets: int): (r: seq<Record>)
    ensures |r| == |q| && forall i :: 0 <= i < |q| ==> r[i] == Charge(q[i], packets)
  {
    seq(|q|, i requires 0 <= i < |q| => Charge(q[i], packets))
  }

  /** One tick of the naive round robin. */
  function ServeHead(q: seq<Record>): (r: seq<Record>)
    ensures |r| == |q|
  {
    if q == [] then [] else q[1..] + [Charge(q[0], 1)]
  }

  /** `ticks` ticks of the naive round robin. */
  function Serve(q: seq<Record>, ticks: nat): (r: seq<Record>)
    ensures |r| == |q|
    decreases ticks
  {
    if ticks == 0 then q else Serve(ServeHead(q), ticks - 1)
  }

  /** The form the emulator computes: a quotient for everybody, one more packet for
      the first `ticks % |q|` records, and one rotation. */
  function ClosedForm(q: seq<Record>, ticks: nat): seq<Record>
    requires q != []
  {
    var charged := ChargeAll(q, ticks / |q|);
    var shift := ticks % |q|;
    charged[shift..] + ChargeAll(charged[..shift], 1)
  }

  /** Stopping at any tick and resuming later is the same as one longer stretch. */
  lemma {:induction false} ServeSplit(q: seq<Record>, a: nat, b: nat)
    ensures Serve(q, a + b) == Serve(Serve(q, a), b)
    decreases a
  {
    if a != 0 {
      ServeSplit(ServeHead(q), a - 1, b);
    }
  }

  lemma {:induction false} ServeEmpty(ticks: nat)
    ensures Serve([], ticks) == []
  {
    if ticks != 0 {
      ServeEmpty(ticks - 1);
    }
  }

  /** Less than one full round: the first `ticks` records pay a packet and go to the tail. */
  lemma {:induction false} ServePartialRound(q: seq<Record>, ticks: nat)
    requires ticks <= |q|
    ensures Serve(q, ticks) == q[ticks..] + ChargeAll(q[..ticks], 1)
    decreases ticks
  {
    if ticks == 0 {
      assert q[0..] + ChargeAll(q[..0], 1) == q;
    } else {
      ServePartialRound(q, ticks - 1);
      ServeSplit(q, ticks - 1, 1);
      var before := q[ticks - 1..] + ChargeAll(q[..ticks - 1], 1);
      assert Serve(before, 1) == ServeHead(before);
      assert ServeHead(before) == q[ticks..] + ChargeAll(q[..ticks], 1);
    }
  }

  /** Any number of full rounds charges everybody equally and leaves the order alone. */
  lemma {:induction false} ServeRounds(q: seq<Record>, rounds: nat)
    ensures Serve(q, rounds * |q|) == ChargeAll(q, rounds)
    decreases rounds
  {
    if rounds == 0 {
      assert ChargeAll(q, 0) == q;
    } else {
      ServeRounds(q, rounds - 1);
      assert rounds * |q| == (rounds - 1) * |q| + |q|;
      ServeSplit(q, (rounds - 1) * |q|, |q|);
      var before := ChargeAll(q, rounds - 1);
      ServePartialRound(before, |q|);
      assert before[|q|..] + ChargeAll(before[..|q|], 1) == ChargeAll(q, rounds);
    }
  }

  /** The quotient and remainder form is the naive round robin, for every queue and tick count. */
  lemma {:induction false} ClosedFormIsServe(q: seq<Record>, ticks: nat)
    requires q != []
    ensures ClosedForm(q, ticks) == Serve(q, ticks)
  {
    var rounds, shift := ticks / |q|, ticks % |q|;
    assert ticks == rounds * |q| + shift;
    ServeSplit(q, rounds * |q|, shift);
    ServeRounds(q, rounds);
    ServePartialRound(ChargeAll(q, rounds), shift);
  }

  /** How many packets the record that starts at place `i` of a queue of `count` receives. */
  function Packets(i: nat, count: nat, ticks: nat): (p: nat)
    requires i < count
  {
    ticks / count + if i < ticks % count then 1 else 0
  }

  /** Where the record that starts at place `i` ends up. */
  function PlaceAfter(i: nat, count: nat, ticks: nat): (p: nat)
    requires i < count
    ensures p < count
  {
    var shift := ticks % count;
    if i < shift then count - shift + i else i - shift
  }

  /** Every record is found again, at a known place, charged for the packets it was served. */
  lemma ServeTracks(q: seq<Record>, ticks: nat, i: nat)
    requires i < |q|
    ensures Serve(q, ticks)[PlaceAfter(i, |q|, ticks)] == Charge(q[i], Packets(i, |q|, ticks))
  {
    hide Serve;
    ClosedFormIsServe(q, ticks);
    var charged := ChargeAll(q, ticks / |q|);
    var shift := ticks % |q|;
    var front, back := charged[shift..], ChargeAll(charged[..shift], 1);
    assert |front| == |q| - shift;
    if i < shift {
      assert (front + back)[|q| - shift + i] == back[i] == Charge(charged[i], 1);
    } else {
      assert (front + back)[i - shift] == front[i - shift] == charged[i];
    }
  }

  /** And nothing else is in the queue afterwards. */
  lemma ServeOnlyTracked(q: seq<Record>, ticks: nat, j: nat) returns (i: nat)
    requires j < |q|
    ensures i < |q| && PlaceAfter(i, |q|, ticks) == j
    ensures Serve(q, ticks)[j] == Charge(q[i], Packets(i, |q|, ticks))
  {
    var shift := ticks % |q|;
    i := if j < |q| - shift then j + shift else j - (|q| - shift);
    ServeTracks(q, ticks, i);
  }

  /** Fair sharing: whatever two records of a queue were charged differs by at most one packet. */
  lemma FairShare(q: seq<Record>, ticks: nat, i: nat, j: nat)
    requires i < |q| && j < |q|
    ensures var served := Serve(q, ticks);
            var chargedI := q[i].bytes - served[PlaceAfter(i, |q|, ticks)].bytes;
            var chargedJ := q[j].bytes - served[PlaceAfter(j, |q|, ticks)].bytes;
            -PACKET_SIZE <= chargedI - chargedJ <= PACKET_SIZE
  {
    ServeTracks(q, ticks, i);
    ServeTracks(q, ticks, j);
  }

  function TotalBytes(q: seq<Record>): int
  {
    if q == [] then 0 else q[0].bytes + TotalBytes(q[1..])
  }

  lemma {:induction false} TotalBytesConcat(a: seq<Record>, b: seq<Record>)
    ensures TotalBytes(a + b) == TotalBytes(a) + TotalBytes(b)
  {
    if a == [] {
      assert a + b == b;
    } else {
      assert (a + b)[1..] == a[1..] + b;
      TotalBytesConcat(a[1..], b);
    }
  }

  /** Exactly one packet leaves a non-empty queue at every tick, whoever pays it. */
  lemma {:induction false} ServeTotal(q: seq<Record>, ticks: nat)
    requires q != []
    ensures TotalBytes(Serve(q, ticks)) == TotalBytes(q) - ticks * PACKET_SIZE
    decreases ticks
  {
    if ticks != 0 {
      ServeTotal(ServeHead(q), ticks - 1);
      TotalBytesConcat(q[1..], [Charge(q[0], 1)]);
      TotalBytesConcat([q[0]], q[1..]);
      assert q == [q[0]] + q[1..];
    }
  }
}
