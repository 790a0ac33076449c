/** From a throughput in bytes per second to the length of one tick in microseconds. */
module Throughput {
  import opened RoundRobin

  const MICROSECONDS_PER_SECOND: int := 1000000
  /** The fastest throughput one packet per microsecond can follow: 1.5e9 bytes per second. */
  const FASTEST: real := (MICROSECONDS_PER_SECOND * PACKET_SIZE) as real

  function TickLength(throughput: real): (length: nat)
    requires throughput >= 0.0
    ensures length == 0 <==> throughput == 0.0
  {
    if throughput == 0.0 then 0
    else
      var length := (FASTEST / throughput).Floor;
      assert FASTEST / throughput >= 0.0;
      if length == 0 then 1 else length
  }

  /** One packet for each whole tick; module Bandwidth has the queues that are charged this. */
  function BytesAfter(throughput: real, elapsed: nat): int
    requires throughput > 0.0
  {
    elapsed / TickLength(throughput) * PACKET_SIZE
  }

  lemma RealProduct(a: real, x: real, y: real)
    requires a >= 0.0 && x <= y
    ensures a * x <= a * y
  {
  }

  lemma RealProductStrict(a: real, x: real, y: real)
    requires a > 0.0 && x < y
    ensures a * x < a * y
  {
  }

  lemma Reorder(a: real, b: real, c: real)
    ensures a * (b * c) == b * (a * c) == a * b * c == b * a * c
  {
  }

  lemma QuotientAgainstOne(a: real, b: real)
    requires a > 0.0 && b > 0.0
    ensures a / b >= 1.0 <==> a >= b
  {
    assert (a / b) * b == a;
    assert a / b >= 1.0 ==> (a / b) * b >= 1.0 * b;
    assert a / b < 1.0 ==> (a / b) * b < 1.0 * b;
  }

  lemma TickLengthBrackets(throughput: real)
    requires 0.0 < throughput <= FASTEST
    ensures var length := TickLength(throughput) as real;
            length >= 1.0 && throughput * length <= FASTEST < throughput * (length + 1.0)
  {
    var quotient := FASTEST / throughput;
    QuotientAgainstOne(FASTEST, throughput);
    assert quotient * throughput == FASTEST;
    var length := quotient.Floor as real;
    RealProduct(throughput, length, quotient);
    RealProductStrict(throughput, quotient, length + 1.0);
  }

  /** `bytes` in `elapsed` microseconds are less than a packet short of the requested throughput. */
  predicate WithinOnePacket(throughput: real, elapsed: nat, bytes: int) {
    throughput * elapsed as real / MICROSECONDS_PER_SECOND as real - PACKET_SIZE as real < bytes as real
  }

  /** They exceed the requested throughput by the rounding of one tick at most. */
  predicate WithinRoundingAbove(throughput: real, elapsed: nat, bytes: int)
    requires throughput > 0.0
  {
    var length := TickLength(throughput) as real;
    bytes as real * (MICROSECONDS_PER_SECOND as real * length) <= throughput * elapsed as real * (length + 1.0)
  }

  lemma WholeTicks(throughput: real, elapsed: nat) returns (ticks: nat)
    requires throughput > 0.0
    ensures BytesAfter(throughput, elapsed) == ticks * PACKET_SIZE
    ensures var length := TickLength(throughput) as real;
            ticks as real * length <= elapsed as real < (ticks as real + 1.0) * length
  {
    hide TickLength;
    var length := TickLength(throughput);
    ticks := elapsed / length;
    assert elapsed == ticks * length + elapsed % length;
    assert (ticks * length) as real == ticks as real * length as real;
    assert ((ticks + 1) * length) as real == (ticks as real + 1.0) * length as real;
    assert (ticks + 1) * length == ticks * length + length;
  }

  lemma TicksAreFastEnough(throughput: real, elapsed: nat)
    requires 0.0 < throughput <= FASTEST
    ensures WithinOnePacket(throughput, elapsed, BytesAfter(throughput, elapsed))
  {
    hide TickLength, BytesAfter;
    var ticks := WholeTicks(throughput, elapsed);
    var length, next := TickLength(throughput) as real, ticks as real + 1.0;
    TickLengthBrackets(throughput);
    RealProductStrict(throughput, elapsed as real, next * length);
    Reorder(throughput, next, length);
    RealProduct(next, throughput * length, FASTEST);
  }

  lemma TicksAreSlowEnough(throughput: real, elapsed: nat)
    requires 0.0 < throughput
    ensures WithinRoundingAbove(throughput, elapsed, BytesAfter(throughput, elapsed))
  {
    var length := TickLength(throughput) as real;
    FastestAgainstNextLength(throughput);
    hide TickLength, BytesAfter;
    var ticks := WholeTicks(throughput, elapsed);
    var e := elapsed as real;
    RealProduct(FASTEST, ticks as real * length, e);
    RealProduct(e, FASTEST, throughput * (length + 1.0));
    Reorder(e, throughput, length + 1.0);
    Reorder(ticks as real, FASTEST, length);
    Reorder(ticks as real * PACKET_SIZE as real, MICROSECONDS_PER_SECOND as real, length);
  }

  lemma FastestAgainstNextLength(throughput: real)
    requires 0.0 < throughput
    ensures FASTEST <= throughput * (TickLength(throughput) as real + 1.0)
  {
    if throughput <= FASTEST {
      TickLengthBrackets(throughput);
    } else {
      RealProduct(throughput, 1.0, TickLength(throughput) as real + 1.0);
    }
  }

  lemma FallsBehind(throughput: real) returns (elapsed: nat)
    requires throughput > FASTEST
    ensures !WithinOnePacket(throughput, elapsed, BytesAfter(throughput, elapsed))
  {
    QuotientAgainstOne(FASTEST, throughput);
    assert TickLength(throughput) == 1;
    var surplus := throughput - FASTEST;
    var quotient := FASTEST / surplus;
    assert quotient * surplus == FASTEST;
    elapsed := quotient.Floor + 1;
    var e := elapsed as real;
    assert quotient < e;
    RealProductStrict(surplus, quotient, e);
    assert surplus * quotient == FASTEST;
    assert throughput * e == FASTEST * e + surplus * e;
    assert BytesAfter(throughput, elapsed) == elapsed * PACKET_SIZE;
  }
}
