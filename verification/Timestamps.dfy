// How the decoder rebuilds 64-bit event times from the 44 bits that a header
// keeps.
module Timestamps {
  import opened Qwords
  import opened EventFormat

  /** The bits of a time above bit 44, in place. */
  function HighBits(t: Qword): Qword {
    t - t % TIMESTAMP_RANGE
  }

  /** The decoder's running state: `maskedTimeBits` and `previousTimestamp`. */
  datatype Clock = Clock(maskedBits: Qword, previous: Qword)
  {
    predicate Valid() {
      maskedBits % TIMESTAMP_RANGE == 0
    }
  }

  /** The clock after the block header, or after an event, of time `t`. */
  function ClockAt(t: Qword): (c: Clock)
    ensures c.Valid()
  {
    Clock(HighBits(t), t)
  }

  /** `low | maskedBits`: the two have no bits in common. */
  function Merge(maskedBits: Qword, low: Qword): Qword
    requires maskedBits % TIMESTAMP_RANGE == 0 && low < TIMESTAMP_RANGE
  {
    maskedBits + low
  }

  /** The clock after an event whose header holds `low`; `previous` is then that event's restored time. */
  function Advance(c: Clock, low: Qword): (r: Clock)
    requires c.Valid() && low < TIMESTAMP_RANGE
    ensures r.Valid()
  {
    var time := Merge(c.maskedBits, low);
    if time < c.previous then
      Clock((c.maskedBits + TIMESTAMP_RANGE) % TWO_64, (time + TIMESTAMP_RANGE) % TWO_64)
    else Clock(c.maskedBits, time)
  }

  /**
   * For an event no earlier than the previous one, the restored time is the
   * true one exactly when less than 2^44 ticks went by.
   */
  lemma AdvanceExact(previous: Qword, time: Qword)
    requires previous <= time
    ensures Advance(ClockAt(previous), time % TIMESTAMP_RANGE).previous == time <==> time - previous < TIMESTAMP_RANGE
    ensures time - previous < TIMESTAMP_RANGE ==> Advance(ClockAt(previous), time % TIMESTAMP_RANGE) == ClockAt(time)
  {
    var hp, ht := previous / TIMESTAMP_RANGE, time / TIMESTAMP_RANGE;
    assert HighBits(previous) == hp * TIMESTAMP_RANGE && HighBits(time) == ht * TIMESTAMP_RANGE;
    assert hp <= ht < TIMESTAMP_RANGE && TWO_64 == 0x10_0000 * TIMESTAMP_RANGE;
  }

  /** The times the decoder restores for the headers of consecutive events. */
  function RestoreAll(c: Clock, times: seq<Qword>): (r: seq<Qword>)
    requires c.Valid()
    ensures |r| == |times|
    decreases |times|
  {
    if times == [] then []
    else
      var next := Advance(c, times[0] % TIMESTAMP_RANGE);
      [next.previous] + RestoreAll(next, times[1..])
  }

  predicate NonDecreasing(begin: Qword, times: seq<Qword>) {
    && (|times| > 0 ==> begin <= times[0])
    && forall i | 0 < i < |times| :: times[i - 1] <= times[i]
  }

  /** Consecutive times, the block's begin time included, are less than 2^44 ticks apart. */
  predicate SmallGaps(begin: Qword, times: seq<Qword>) {
    && (|times| > 0 ==> times[0] - begin < TIMESTAMP_RANGE)
    && forall i | 0 < i < |times| :: times[i] - times[i - 1] < TIMESTAMP_RANGE
  }

  lemma TailOrder(begin: Qword, times: seq<Qword>)
    requires times != [] && NonDecreasing(begin, times)
    ensures NonDecreasing(times[0], times[1..])
    ensures SmallGaps(begin, times) <==> times[0] - begin < TIMESTAMP_RANGE && SmallGaps(times[0], times[1..])
  {
    var rest := times[1..];
    forall i | 0 < i < |rest|
      ensures rest[i - 1] <= rest[i]
      ensures SmallGaps(begin, times) ==> rest[i] - rest[i - 1] < TIMESTAMP_RANGE
    {
      assert times[i + 1 - 1] <= times[i + 1];
      assert SmallGaps(begin, times) ==> times[i + 1] - times[i + 1 - 1] < TIMESTAMP_RANGE;
    }
    if SmallGaps(times[0], rest) {
      forall i | 0 < i < |times|
        ensures times[i] - times[i - 1] < TIMESTAMP_RANGE
      {
        if i > 1 {
          assert rest[i - 1] - rest[i - 1 - 1] < TIMESTAMP_RANGE;
        }
      }
    }
  }

  /**
   * The times of a block, in recording order, are all restored exactly when
   * none of them is 2^44 or more ticks after its predecessor; any number of
   * carries may happen on the way.
   */
  lemma {:induction false} RestoreAllExact(begin: Qword, times: seq<Qword>)
    requires NonDecreasing(begin, times)
    ensures RestoreAll(ClockAt(begin), times) == times <==> SmallGaps(begin, times)
    decreases |times|
  {
    if times != [] {
      var t, rest := times[0], times[1..];
      AdvanceExact(begin, t);
      TailOrder(begin, times);
      var all := RestoreAll(ClockAt(begin), times);
      var next := Advance(ClockAt(begin), t % TIMESTAMP_RANGE);
      assert all == [next.previous] + RestoreAll(next, rest) && times == [t] + rest;
      if t - begin < TIMESTAMP_RANGE {
        RestoreAllExact(t, rest);
        assert all[1..] == RestoreAll(next, rest);
      } else {
        assert all[0] != t;
      }
    }
  }

  /** IsValidEventInfo: whether the resynchronising search takes `q` for a header. */
  predicate IsValidEventInfo(maxTime: Qword, previousTime: Qword, maskedBits: Qword, q: Qword)
    requires maskedBits % TIMESTAMP_RANGE == 0
  {
    var d := DecodeEventInfo(q);
    && d.Known()
    // reserved bits 7-9, phase bits 8-9 and the GPU bit 6 of a legacy header
    && (d.size == 0 ==> (q / 0x80) % 8 == 0 && (q / 0x100) % 4 == 0 && (q / 0x40) % 2 == 0)
    && previousTime <= Merge(maskedBits, d.time) <= maxTime
  }

  /**
   * A header written less than 2^44 ticks after the event before it, and no
   * later than the block's end, is recognised exactly when the two times agree
   * above bit 44.
   */
  lemma ValidHeaderExact(maxTime: Qword, previous: Qword, time: Qword, eventType: Octet, eventSize: Octet, metadata: Octet)
    requires previous <= time <= maxTime && time - previous < TIMESTAMP_RANGE
    requires eventType < 3 && 0 < eventSize <= 127
    ensures IsValidEventInfo(maxTime, previous, HighBits(previous), EncodeEventInfo(time, eventType, eventSize, metadata))
       <==> HighBits(time) == HighBits(previous)
  {
    HeaderRoundTrip(time, eventType, eventSize, metadata);
  }

  /** The header bits of an event type that exists, and no reserved bit set. */
  predicate KnownBits(q: Qword) {
    if q % 128 > 0 then (q / 0x80) % 32 <= 2
    else (q / 0x40) % 16 == 0 && (q / 0x400) % 1024 in {0x000, 0x001, 0x002, 0x007, 0x008, 0x010, 0x011, 0x012, 0x017, 0x018}
  }

  /**
   * What the search takes for a header: a known type of either format, no
   * reserved bit of a legacy header, and a time, with the high bits of the one
   * before, that is neither before that one nor after the block's end.
   */
  lemma ValidExact(maxTime: Qword, previous: Qword, maskedBits: Qword, q: Qword)
    requires maskedBits % TIMESTAMP_RANGE == 0
    ensures IsValidEventInfo(maxTime, previous, maskedBits, q)
       <==> KnownBits(q) && previous as int <= maskedBits + q / 0x10_0000 <= maxTime
  {
    ReservedBits(q);
    KnownExact(q);
  }

  lemma ReservedBits(q: Qword)
    ensures (q / 0x80) % 8 == 0 && (q / 0x100) % 4 == 0 && (q / 0x40) % 2 == 0 <==> (q / 0x40) % 16 == 0
  {
    var h := q / 0x40;
    assert q / 0x80 == h / 2 && q / 0x100 == h / 4;
    var r := h % 16;
    assert h == 16 * (h / 16) + r;
    assert h / 2 == 8 * (h / 16) + r / 2 && h / 4 == 4 * (h / 16) + r / 4;
  }

  lemma KnownExact(q: Qword)
    ensures DecodeEventInfo(q).Known()
       <==> if q % 128 > 0 then (q / 0x80) % 32 <= 2
            else (q / 0x400) % 1024 in {0x000, 0x001, 0x002, 0x007, 0x008, 0x010, 0x011, 0x012, 0x017, 0x018}
    ensures DecodeEventInfo(q).size == q % 128 && DecodeEventInfo(q).time == q / 0x10_0000
  {
  }
}
