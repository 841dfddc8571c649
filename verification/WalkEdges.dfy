// The walk over a block where it meets what no writer puts there: headers of
// unknown types, and a header without a body.
module WalkEdges {
  import opened Wrappers
  import opened Qwords
  import opened Memory
  import opened EventFormat
  import opened Timestamps
  import opened StringReading
  import opened EventReading
  import opened BlockParser
  import opened StringRoundTrip

  /** An event of an unknown type makes no callback; the walk goes on behind it if its header tells its size, else behind the header. */
  lemma UnknownSkipped(words: Words, p: nat, end: Qword, c: Clock, buffer: Name)
    requires c.Valid() && p < |words| && words[p] != 0x000F_FF80
    requires if words[p] % 128 > 0 then (words[p] / 0x80) % 32 > 2
             else (words[p] / 0x400) % 1024 !in {0x000, 0x001, 0x002, 0x007, 0x008, 0x010, 0x011, 0x012, 0x017, 0x018}
    ensures Process(words, p, end, c, buffer)
         == Process(words, p + (if words[p] % 128 > 0 then words[p] % 128 else 1), end, c, buffer)
  {
    hide DecodeEventInfo;
    KnownExact(words[p]);
  }

  /** A begin or marker header in the block's last qword is reported with nothing but its type and time, and with the name before it. */
  lemma HeaderWithoutBody(words: Words, p: nat, previous: Qword, time: Qword, end: Qword, buffer: Name, eventType: Octet, size: Octet, metadata: Octet)
    requires p + 1 == |words| && eventType in {1, 2} && 0 < size <= 127
    requires words[p] == EncodeEventInfo(time, eventType, size, metadata)
    requires previous <= time && time - previous < TIMESTAMP_RANGE
    ensures Process(words, p, end, ClockAt(previous), buffer)
         == Walk([Decoded(if eventType == 1 then Begin else Marker, metadata % 2 == 1, 0, time, 0, Some(buffer))], words)
  {
    hide EncodeEventInfo, DecodeEventInfo, Advance, ReadPrefix, ReadStringSpec;
    HeaderRoundTrip(time, eventType, size, metadata);
    AdvanceExact(previous, time);
    var s := ReadBody(words, p + 1, DecodeEventInfo(words[p]), end, ClockAt(time), buffer);
    assert s.next >= |words|;
    assert Process(words, s.next, end, ClockAt(time), s.buffer) == Walk([], words);
    assert [s.event] + [] == [s.event];
  }

  /**
   * Where the walk goes on behind a header that tells its size, whatever its
   * body holds: the size decides, except that an end event without a context
   * is its header alone.  The largest size says nothing, so an end event with
   * a context is then its two qwords.
   */
  lemma SizeObeyed(words: Words, p: nat, previous: Qword, time: Qword, end: Qword, buffer: Name, eventType: Octet, size: Octet, metadata: Octet)
    returns (event: Decoded, buffer': Name, after: Words)
    requires p + 1 < |words| && eventType <= 2 && 0 < size <= 127 && (size == 127 ==> eventType == 0)
    requires words[p] == EncodeEventInfo(time, eventType, size, metadata)
    requires previous <= time && time - previous < TIMESTAMP_RANGE
    ensures var next := p + (if eventType == 0 && metadata % 2 == 0 then 1 else if size < 127 then size else 2);
            var rest := Process(after, next, end, ClockAt(time), buffer');
            Process(words, p, end, ClockAt(previous), buffer) == Walk([event] + rest.events, rest.mem)
    ensures event.time == time && event.onContext == (metadata % 2 == 1)
    ensures eventType == 0 ==> event == Decoded(End, event.onContext, if event.onContext then words[p + 1] else 0, time, 0, None)
    ensures eventType == 0 ==> buffer' == buffer && after == words
    ensures eventType == 1 ==> event.eventType == Begin && event.name == Some(buffer')
    ensures eventType == 2 ==> event.eventType == Marker && event.name == Some(buffer')
  {
    hide EncodeEventInfo, DecodeEventInfo, Advance, ReadFormatted, ReadUnformatted;
    HeaderRoundTrip(time, eventType, size, metadata);
    AdvanceExact(previous, time);
    var s := ReadBody(words, p + 1, DecodeEventInfo(words[p]), end, ClockAt(time), buffer);
    event, buffer', after := s.event, s.buffer, s.mem;
  }

  // Names in a char string, whatever the memory holds

  lemma {:induction false} AnsiUnterminated(mem: Words, b: nat, limit: int)
    ensures var e := StringEnd(mem, b, limit, true);
            && (forall c | b <= c < e - 1 :: ByteAt(mem, c) != 0)
            && (e > b ==> (e - 1) / 8 < limit)
    decreases 8 * limit - b
  {
    hide Byte;
    if !AtEnd(mem, b / 8, limit) && ByteAt(mem, b) != 0 {
      AnsiUnterminated(mem, b + 1, limit);
    }
  }

  lemma {:induction false} AnsiText(mem: Words, b: nat, e: nat)
    requires b <= e && forall c | b <= c < e :: ByteAt(mem, c) != 0
    ensures var text := CStringAt(mem, b, true);
            |text| >= e - b && forall i | 0 <= i < e - b :: text[i] == ByteAt(mem, b + i)
    decreases e - b
  {
    hide Byte;
    if b < e {
      assert ByteAt(mem, b) != 0;
      ZeroOutside(mem, b);
      CStringStep(mem, b, true);
      AnsiText(mem, b + 1, e);
      var text, rest := CStringAt(mem, b, true), CStringAt(mem, b + 1, true);
      assert text == [ByteAt(mem, b)] + rest;
      forall i | 0 <= i < e - b
        ensures text[i] == ByteAt(mem, b + i)
      {
        if i > 0 {
          assert text[i] == rest[i - 1] == ByteAt(mem, b + 1 + (i - 1));
        }
      }
    }
  }

  lemma ZeroOutside(mem: Words, b: nat)
    requires ByteAt(mem, b) != 0
    ensures b / 8 < |mem|
  {
    ZeroBytes(b % 8);
  }

  /**
   * The name copied from a char string is every byte that the search for its
   * end has passed but the last, which is the terminator or lost: the repair
   * of the memory, where there is one, does not show.
   */
  lemma AnsiName(mem: Words, source: nat, at: nat, limit: int, chunkSize: nat)
    requires chunkSize in {8, 16} && 8 * source <= at && !AtEnd(mem, at / 8, limit)
    ensures var read := CharsReadSpec(mem, source, at, limit, chunkSize, true);
            var e := StringEnd(mem, at, limit, true);
            var name := PlainName(read.info, read.mem);
            && name.Plain? && name.isAnsi && |name.chars| == e - 1 - at
            && forall i | 0 <= i < |name.chars| :: name.chars[i] == ByteAt(mem, at + i)
  {
    hide ByteAt, StringEnd, AtEnd, StoreByteAt, CStringAt;
    StringEndPast(mem, at, limit, true);
    var e := StringEnd(mem, at, limit, true);
    var read := CharsReadSpec(mem, source, at, limit, chunkSize, true);
    AnsiUnterminated(mem, at, limit);
    forall c | at <= c < e - 1
      ensures ByteAt(read.mem, c) == ByteAt(mem, c)
    {
      StoreByteAtBytes(mem, e - 1, 0, c);
    }
    AnsiText(read.mem, at, e - 1);
  }
}
