// What lies behind the end marker of a full block: one qword that no writer
// set.  Whatever the decoder makes of it, it changes nothing there.
module BlockTail {
  import opened Wrappers
  import opened Qwords
  import opened Memory
  import opened EventFormat
  import opened Timestamps
  import opened EventWriter
  import opened StringReading
  import opened EventReading
  import opened BlockParser
  import opened ArgumentRoundTrip
  import opened CutRoundTrip

  /** The end marker is at `e` and one more qword follows it. */
  predicate Full(mem: Words, e: nat) {
    |mem| == e + 2 && mem[e] == BLOCK_END_MARKER
  }

  /** A scan ends behind a terminator or where the cursor is at its end. */
  lemma {:induction false} ScanEnd(mem: Words, b: nat, limit: int, ansi: bool)
    ensures var end := StringEnd(mem, b, limit, ansi);
            AtEnd(mem, end / 8, limit) || (end >= b + CharSize(ansi) && CharAt(mem, end - CharSize(ansi), ansi) == 0)
    decreases 8 * limit - b
  {
    hide CharAt;
    if !AtEnd(mem, b / 8, limit) && CharAt(mem, b, ansi) != 0 {
      ScanEnd(mem, b + CharSize(ansi), limit, ansi);
    }
  }

  lemma CharsKept(mem: Words, e: nat, source: nat, at: nat, limit: int, chunkSize: nat, ansi: bool)
    requires Full(mem, e) && chunkSize in {8, 16} && 8 * source <= at && !AtEnd(mem, at / 8, limit) && at / 8 >= e
    ensures CharsReadSpec(mem, source, at, limit, chunkSize, ansi).mem == mem
  {
    hide CharAt, StoreNul, StringEnd;
    var end := StringEnd(mem, at, limit, ansi);
    ScanEnd(mem, at, limit, ansi);
    StringEndPast(mem, at, limit, ansi);
    if ByteAt(mem, end) != 0 {
      assert end / 8 == e + 1 == at / 8 by {
        LaterQword(mem, e, at, end);
      }
      StoreNulOverNul(mem, end - CharSize(ansi), ansi);
    }
  }

  lemma LaterQword(mem: Words, e: nat, at: nat, end: nat)
    requires Full(mem, e) && at <= end && at / 8 >= e && at / 8 != e && ByteAt(mem, end) != 0
    ensures end / 8 == e + 1 == at / 8
  {
    ZeroOutside(end % 8);
    assert at / 8 <= end / 8;
  }

  lemma {:induction false} ZeroOutside(j: nat)
    ensures Byte(0, j) == 0
  {
    if j > 0 {
      ZeroOutside(j - 1);
    }
  }

  lemma StringKept(mem: Words, e: nat, source: nat, limit: int, metadata: Option<Octet>)
    requires Full(mem, e) && source >= e
    ensures ReadStringSpec(mem, source, limit, metadata).mem == mem
  {
    hide CharsReadSpec, DecodeStringInfo;
    match LocateString(mem, source, limit, metadata)
    case Starts(ansi, chunkSize, at) => CharsKept(mem, e, source, at, limit, chunkSize, ansi);
    case _ =>
  }

  lemma {:induction false} SlotsKept(slots: seq<Slot>, a: ArgState, limit: int, e: nat)
    requires Full(a.mem, e) && a.source >= e
    ensures TakeSlots(slots, a, limit).mem == a.mem
    decreases |slots|
  {
    hide ReadStringSpec, SavedText, Push;
    if slots != [] {
      StringKept(a.mem, e, a.source, limit, None);
      SlotsKept(slots[1..], TakeSlot(slots[0], a, limit), limit, e);
    }
  }

  lemma FormattedKept(mem: Words, e: nat, info: EventInfo, at: nat, limit: int)
    requires Full(mem, e) && at >= e
    ensures ReadFormatted(mem, info, at, limit).mem == mem && ReadUnformatted(mem, info, at, limit).mem == mem
  {
    hide ReadStringSpec, SavedText, Populate, Slots, TakeSlots, PlainName;
    var (prefix, source) := ReadPrefix(mem, info, at);
    assert source >= at;
    StringKept(mem, e, source, limit, StringMetadata(info));
    var read := ReadStringSpec(mem, source, limit, StringMetadata(info));
    var text := SavedText(read.info, read.mem);
    SavedTextNonZero(read.info, read.mem);
    var argSource := source + read.info.bytesUsed / 8;
    var argLimit := if info.SizeKnown() then argSource + (info.size - (1 + (prefix.totalBytes + read.info.bytesUsed) / 8)) else limit;
    PopulateIsSlots(text, 0, ArgState([], argSource, 0, mem), argLimit);
    SlotsKept(Slots(text, 0, 0), ArgState([], argSource, 0, mem), argLimit, e);
  }

  /** Decoding from the last qword before the marker on leaves the block as it is. */
  lemma {:induction false} TailKept(mem: Words, e: nat, pos: nat, end: Qword, c: Clock, buffer: Name)
    requires Full(mem, e) && pos + 1 >= e && c.Valid()
    ensures Process(mem, pos, end, c, buffer).mem == mem
    decreases |mem| - pos
  {
    hide DecodeEventInfo, Advance, ReadFormatted, ReadUnformatted, Resume;
    if !AtEnd(mem, pos, |mem|) {
      var info := DecodeEventInfo(mem[pos]);
      if !info.Known() {
        TailKept(mem, e, pos + 1 + (if info.size > 0 then info.size - 1 else 0), end, c, buffer);
      } else {
        var c' := Advance(c, info.time);
        FormattedKept(mem, e, info, pos + 1, |mem|);
        var s := ReadBody(mem, pos + 1, info, end, c', buffer);
        TailKept(mem, e, s.next, end, c', s.buffer);
      }
    }
  }

  /** At most one callback is made for each qword that is left. */
  lemma {:induction false} CallbackPerQword(mem: Words, pos: nat, end: Qword, c: Clock, buffer: Name)
    requires c.Valid()
    ensures |Process(mem, pos, end, c, buffer).events| <= if pos < |mem| then |mem| - pos else 0
    decreases |mem| - pos
  {
    hide DecodeEventInfo, Advance, ReadBody;
    if !AtEnd(mem, pos, |mem|) {
      var info := DecodeEventInfo(mem[pos]);
      if !info.Known() {
        CallbackPerQword(mem, pos + 1 + (if info.size > 0 then info.size - 1 else 0), end, c, buffer);
      } else {
        var c' := Advance(c, info.time);
        var s := ReadBody(mem, pos + 1, info, end, c', buffer);
        CallbackPerQword(s.mem, s.next, end, c', s.buffer);
      }
    }
  }
}
