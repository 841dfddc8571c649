// Arguments whose kinds do not match the format string: a number that is read
// as a string can make the decoder change the header of the next event.
module MistypedArguments {
  import opened Wrappers
  import opened Qwords
  import opened Memory
  import opened EventFormat
  import opened StringReading
  import opened EventReading
  import opened ArgumentRoundTrip

  /** A number that reads as a string header: alignment 1, 8-byte chunks, wide. */
  const NUMBER: Qword := 0x1400_0000_0000_0000

  /** One none of whose bytes is zero. */
  const NEXT_NUMBER: Qword := PackQword([0x41, 0x41, 0x41, 0x41, 0x41, 0x41, 0x41, 0x41])

  lemma NextBytes(j: nat)
    requires j < 8
    ensures Byte(NEXT_NUMBER, j) == 0x41
  {
    hide Pack;
    PackByte([0x41, 0x41, 0x41, 0x41, 0x41, 0x41, 0x41, 0x41], j);
  }

  lemma NextIsNoMarker()
    ensures NEXT_NUMBER != BLOCK_END_MARKER
  {
    hide PackQword;
    NextBytes(0);
  }

  lemma ReadAsHeader()
    ensures DecodeStringInfo(NUMBER) == StringInfo(1, 8, false, true) && NUMBER != 0
  {
  }

  /** The scan runs over the end of the event, in the middle of a character. */
  lemma ScanOver(mem: Words)
    requires |mem| == 3 && mem[1] == NEXT_NUMBER
    ensures StringEnd(mem, 9, 2, false) == 17 && !AtEnd(mem, 1, 2)
  {
    hide Byte, PackQword;
    NextIsNoMarker();
    NextBytes(1); NextBytes(3); NextBytes(5); NextBytes(7);
    assert CharAt(mem, 9, false) != 0 && CharAt(mem, 11, false) != 0 && CharAt(mem, 13, false) != 0 && CharAt(mem, 15, false) != 0;
    assert StringEnd(mem, 17, 2, false) == 17;
    assert StringEnd(mem, 15, 2, false) == 17;
    assert StringEnd(mem, 13, 2, false) == 17;
    assert StringEnd(mem, 11, 2, false) == 17;
  }

  /**
   * Two numbers where the format string asks for a string: repairing the
   * "string" clears the low byte of the next event's header, so that its size
   * becomes unknown.  The walk over a block is steered by the headers that were
   * written only if the arguments have the kinds that are asked for.
   */
  lemma ClearsNextHeader(header: Qword)
    requires Byte(header, 1) != 0
    ensures var read := TakeSlot(TextSlot, ArgState([], 0, 0, [NUMBER, NEXT_NUMBER, header]), 2);
            read.mem[2] == header - header % 256 && DecodeEventInfo(read.mem[2]).size == 0
  {
    hide StringEnd, PackQword, DecodeStringInfo, FromLegacy, SavedText;
    var mem := [NUMBER, NEXT_NUMBER, header];
    ReadAsHeader();
    ScanOver(mem);
    assert LocateString(mem, 0, 2, None) == Starts(false, 8, 9);
    assert ByteAt(mem, 17) == Byte(header, 1);
    assert StoreNul(mem, 15, false)[2] == StoreQwordByte(header, 0, 0) == header - header % 256;
    assert (header - header % 256) % 128 == 0;
  }
}
