// Every list of events that can be recorded has a block, and a small one shows
// that nothing stands in the way of decoding it.
module SampleBlock {
  import opened Wrappers
  import opened Qwords
  import opened Memory
  import opened EventFormat
  import opened Timestamps
  import opened EventStrings
  import opened EventWriter
  import opened EventReading
  import opened BlockParser
  import opened StringRoundTrip
  import opened ArgumentRoundTrip
  import opened EventRoundTrip
  import opened BlockLayout
  import opened BlockRoundTrip

  lemma BlockExists(es: seq<Timed>) returns (words: Words)
    ensures BlockHolds(words, es)
  {
    hide Layout;
    var l := Layout(es);
    words := l + [BLOCK_END_MARKER] + seq(DATA_QWORDS - |l| - 1, _ => 0);
    forall i | 0 <= i < |l|
      ensures words[0 + i] == l[i]
    {
    }
  }

  // "%d", with the argument 42, on a context, and the matching end

  const PERCENT_D: CString := CString(true, ['%' as int, 'd' as int], [], 0)

  const BEGIN: Event := Span(false, Full(0xFF00_FF00), Some(0x1234), Format(PERCENT_D), [Value(42)])

  const SAMPLE: seq<Timed> := [Timed(1000, BEGIN), Timed(1007, EndSpan(None))]

  lemma PercentD()
    ensures GoodString(PERCENT_D) && Slots(PERCENT_D.chars, 0, 0) == [NumberSlot]
  {
    hide PackQword;
    NoMarkerExact(PERCENT_D);
    assert PERCENT_D.MemByte(8 * (PERCENT_D.ChunkCount() - 1) + 0) != MARKER_BYTES[0];
    assert DetectFrom(PERCENT_D.chars, 0, 1) == Detected(NonStringSpecifier, 2);
    assert Slots(PERCENT_D.chars, 2, 1) == [];
    assert [NumberSlot] + [] == [NumberSlot];
  }

  lemma SampleShape()
    ensures |Body(BEGIN)| == 4 && Readable(BEGIN) && ArgsOffset(BEGIN) == 4
    ensures EventSlots(BEGIN) == [NumberSlot]
  {
    hide PackQword;
    PercentD();
    assert FormatString(BEGIN.format) == PERCENT_D;
    assert ArgsWords([Value(42)]) == [42] + ArgsWords([]);
  }

  lemma SampleLayout()
    ensures Start(SAMPLE, 0) == 0 && Start(SAMPLE, 1) == 5 && Start(SAMPLE, 2) == 6
  {
    hide Body, Header;
    SampleShape();
    assert SAMPLE[..0] == [] && SAMPLE[..1] == [SAMPLE[0]] && SAMPLE[..2] == SAMPLE;
    assert Layout([]) == [];
    assert Body(SAMPLE[1].event) == [] by { EndBody(); }
    LayoutStep(SAMPLE, 0);
    LayoutStep(SAMPLE, 1);
  }

  lemma EndBody()
    ensures Body(EndSpan(None)) == []
  {
  }

  /** Decoding the sample reports a begin event with its argument, and the end event. */
  lemma SampleDecodes() returns (words: Words)
    ensures BlockHolds(words, SAMPLE)
    ensures ProcessBlock(words, 990, 1007) == Walk(
              [Decoded(Begin, true, 0x1234, 1000, 0xFF00_FF00, Some(Formatted(true, ['%' as int, 'd' as int], [Number(42)]))),
               Decoded(End, false, 0, 1007, 0, None)],
              words)
  {
    hide Body, Layout, BlockHolds, ProcessBlock, ExpectedEvent, EventSlots, SearchSafe, Readable, ArgsOffset;
    SampleShape();
    SampleLayout();
    SampleEvents();
    words := BlockExists(SAMPLE);
    EndBody();
    EndReadable();
    assert Recordable(SAMPLE) && InOrder(SAMPLE, 990);
    assert Decodable(SAMPLE, 0, 1007) && Decodable(SAMPLE, 1, 1007);
    assert AllDecodable(SAMPLE, 0, 2, 1007);
    BlockDecodes(SAMPLE, words, 990, 1007);
  }

  lemma EndReadable()
    ensures Readable(EndSpan(None))
  {
  }

  lemma SampleEvents()
    ensures Readable(BEGIN) && Readable(EndSpan(None))
    ensures ExpectedEvent(SAMPLE[0])
         == Decoded(Begin, true, 0x1234, 1000, 0xFF00_FF00, Some(Formatted(true, ['%' as int, 'd' as int], [Number(42)])))
    ensures ExpectedEvent(SAMPLE[1]) == Decoded(End, false, 0, 1007, 0, None)
  {
    hide Body, EventSlots, Slots, Readable, ArgsOffset, Metadata;
    SampleShape();
    EndReadable();
    assert Expected([NumberSlot], [Value(42)]) == [Number(42)] + Expected([], []);
    assert PushAll([], [Number(42)]) == [Number(42)] by {
      PushAllFits([], [Number(42)]);
      assert [] + [Number(42)] == [Number(42)];
    }
  }

  // The qwords themselves

  lemma OneChunk(s: CString, b: seq<Octet>)
    requires |b| == 8 && s.ChunkCount() == 1 && forall j | 0 <= j < 8 :: s.MemByte(j) == b[j]
    ensures StringWords(s) == [PackQword(b)]
  {
    hide PackQword;
    assert s.ChunkBytes(0) == b;
  }

  /** What the writers put into the block, qword by qword. */
  lemma SampleWords()
    ensures Layout(SAMPLE) == [0x3E8F_3085, 0xFF00_FF00, 0x1234, 0x6425, 42, 0x3EF0_0001]
  {
    hide PackQword;
    SampleLayout();
    assert SAMPLE[..0] == [] && SAMPLE[..1] == [SAMPLE[0]] && SAMPLE[..2] == SAMPLE;
    LayoutStep(SAMPLE, 0);
    LayoutStep(SAMPLE, 1);
    FormatQword();
    assert ArgsWords([Value(42)]) == [42] + ArgsWords([]);
  }

  lemma FormatQword()
    ensures StringWords(PERCENT_D) == [0x6425]
  {
    OneChunk(PERCENT_D, [0x25, 0x64, 0, 0, 0, 0, 0, 0]);
    FourBytes(0x25, 0x64, 0, 0);
  }

  lemma FourBytes(a: Octet, b: Octet, c: Octet, d: Octet)
    ensures PackQword([a, b, c, d, 0, 0, 0, 0]) == a + 0x100 * b + 0x1_0000 * c + 0x100_0000 * d
  {
    ZeroPack(4);
    var s0: seq<Octet>, s1: seq<Octet>, s2: seq<Octet>, s3: seq<Octet> :=
      [a, b, c, d, 0, 0, 0, 0], [b, c, d, 0, 0, 0, 0], [c, d, 0, 0, 0, 0], [d, 0, 0, 0, 0];
    assert s3[1..] == seq(4, _ => 0);
    assert s2[1..] == s3;
    assert s1[1..] == s2;
    assert s0[1..] == s1;
    assert Pack(s3) == d && Pack(s2) == c + 256 * d && Pack(s1) == b + 256 * Pack(s2);
    assert Pack(s0) == a + 256 * Pack(s1);
  }

  lemma {:induction false} ZeroPack(n: nat)
    ensures Pack(seq(n, _ => 0)) == 0
    decreases n
  {
    if n > 0 {
      var s: seq<Octet> := seq(n, _ => 0);
      assert s[1..] == seq(n - 1, _ => 0);
      ZeroPack(n - 1);
    }
  }

  const PERCENT_S: CString := CString(false, ['%' as int, 's' as int], [], 0)
  const LETTER_A: CString := CString(true, ['a' as int], [], 0)

  /** A marker with an index colour, the wide format string "%s" and the ANSI string "a". */
  const MARKER: Event := Span(true, Index(3), None, Format(PERCENT_S), [Str(LETTER_A)])

  lemma MarkerStrings()
    ensures StringWords(PERCENT_S) == [0x73_0025] && StringWords(LETTER_A) == [0x61]
  {
    OneChunk(PERCENT_S, [0x25, 0, 0x73, 0, 0, 0, 0, 0]);
    FourBytes(0x25, 0, 0x73, 0);
    OneChunk(LETTER_A, [0x61, 0, 0, 0, 0, 0, 0, 0]);
    FourBytes(0x61, 0, 0, 0);
  }

  lemma MarkerWords()
    ensures WrittenAt(Timed(5, MARKER), 0) == [0x53_0104, 0x73_0025, 0x0440_0000_0000_0000, 0x61]
  {
    hide StringWords;
    MarkerStrings();
    assert ArgsWords([Str(LETTER_A)]) == ArgWords(Str(LETTER_A)) + ArgsWords([]);
    assert Body(MARKER) == [0x73_0025, 0x0440_0000_0000_0000, 0x61];
  }
}
