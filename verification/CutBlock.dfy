// Decoding a block whose last event was cut, once and again.
module CutBlock {
  import opened Wrappers
  import opened Qwords
  import opened Memory
  import opened EventFormat
  import opened Timestamps
  import opened EventStrings
  import opened EventWriter
  import opened StringReading
  import opened StringRoundTrip
  import opened EventReading
  import opened BlockParser
  import opened ArgumentRoundTrip
  import opened EventRoundTrip
  import opened BlockLayout
  import opened BlockRoundTrip
  import opened CutRoundTrip
  import opened CutEvents
  import opened BlockTail

  // One event

  /** Of the event at `p`, `room` qwords were stored, header included; the end marker and one more qword follow. */
  ghost predicate StoredCut(t: Timed, words: Words, p: nat, room: nat) {
    && 0 < room && CutLies(Body(t.event), words, p + 1, room - 1) && words[p] == Header(t.event, t.time, room)
    && |words| == p + room + 2
  }

  /** What the decoder reports for an event of which `room` qwords were stored, with `tail` behind it. */
  function CutEvent(t: Timed, room: nat, tail: Words): Decoded
    requires t.event.Span? && room > 3 && Readable(t.event)
  {
    var e := t.event;
    Decoded(TypeOf(e), e.context.Some?, ContextValue(e.context), t.time, ColorValue(e.color) % 0x1_0000_0000,
            Some(CutName(e, room, tail)))
  }

  lemma CutRead(t: Timed, words: Words, p: nat, room: nat)
    requires t.event.Span? && Readable(t.event) && 3 < room && StoredCut(t, words, p, room)
    ensures var tail := Behind(words, p + room, room);
            (ReadFormatted(words, InfoOf(t, room), p + 1, |words|)
             == ReadResult(CutData(t.event, room, tail), Some(CutName(t.event, room, tail)), CutEventMemory(t.event, words, p + 1, room)))
  {
    hide Body, Metadata, ReadFormatted, Readable, CutLies, Behind, CutData, CutName, CutEventMemory;
    ReadCutEvent(t.event, InfoOf(t, room), words, p + 1, room);
  }

  lemma CutInfo(t: Timed, room: nat)
    requires t.event.Span? && 0 < room
    ensures var info := InfoOf(t, room);
            && info.op == (if t.event.marker then OP_MARKER else OP_BEGIN) && info.Known() && !info.NoVarArgs()
            && (info.OnContext() <==> t.event.context.Some?) && (info.SizeKnown() <==> room < SIZE_MAX)
            && (room < SIZE_MAX ==> info.size as int == room)
            && info.time == t.time % TIMESTAMP_RANGE
  {
    hide Metadata;
    MetadataFields(t.event);
  }

  /** Where the decoder goes on behind the cut event. */
  function NextAfter(e: Event, mem: Words, at: nat, room: nat, tail: Words, end: Qword, time: Qword): nat
    requires e.Span? && room > 3 && Readable(e)
  {
    if room < SIZE_MAX then at + room - 1 else Resume(mem, at, CutData(e, room, tail), end, ClockAt(time))
  }

  /** What is decoded behind the cut event at `p`. */
  function AfterCut(t: Timed, words: Words, p: nat, room: nat, end: Qword): Walk
    requires t.event.Span? && room > 3 && Readable(t.event) && p + room <= |words|
  {
    var e, tail, mem := t.event, Behind(words, p + room, room), CutEventMemory(t.event, words, p + 1, room);
    Process(mem, NextAfter(e, mem, p + 1, room, tail, end, t.time), end, ClockAt(t.time), CutName(e, room, tail))
  }

  lemma CutStep(t: Timed, words: Words, p: nat, room: nat, previous: Qword, end: Qword, buffer: Name)
    requires t.event.Span? && Readable(t.event) && 3 < room && StoredCut(t, words, p, room)
    requires previous <= t.time && t.time - previous < TIMESTAMP_RANGE
    ensures var rest := AfterCut(t, words, p, room, end);
            (Process(words, p, end, ClockAt(previous), buffer)
             == Walk([CutEvent(t, room, Behind(words, p + room, room))] + rest.events, rest.mem))
  {
    hide Body, Header, ReadBody, Readable, CutLies, CutName, CutEventMemory, InfoOf, WordsLie, Behind, CutData, NextAfter, CutEvent;
    HeaderDecodes(t, room);
    CutInfo(t, room);
    AdvanceExact(previous, t.time);
    CutLiesBound(Body(t.event), words, p + 1, room - 1);
    CutBody(t, words, p, room, end, buffer);
  }

  lemma CutBody(t: Timed, words: Words, p: nat, room: nat, end: Qword, buffer: Name)
    requires t.event.Span? && Readable(t.event) && 3 < room && StoredCut(t, words, p, room)
    ensures InfoOf(t, room).Known()
    ensures var tail, mem := Behind(words, p + room, room), CutEventMemory(t.event, words, p + 1, room);
            (ReadBody(words, p + 1, InfoOf(t, room), end, ClockAt(t.time), buffer)
             == Step(CutEvent(t, room, tail), NextAfter(t.event, mem, p + 1, room, tail, end, t.time), CutName(t.event, room, tail), mem))
  {
    hide Body, Header, ReadFormatted, Readable, CutLies, CutName, CutEventMemory, InfoOf, WordsLie, Behind, Resume;
    CutInfo(t, room);
    CutRead(t, words, p, room);
  }

  // What follows it

  /** The first qword that a search behind the cut event can come upon. */
  function SearchFrom(e: Event, p: nat, room: nat): int
    requires e.Span? && room > 3
  {
    p + Used(e, room) - |Prefix(e)| + if Prefix(e) == [] then 0 else 1
  }

  /**
   * The search that follows a cut event of 127 qwords or more passes over the
   * stored arguments, up to the last qword.
   */
  ghost predicate SafeStored(t: Timed, words: Words, p: nat, room: nat, end: Qword)
    requires t.event.Span? && room > 3
  {
    room < SIZE_MAX || forall i | SearchFrom(t.event, p, room) <= i < p + room - 1 && 0 <= i < |words| :: !Stops(words[i], end, t.time)
  }

  /** There is nothing to search when the format string itself was cut. */
  lemma CutFormatSafe(t: Timed, words: Words, p: nat, room: nat, end: Qword)
    requires t.event.Span? && room > 3 && FormatCut(t.event, room)
    ensures SafeStored(t, words, p, room, end)
  {
    hide FormatWords, Stops;
  }

  lemma {:induction false} SeekLate(words: Words, from: nat, to: nat, end: Qword, time: Qword)
    requires to <= |words| && forall i | from <= i < to :: !Stops(words[i], end, time)
    ensures Seek(words, from, end, ClockAt(time)) >= to
    decreases |words| - from
  {
    hide IsValidEventInfo;
    if from < to {
      SeekLate(words, from + 1, to, end, time);
    }
  }

  lemma NextLate(t: Timed, words: Words, p: nat, room: nat, tail: Words, end: Qword)
    requires t.event.Span? && Readable(t.event) && room > 3 && StoredCut(t, words, p, room) && SafeStored(t, words, p, room, end)
    ensures var mem := CutEventMemory(t.event, words, p + 1, room);
            NextAfter(t.event, mem, p + 1, room, tail, end, t.time) + 1 >= p + room
  {
    hide Body, Header, Readable, CutLies, CutEventMemory, Used, Prefix, IsValidEventInfo, Seek, LeftSlots, CutTaken, KeptRoom, WordsLie;
    CutEventMemoryHolds(t.event, words, p + 1, room);
    UsedBound(t.event, room);
    var mem, from := CutEventMemory(t.event, words, p + 1, room), SearchFrom(t.event, p, room);
    if room >= SIZE_MAX {
      forall i | from <= i < p + room - 1
        ensures !Stops(mem[i], end, t.time)
      {
        assert mem[i] == words[i];
      }
      var start := p + 1 + 1 + CutData(t.event, room, tail).formatBytes / 8;
      assert start >= from;
      SeekLate(mem, start, p + room - 1, end, t.time);
    }
  }

  /** Whatever follows the cut event, the decoder leaves the memory as it is there. */
  lemma AfterCutKeeps(t: Timed, words: Words, p: nat, room: nat, end: Qword)
    requires t.event.Span? && Readable(t.event) && room > 3 && StoredCut(t, words, p, room) && SafeStored(t, words, p, room, end)
    ensures AfterCut(t, words, p, room, end).mem == CutEventMemory(t.event, words, p + 1, room)
    ensures |AfterCut(t, words, p, room, end).events| <= 3
  {
    hide Body, Header, Readable, CutEventMemory, NextAfter, CutName, Process, WordsLie, SafeStored;
    var e, tail, mem := t.event, Behind(words, p + room, room), CutEventMemory(t.event, words, p + 1, room);
    CutEventMemoryHolds(e, words, p + 1, room);
    CutLiesBound(Body(e), words, p + 1, room - 1);
    NextLate(t, words, p, room, tail, end);
    var next := NextAfter(e, mem, p + 1, room, tail, end, t.time);
    TailKept(mem, p + room, next, end, ClockAt(t.time), CutName(e, room, tail));
    CallbackPerQword(mem, next, end, ClockAt(t.time), CutName(e, room, tail));
  }

  /**
   * Nothing more is decoded: the header tells the event's size, or the arguments
   * asked for are just those that were stored, or no more than those and the
   * search over the rest comes to the end marker.
   */
  ghost predicate Finished(t: Timed, words: Words, p: nat, room: nat, tail: Words, end: Qword)
    requires t.event.Span? && Readable(t.event) && room > 3
  {
    var n, mem := CutQwords(t.event, room, tail), CutEventMemory(t.event, words, p + 1, room);
    || room < SIZE_MAX || n == room - 1
    || (n < room - 1 && forall i | SearchFrom(t.event, p, room) <= i < p + room && 0 <= i < |mem| :: !Stops(mem[i], end, t.time))
  }

  lemma FinishedEnds(t: Timed, words: Words, p: nat, room: nat, end: Qword)
    requires t.event.Span? && Readable(t.event) && room > 3 && StoredCut(t, words, p, room)
    requires Finished(t, words, p, room, Behind(words, p + room, room), end)
    ensures AfterCut(t, words, p, room, end) == Walk([], CutEventMemory(t.event, words, p + 1, room))
  {
    hide Body, Header, Readable, CutEventMemory, CutName, WordsLie, Used, Prefix, IsValidEventInfo, LeftSlots, CutTaken, KeptRoom, ReadBody, Seek,
         Behind, DecodeEventInfo;
    var e, tail, mem := t.event, Behind(words, p + room, room), CutEventMemory(t.event, words, p + 1, room);
    CutEventMemoryHolds(e, words, p + 1, room);
    CutLiesBound(Body(e), words, p + 1, room - 1);
    UsedBound(e, room);
    assert mem[p + room] == BLOCK_END_MARKER;
    if room >= SIZE_MAX && CutQwords(e, room, tail) != room - 1 {
      SearchExact(mem, p + 1, SearchFrom(e, p, room), p + room, CutData(e, room, tail), end, t.time);
    }
    assert NextAfter(e, mem, p + 1, room, tail, end, t.time) == p + room;
  }

  // The block

  /** All events but the last are decodable; the last one was cut. */
  ghost predicate LastCut(es: seq<Timed>, words: Words, begin: Qword, end: Qword) {
    && es != [] && Recordable(es) && BlockHolds(words, es) && InOrder(es, begin)
    && AllDecodable(es, 0, |es| - 1, end)
    && !UncutAt(es, |es| - 1) && Readable(es[|es| - 1].event)
  }

  /** Qwords that were left for the last event. */
  function Room(es: seq<Timed>): (r: nat)
    requires es != [] && Recordable(es)
    ensures 3 < r <= EVENT_LIMIT
  {
    assert Start(es, |es| - 1) < BIASED_LIMIT;
    EVENT_LIMIT - Start(es, |es| - 1)
  }

  lemma CutIsSpan(es: seq<Timed>)
    requires es != [] && Recordable(es) && !UncutAt(es, |es| - 1)
    ensures es[|es| - 1].event.Span?
  {
  }

  lemma LastStored(es: seq<Timed>, words: Words)
    requires es != [] && Recordable(es) && BlockHolds(words, es) && !UncutAt(es, |es| - 1)
    ensures es[|es| - 1].event.Span?
    ensures StoredCut(es[|es| - 1], words, Start(es, |es| - 1), Room(es))
    ensures |Layout(es)| == EVENT_LIMIT && Start(es, |es| - 1) + Room(es) == EVENT_LIMIT
  {
    hide Body, Header, Layout, WrittenAt;
    CutIsSpan(es);
    var i, t := |es| - 1, es[|es| - 1];
    EventLies(es, words, i);
    assert es[..i + 1] == es;
    var p, room := Start(es, i), Room(es);
    WrittenCut(t, p, room);
    var w := [Header(t.event, t.time, room)];
    WordsLieParts(w, Body(t.event)[..room - 1], words, p);
    assert words[p + 0] == w[0];
  }

  lemma WrittenCut(t: Timed, p: nat, room: nat)
    requires p < EVENT_LIMIT && room == EVENT_LIMIT - p && |Body(t.event)| >= room
    ensures WrittenAt(t, p) == [Header(t.event, t.time, room)] + Body(t.event)[..room - 1]
  {
    hide Body, Header;
  }

  /** The qwords behind the end of the last event that the decoder would read as arguments. */
  function BehindLast(es: seq<Timed>, words: Words): Words
    requires es != [] && Recordable(es) && |words| == DATA_QWORDS
  {
    Behind(words, EVENT_LIMIT, Room(es))
  }

  function LastEvent(es: seq<Timed>, words: Words): Decoded
    requires es != [] && Recordable(es) && |words| == DATA_QWORDS && !UncutAt(es, |es| - 1) && Readable(es[|es| - 1].event)
  {
    CutIsSpan(es);
    CutEvent(es[|es| - 1], Room(es), BehindLast(es, words))
  }

  function MemoryAfter(es: seq<Timed>, words: Words): Words
    requires es != [] && Recordable(es) && !UncutAt(es, |es| - 1) && Readable(es[|es| - 1].event)
  {
    CutIsSpan(es);
    CutEventMemory(es[|es| - 1].event, words, Start(es, |es| - 1) + 1, Room(es))
  }

  /** What is decoded behind the last event. */
  function AfterLast(es: seq<Timed>, words: Words, end: Qword): Walk
    requires es != [] && Recordable(es) && |words| == DATA_QWORDS && !UncutAt(es, |es| - 1) && Readable(es[|es| - 1].event)
  {
    CutIsSpan(es);
    AfterCut(es[|es| - 1], words, Start(es, |es| - 1), Room(es), end)
  }

  lemma TimeOf(es: seq<Timed>, begin: Qword, i: nat)
    requires InOrder(es, begin) && i < |es|
    ensures PreviousTime(es, begin, i) <= es[i].time && es[i].time - PreviousTime(es, begin, i) < TIMESTAMP_RANGE
  {
  }

  lemma LastDecoded(es: seq<Timed>, words: Words, begin: Qword, end: Qword, buffer: Name)
    requires LastCut(es, words, begin, end)
    ensures var rest := AfterLast(es, words, end);
            DecodedFrom(es, words, |es| - 1, begin, end, buffer) == Walk([LastEvent(es, words)] + rest.events, rest.mem)
  {
    hide Start, StoredCut, Readable, CutEvent, AfterCut, Process, AllDecodable, UncutAt, Room, BlockHolds, Recordable, InOrder, Layout, Body, Behind;
    LastStored(es, words);
    HoldsLength(es, words);
    var i := |es| - 1;
    TimeOf(es, begin, i);
    CutStep(es[i], words, Start(es, i), Room(es), PreviousTime(es, begin, i), end, buffer);
  }

  lemma HoldsLength(es: seq<Timed>, words: Words)
    requires BlockHolds(words, es)
    ensures |words| == DATA_QWORDS
  {
  }

  /**
   * The events before the cut one are reported exactly; of the cut one the
   * type, context, colour and time are exact and the name is what can be read.
   */
  lemma CutBlockDecodes(es: seq<Timed>, words: Words, begin: Qword, end: Qword)
    requires LastCut(es, words, begin, end)
    ensures var rest := AfterLast(es, words, end);
            ProcessBlock(words, begin, end) == Walk(ExpectedEvents(es[0..|es| - 1]) + [LastEvent(es, words)] + rest.events, rest.mem)
  {
    hide Recordable, BlockHolds, InOrder, AllDecodable, UncutAt, Readable, Room, DecodedFrom, ProcessBlock, ExpectedEvents, LastEvent, AfterLast;
    HoldsLength(es, words);
    var b := DecodePart(es, words, 0, |es| - 1, begin, end, EMPTY_NAME);
    LastDecoded(es, words, begin, end, b);
    BlockStart(es, words, begin, end);
  }

  /** The search behind the last event passes over what was stored of its arguments. */
  ghost predicate LastSafe(es: seq<Timed>, words: Words, end: Qword)
    requires es != [] && Recordable(es) && !UncutAt(es, |es| - 1)
  {
    CutIsSpan(es);
    SafeStored(es[|es| - 1], words, Start(es, |es| - 1), Room(es), end)
  }

  /** Nothing is decoded behind the last event. */
  ghost predicate LastFinished(es: seq<Timed>, words: Words, end: Qword)
    requires es != [] && Recordable(es) && |words| == DATA_QWORDS && !UncutAt(es, |es| - 1) && Readable(es[|es| - 1].event)
  {
    CutIsSpan(es);
    Finished(es[|es| - 1], words, Start(es, |es| - 1), Room(es), BehindLast(es, words), end)
  }

  /** Then the cut event is the last one reported. */
  lemma CutBlockFinished(es: seq<Timed>, words: Words, begin: Qword, end: Qword)
    requires LastCut(es, words, begin, end) && LastFinished(es, words, end)
    ensures ProcessBlock(words, begin, end) == Walk(ExpectedEvents(es[0..|es| - 1]) + [LastEvent(es, words)], MemoryAfter(es, words))
  {
    hide ProcessBlock, ExpectedEvents, LastEvent, InOrder, AllDecodable, UncutAt, Readable, Layout, Finished, StoredCut, AfterCut, Room, BlockHolds,
         Recordable, Behind, CutEventMemory;
    HoldsLength(es, words);
    CutBlockDecodes(es, words, begin, end);
    LastStored(es, words);
    FinishedEnds(es[|es| - 1], words, Start(es, |es| - 1), Room(es), end);
    assert ExpectedEvents(es[0..|es| - 1]) + [LastEvent(es, words)] + [] == ExpectedEvents(es[0..|es| - 1]) + [LastEvent(es, words)];
  }

  lemma AfterLastKeeps(es: seq<Timed>, words: Words, begin: Qword, end: Qword)
    requires LastCut(es, words, begin, end) && LastSafe(es, words, end)
    ensures AfterLast(es, words, end).mem == MemoryAfter(es, words) && |AfterLast(es, words, end).events| <= 3
  {
    hide InOrder, AllDecodable, UncutAt, Readable, Layout, StoredCut, AfterCut, Room, BlockHolds, Recordable, SafeStored, CutEventMemory;
    LastStored(es, words);
    AfterCutKeeps(es[|es| - 1], words, Start(es, |es| - 1), Room(es), end);
  }

  // Decoding again

  /** The block as its memory has it after a repair: what is left of the last event, cut at the same place. */
  function AfterRepair(es: seq<Timed>): (r: seq<Timed>)
    requires es != [] && Recordable(es) && !UncutAt(es, |es| - 1) && Readable(es[|es| - 1].event)
    ensures |r| == |es|
  {
    CutIsSpan(es);
    es[..|es| - 1] + [es[|es| - 1].(event := Extended(es[|es| - 1].event, Room(es)))]
  }

  lemma SameHeader(t: Timed, room: nat)
    requires t.event.Span? && room > 3 && Readable(t.event)
    ensures Header(Extended(t.event, room), t.time, room) == Header(t.event, t.time, room)
  {
    hide Shortened, EncodeEventInfo, LeftSlots, Wanted;
  }

  lemma SameFront(es: seq<Timed>, es': seq<Timed>, k: nat)
    requires |es'| == |es| && k < |es| && es'[..|es| - 1] == es[..|es| - 1]
    ensures es'[..k] == es[..k] && Start(es', k) == Start(es, k)
  {
    hide Layout;
    assert es'[..|es| - 1][..k] == es'[..k] && es[..|es| - 1][..k] == es[..k];
  }

  lemma FrontLies(v: Words, w: Words, mem: Words)
    requires WordsLie(w, mem, 0) && v <= w
    ensures WordsLie(v, mem, 0)
  {
    forall i | 0 <= i < |v|
      ensures mem[0 + i] == v[i]
    {
      assert mem[0 + i] == w[i];
    }
  }

  /** Only the last stored qword can have changed, and then the memory holds the event that is left. */
  lemma LastRepaired(es: seq<Timed>, words: Words)
    requires es != [] && Recordable(es) && BlockHolds(words, es) && !UncutAt(es, |es| - 1) && Readable(es[|es| - 1].event)
    ensures var r, t, p := MemoryAfter(es, words), es[|es| - 1], Start(es, |es| - 1);
            && |r| == |words| && (forall i | 0 <= i < |words| && i != EVENT_LIMIT - 1 :: r[i] == words[i])
            && (r != words ==> t.event.Span? && |Body(Shortened(t.event, Room(es)))| == Room(es) - 1
                               && StoredCut(t.(event := Extended(t.event, Room(es))), r, p, Room(es)))
  {
    hide Body, Header, Readable, CutEventMemory, Layout, Shortened, Room, Extended, WordsLie, CutLies, Recordable, UncutAt;
    LastStored(es, words);
    CutIsSpan(es);
    var t, p, room := es[|es| - 1], Start(es, |es| - 1), Room(es);
    CutEventMemoryHolds(t.event, words, p + 1, room);
    CutLiesBound(Body(t.event), words, p + 1, room - 1);
    var r := MemoryAfter(es, words);
    if r != words {
      ExtendedLies(t.event, r, p + 1, room);
      SameHeader(t, room);
    }
  }

  /** The repaired block holds the list of events with what is left of the last one. */
  lemma RepairedHolds(es: seq<Timed>, words: Words)
    requires es != [] && Recordable(es) && BlockHolds(words, es) && !UncutAt(es, |es| - 1) && Readable(es[|es| - 1].event)
    requires MemoryAfter(es, words) != words
    ensures Recordable(AfterRepair(es)) && Room(AfterRepair(es)) == Room(es) && Start(AfterRepair(es), |es| - 1) == Start(es, |es| - 1)
    ensures BlockHolds(MemoryAfter(es, words), AfterRepair(es)) && !UncutAt(AfterRepair(es), |es| - 1)
  {
    hide Body, Header, Readable, CutEventMemory, Layout, Shortened, Extended, WordsLie, WrittenAt, CutLies;
    LastRepaired(es, words);
    LastStored(es, words);
    var es', n, r := AfterRepair(es), |es| - 1, MemoryAfter(es, words);
    assert es'[..n] == es[..n];
    SameFront(es, es', n);
    forall k | 0 <= k < |es'|
      ensures Start(es', k) < BIASED_LIMIT
    {
      SameFront(es, es', k);
      assert Start(es, k) < BIASED_LIMIT;
    }
    var t, p, room := es'[n], Start(es, n), Room(es);
    CutLiesBound(Body(t.event), r, p + 1, room - 1);
    WrittenCut(t, p, room);
    LayoutStep(es', n);
    assert es'[..n + 1] == es';
    LayoutPrefix(es, n);
    var w := [Header(t.event, t.time, room)];
    FrontLies(Layout(es[..n]), Layout(es), words);
    LiesElsewhere(Layout(es[..n]), words, r, 0, EVENT_LIMIT - 1);
    CutFront(t.event, r, p + 1, room - 1);
    LiesJoined(w, Body(t.event)[..room - 1], r, p);
    LiesJoined(Layout(es[..n]), WrittenAt(t, p), r, 0);
  }

  lemma CutFront(e: Event, mem: Words, at: nat, room: nat)
    requires CutLies(Body(e), mem, at, room)
    ensures room < |Body(e)| && WordsLie(Body(e)[..room], mem, at)
  {
  }

  lemma SameDecodable(es: seq<Timed>, es': seq<Timed>, k: nat, end: Qword)
    requires |es'| == |es| && k + 1 < |es| && Decodable(es, k, end)
    requires es'[..|es| - 1] == es[..|es| - 1] && es'[|es| - 1].time == es[|es| - 1].time
    ensures Decodable(es', k, end)
  {
    hide Readable, SearchSafe, SizeKept, Layout, Body;
    assert es'[..|es| - 1][..k] == es'[..k] && es[..|es| - 1][..k] == es[..k];
    assert es'[k] == es'[..|es| - 1][k] == es[k];
    assert es'[k + 1].time == es[k + 1].time by {
      if k + 1 < |es| - 1 {
        assert es'[k + 1] == es'[..|es| - 1][k + 1] == es[k + 1];
      }
    }
  }

  lemma RepairedInOrder(es: seq<Timed>, es': seq<Timed>, begin: Qword)
    requires es != [] && |es'| == |es| && es'[..|es| - 1] == es[..|es| - 1] && es'[|es| - 1].time == es[|es| - 1].time
    requires InOrder(es, begin)
    ensures InOrder(es', begin)
  {
    var n := |es| - 1;
    forall k | 0 <= k < |es|
      ensures PreviousTime(es', begin, k) == PreviousTime(es, begin, k) && es'[k].time == es[k].time
    {
      assert k < n ==> es'[k] == es'[..n][k] == es[..n][k];
      assert 0 < k ==> es'[k - 1] == es'[..n][k - 1] == es[..n][k - 1];
    }
    assert forall k | 0 <= k < |es| :: es[k].time >= PreviousTime(es, begin, k);
  }

  /** The repaired block is once more one whose last event was cut. */
  lemma RepairedCut(es: seq<Timed>, words: Words, begin: Qword, end: Qword)
    requires LastCut(es, words, begin, end) && MemoryAfter(es, words) != words
    ensures LastCut(AfterRepair(es), MemoryAfter(es, words), begin, end)
  {
    hide Readable, SearchSafe, SizeKept, Layout, Body, Shortened, Extended, MemoryAfter, ExpectedEvent, Decodable, BlockHolds, Recordable, Room, UncutAt, InOrder;
    var es', n := AfterRepair(es), |es| - 1;
    CutIsSpan(es);
    RepairedHolds(es, words);
    assert es'[..n] == es[..n];
    RepairedInOrder(es, es', begin);
    ExtendedReadable(es[n].event, Room(es));
    forall k | 0 <= k < n
      ensures Decodable(es', k, end)
    {
      assert Decodable(es, k, end);
      SameDecodable(es, es', k, end);
    }
  }

  /** And it decodes as before. */
  lemma SameAgain(es: seq<Timed>, words: Words, begin: Qword, end: Qword)
    requires LastCut(es, words, begin, end) && MemoryAfter(es, words) != words
    ensures LastCut(AfterRepair(es), MemoryAfter(es, words), begin, end) && |words| == DATA_QWORDS == |MemoryAfter(es, words)|
    ensures LastEvent(AfterRepair(es), MemoryAfter(es, words)) == LastEvent(es, words)
    ensures AfterLast(AfterRepair(es), MemoryAfter(es, words), end) == AfterLast(es, words, end)
  {
    hide Readable, Layout, Body, Shortened, CutEventMemory, CutName, CutData, BlockHolds, Recordable, Room, UncutAt, InOrder, AllDecodable, Extended,
         Behind, Process, StoredCut, ArgumentLimit;
    RepairedCut(es, words, begin, end);
    CutIsSpan(es);
    HoldsLength(es, words);
    LastRepaired(es, words);
    RepairedHolds(es, words);
    LastStored(es, words);
    var r, e, p, room := MemoryAfter(es, words), es[|es| - 1].event, Start(es, |es| - 1), Room(es);
    SameBehind(words, r, EVENT_LIMIT, room);
    ExtendedReads(e, r, p + 1, room, Behind(words, EVENT_LIMIT, room));
    ExtendedFields(e, room);
  }

  lemma ExtendedFields(e: Event, room: nat)
    requires e.Span? && room > 3 && Readable(e)
    ensures var x := Extended(e, room);
            x.Span? && x.marker == e.marker && x.color == e.color && x.context == e.context
  {
  }

  /**
   * Decoding is repeatable: it changes at most the last qword of a cut event,
   * and decoding the changed block gives the same events and changes nothing.
   */
  lemma CutBlockRepeatable(es: seq<Timed>, words: Words, begin: Qword, end: Qword)
    requires LastCut(es, words, begin, end) && LastSafe(es, words, end)
    ensures var first := ProcessBlock(words, begin, end);
            && (forall i | 0 <= i < |words| && i != EVENT_LIMIT - 1 :: first.mem[i] == words[i])
            && ProcessBlock(first.mem, begin, end) == first
  {
    hide Recordable, BlockHolds, InOrder, AllDecodable, UncutAt, Readable, Room, ProcessBlock, ExpectedEvent, LastEvent, MemoryAfter, AfterLast, Layout,
         LastSafe, Extended, Body, ExpectedEvents;
    CutBlockDecodes(es, words, begin, end);
    AfterLastKeeps(es, words, begin, end);
    LastRepaired(es, words);
    var mem := MemoryAfter(es, words);
    if mem != words {
      SameAgain(es, words, begin, end);
      CutBlockDecodes(AfterRepair(es), mem, begin, end);
      assert AfterRepair(es)[0..|es| - 1] == es[0..|es| - 1];
    }
  }

  /** A cut format string is reported as a proper prefix of itself, and decoding such a block is repeatable in any case. */
  lemma CutFormatPrefix(es: seq<Timed>, words: Words, begin: Qword, end: Qword)
    requires LastCut(es, words, begin, end) && es[|es| - 1].event.Span? && FormatCut(es[|es| - 1].event, Room(es))
    ensures LastSafe(es, words, end)
    ensures |words| == DATA_QWORDS && LastEvent(es, words).name.Some?
    ensures var e, name := es[|es| - 1].event, LastEvent(es, words).name.value;
            if name.Plain? then Room(es) <= SIZE_MAX && name.isAnsi == IsAnsi(e.format) && name.chars < FormatString(e.format).chars
            else Room(es) > SIZE_MAX && name.isAnsi == IsAnsi(e.format) && name.format < FormatString(e.format).chars
  {
    hide Recordable, InOrder, AllDecodable, UncutAt, Readable, Layout, Room, PackQword, Prefix, CutExpected, PushAll, Slots, FormatRoom, BlockHolds, SafeStored;
    HoldsLength(es, words);
    var t, room := es[|es| - 1], Room(es);
    CutFormatSafe(t, words, Start(es, |es| - 1), room, end);
    CutFormatRoom(t.event, room);
    LeftIsShortened(t.event, room);
  }

  /**
   * When such an event has more than 127 qwords, what is left of its format
   * string still asks for arguments; there are none exactly if it asks for
   * none, and a number that it asks for first is the end marker itself.
   */
  lemma LongCutFormat(e: Event, room: nat, tail: Words)
    requires e.Span? && Readable(e) && room > SIZE_MAX && FormatCut(e, room) && tail != [] && tail[0] == BLOCK_END_MARKER
    ensures var name, slots := CutName(e, room, tail), LeftSlots(e, room);
            && name.Formatted? && (name.args == [] <==> slots == [])
            && (slots != [] && slots[0] == NumberSlot ==> name.args[0] == Number(BLOCK_END_MARKER))
  {
    hide Slots, Readable, FormatWords, Prefix, LeftFormat;
    var slots := LeftSlots(e, room);
    NothingLeft(slots, [], [], 0, 0, tail);
    FirstPushed(Beyond(slots, tail));
  }

  lemma FirstPushed(args: seq<DecodedArg>)
    ensures PushAll([], args) == [] <==> args == []
    ensures args != [] ==> PushAll([], args)[0] == args[0]
  {
    if args != [] {
      FirstStays([args[0]], args[1..]);
      assert [] + [args[0]] == [args[0]];
    }
  }

  lemma {:induction false} FirstStays(args: seq<DecodedArg>, more: seq<DecodedArg>)
    requires args != []
    ensures PushAll(args, more) != [] && PushAll(args, more)[0] == args[0]
    decreases |more|
  {
    if more != [] {
      FirstStays(Push(args, more[0]), more[1..]);
    }
  }
}
