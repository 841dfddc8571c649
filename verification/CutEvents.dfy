// Reading an event of which only a part was stored, at the end of a block.
module CutEvents {
  import opened Wrappers
  import opened Qwords
  import opened Memory
  import opened EventFormat
  import opened EventStrings
  import opened EventWriter
  import opened StringReading
  import opened EventReading
  import opened StringRoundTrip
  import opened ArgumentRoundTrip
  import opened EventRoundTrip
  import opened CutRoundTrip

  /** Qwords left for the format string and the arguments. */
  function FormatRoom(e: Event, room: nat): (r: nat)
    requires e.Span? && room > 3
    ensures r > 0
  {
    room - 1 - |Prefix(e)|
  }

  predicate FormatCut(e: Event, room: nat)
    requires e.Span? && room > 3
  {
    |FormatWords(e.format)| > FormatRoom(e, room)
  }

  /** The cut event with what can be read of it. */
  function Shortened(e: Event, room: nat): (r: Event)
    requires e.Span? && room > 3
    ensures r.Span? && r.marker == e.marker && r.color == e.color && r.context == e.context && IsAnsi(r.format) == IsAnsi(e.format)
  {
    var n := FormatRoom(e, room);
    if FormatCut(e, room) then e.(format := Format(Shorter(e.format.str, n)), args := [])
    else e.(args := CutArgs(e.args, n - |FormatWords(e.format)|))
  }

  /** Qwords up to the end of the format string, or of what was stored of it, header included. */
  function Used(e: Event, room: nat): nat
    requires e.Span? && room > 3
  {
    if FormatCut(e, room) then room else ArgsOffset(e)
  }

  /** The decoder takes the event for one without arguments. */
  predicate PlainRead(e: Event, room: nat)
    requires e.Span? && room > 3
  {
    Used(e, room) == EventSize(room) as int
  }

  /** The arguments of which something can have been stored, and in how many qwords. */
  function KeptArgs(e: Event, room: nat): seq<Arg>
    requires e.Span? && room > 3
  {
    if FormatCut(e, room) then [] else e.args
  }

  function KeptRoom(e: Event, room: nat): nat
    requires e.Span? && room > 3
  {
    if Used(e, room) <= room then room - Used(e, room) else 0
  }

  /** What is left of the format string. */
  function LeftFormat(e: Event, room: nat): (r: seq<Char>)
    requires e.Span? && room > 3 && Readable(e)
    ensures forall c <- r :: c != 0
  {
    ShortenedReadable(e, room);
    FormatString(Shortened(e, room).format).chars
  }

  /** The slots that what is left of the format string asks for. */
  function LeftSlots(e: Event, room: nat): seq<Slot>
    requires e.Span? && room > 3 && Readable(e)
  {
    Slots(LeftFormat(e, room), 0, 0)
  }

  /** The name that the decoder gives a cut event with `tail` behind it. */
  function CutName(e: Event, room: nat, tail: Words): Name
    requires e.Span? && room > 3 && Readable(e)
  {
    var s := Shortened(e, room);
    if PlainRead(e, room) then PlainOf(s)
    else
      var args := CutExpected(LeftSlots(e, room), KeptArgs(e, room), KeptRoom(e, room), tail);
      Formatted(IsAnsi(e.format), LeftFormat(e, room), PushAll([], args))
  }

  /** Qwords of the body that the reader accounts for. */
  function CutQwords(e: Event, room: nat, tail: Words): int
    requires e.Span? && room > 3 && Readable(e)
  {
    Used(e, room) - 1
    + if PlainRead(e, room) then 0 else CutTaken(LeftSlots(e, room), KeptArgs(e, room), KeptRoom(e, room), tail)
  }

  lemma UsedBound(e: Event, room: nat)
    requires e.Span? && room > 3
    ensures Used(e, room) > 1 + |Prefix(e)|
  {
  }

  function CutData(e: Event, room: nat, tail: Words): EventData
    requires e.Span? && room > 3 && Readable(e)
  {
    UsedBound(e, room);
    EventData(ColorValue(e.color), ContextValue(e.context), 8 * (Used(e, room) - 1 - |Prefix(e)|), 8 * CutQwords(e, room, tail))
  }

  function CutEventMemory(e: Event, words: Words, at: nat, room: nat): Words
    requires e.Span? && room > 3 && Readable(e)
  {
    if FormatCut(e, room) then Repaired(e.format.str, words, at + |Prefix(e)|, FormatRoom(e, room))
    else if PlainRead(e, room) then words
    else CutMemory(EventSlots(e), e.args, words, at + ArgsOffset(e) - 1, room - ArgsOffset(e))
  }

  /** Where the decoder would stop reading arguments of an event that was cut at `e`. */
  function ArgumentLimit(mem: Words, e: nat, room: nat): int {
    if room < SIZE_MAX then e else |mem|
  }

  /** What it would read behind the event. */
  function Behind(mem: Words, e: nat, room: nat): Words
    requires e <= |mem|
  {
    if room < SIZE_MAX then [] else mem[e..]
  }

  lemma BehindIsTail(mem: Words, e: nat, room: nat)
    requires |mem| == e + 2 && mem[e] == BLOCK_END_MARKER
    ensures TailOk(mem, e, ArgumentLimit(mem, e, room)) && Tail(mem, e, ArgumentLimit(mem, e, room)) == Behind(mem, e, room)
  {
  }

  lemma CutBodyParts(e: Event, mem: Words, at: nat, room: nat)
    requires e.Span? && room > 3 && CutLies(Body(e), mem, at, room - 1)
    ensures WordsLie(Prefix(e), mem, at)
    ensures FormatCut(e, room) ==> CutLies(FormatWords(e.format), mem, at + |Prefix(e)|, FormatRoom(e, room))
    ensures !FormatCut(e, room) ==>
              && WordsLie(FormatWords(e.format), mem, at + |Prefix(e)|) && ArgsOffset(e) <= room
              && CutLies(ArgsWords(e.args), mem, at + ArgsOffset(e) - 1, room - ArgsOffset(e))
  {
    hide CutLies, ArgsWords, FormatWords, Body, Prefix;
    BodyIs(e);
    CutLiesParts(Prefix(e), FormatWords(e.format) + ArgsWords(e.args), mem, at, room - 1);
    CutLiesParts(FormatWords(e.format), ArgsWords(e.args), mem, at + |Prefix(e)|, FormatRoom(e, room));
  }

  lemma BodyIs(e: Event)
    requires e.Span?
    ensures Body(e) == Prefix(e) + (FormatWords(e.format) + ArgsWords(e.args))
  {
    hide ArgsWords, FormatWords;
  }

  lemma CutFormatString(e: Event, mem: Words, p: nat, room: nat)
    requires e.Span? && room > 3 && GoodFormat(e.format) && CutLies(FormatWords(e.format), mem, p, FormatRoom(e, room))
    ensures e.format.Format? && CutShort(e.format.str, mem, p, FormatRoom(e, room), |mem|)
  {
    hide CutShort;
    assert 0 < FormatRoom(e, room);
    CutStringLies(e.format.str, mem, p, FormatRoom(e, room), |mem|);
  }

  /** What reading a cut format string gives. */
  lemma CutFormatText(e: Event, info: EventInfo, mem: Words, p: nat, room: nat)
    requires e.Span? && room > 3 && Describes(info, e) && GoodFormat(e.format)
    requires CutLies(FormatWords(e.format), mem, p, FormatRoom(e, room)) && FormatCut(e, room)
    ensures e.format.Format?
    ensures var read, m := ReadStringSpec(mem, p, |mem|, Some(info.metadata)), FormatRoom(e, room);
            && read.info.bytesUsed == 8 * m && read.mem == Repaired(e.format.str, mem, p, m) && read.info.isAnsi == IsAnsi(e.format)
            && SavedText(read.info, read.mem) == FormatString(Shortened(e, room).format).chars
            && PlainName(read.info, read.mem) == PlainOf(Shortened(e, room))
  {
    hide CharsReadSpec, CStringAt, Metadata, FormatWords, CutLies, Repaired, CutShort, SavedText, Prefix, PackQword, FormatRoom;
    MetadataFields(e);
    CutFormatRoom(e, room);
    CutFormatString(e, mem, p, room);
    ReadCut(e.format.str, mem, p, p, FormatRoom(e, room), |mem|);
    assert LocateString(mem, p, |mem|, Some(info.metadata)) == Starts(e.format.str.ansi, 8, 8 * p);
  }

  /** The arguments, when the format string was cut: there are none, so all is read behind the event. */
  lemma PopulateBehind(e: Event, mem: Words, at: nat, room: nat)
    requires e.Span? && room > 3 && Readable(e) && FormatCut(e, room)
    requires |mem| == at + room + 1 && mem[at + room - 1] == BLOCK_END_MARKER
    ensures var source, tail := at + room - 1, Behind(mem, at + room - 1, room);
            var a := Populate(LeftFormat(e, room), 0, ArgState([], source, 0, mem), ArgumentLimit(mem, source, room));
            && a.args == PushAll([], CutExpected(LeftSlots(e, room), [], 0, tail)) && a.mem == mem
            && a.bytesUsed == 8 * CutTaken(LeftSlots(e, room), [], 0, tail)
  {
    hide Slots, Populate, TailOk, Tail, Behind, ArgumentLimit, LeftFormat, FormatCut, CutExpected, CutTaken, PushAll, TakeSlots, Readable;
    var source := at + room - 1;
    var limit, slots := ArgumentLimit(mem, source, room), LeftSlots(e, room);
    BehindIsTail(mem, source, room);
    PopulateIsSlots(LeftFormat(e, room), 0, ArgState([], source, 0, mem), limit);
    TakeTail(slots, ArgState([], source, 0, mem), limit);
    NothingLeft(slots, [], mem, source, 0, Behind(mem, source, room));
  }

  /** The arguments, when the format string was stored whole. */
  lemma PopulateCut(e: Event, mem: Words, at: nat, room: nat)
    requires e.Span? && room > 3 && Readable(e) && CutLies(Body(e), mem, at, room - 1) && !FormatCut(e, room) && |mem| == at + room + 1
    ensures ArgsOffset(e) <= room
    ensures var source, n, tail := at + ArgsOffset(e) - 1, room - ArgsOffset(e), Behind(mem, at + room - 1, room);
            var a := Populate(FormatString(e.format).chars, 0, ArgState([], source, 0, mem), ArgumentLimit(mem, at + room - 1, room));
            && a.args == PushAll([], CutExpected(EventSlots(e), e.args, n, tail))
            && a.bytesUsed == 8 * CutTaken(EventSlots(e), e.args, n, tail)
            && a.mem == CutMemory(EventSlots(e), e.args, mem, source, n)
  {
    hide Body, CutLies, Prefix, FormatWords, FormatString, ArgsWords, Agree, PushAll, WordsLie, CutMemory, CutExpected, CutTaken, Slots, Populate,
         TailOk, Tail, Behind, ArgumentLimit;
    CutBodyParts(e, mem, at, room);
    CutLiesBound(ArgsWords(e.args), mem, at + ArgsOffset(e) - 1, room - ArgsOffset(e));
    var source := at + ArgsOffset(e) - 1;
    var limit := ArgumentLimit(mem, at + room - 1, room);
    BehindIsTail(mem, at + room - 1, room);
    PopulateIsSlots(FormatString(e.format).chars, 0, ArgState([], source, 0, mem), limit);
    TakeCut(EventSlots(e), e.args, ArgState([], source, 0, mem), limit, room - ArgsOffset(e));
  }

  /** Reading a cut event, of whatever length. */
  lemma ReadCutEvent(e: Event, info: EventInfo, mem: Words, at: nat, room: nat)
    requires e.Span? && room > 3 && Describes(info, e) && Readable(e) && info.size == EventSize(room)
    requires CutLies(Body(e), mem, at, room - 1) && |mem| == at + room + 1
    ensures var tail := Behind(mem, at + room - 1, room);
            (ReadFormatted(mem, info, at, |mem|)
             == ReadResult(CutData(e, room, tail), Some(CutName(e, room, tail)), CutEventMemory(e, mem, at, room)))
  {
    hide Body, CutLies, ReadFormatted, CutData, CutName, CutEventMemory, Behind, Readable;
    CutLiesBound(Body(e), mem, at, room - 1);
    if FormatCut(e, room) {
      ReadCutFormat(e, info, mem, at, room);
    } else {
      ReadCutArgs(e, info, mem, at, room);
    }
  }

  lemma ReadCutFormat(e: Event, info: EventInfo, mem: Words, at: nat, room: nat)
    requires e.Span? && room > 3 && Describes(info, e) && Readable(e) && info.size == EventSize(room)
    requires CutLies(Body(e), mem, at, room - 1) && |mem| == at + room + 1 && FormatCut(e, room)
    requires mem[at + room - 1] == BLOCK_END_MARKER
    ensures var tail := Behind(mem, at + room - 1, room);
            (ReadFormatted(mem, info, at, |mem|)
             == ReadResult(CutData(e, room, tail), Some(CutName(e, room, tail)), CutEventMemory(e, mem, at, room)))
  {
    hide Metadata, FormatWords, Body, CutLies, Repaired, ReadPrefix, Prefix, Agree, EventSlots, Populate, ReadStringSpec, PlainName, Shortened,
         CutExpected, CutTaken, Behind, PushAll, SavedText, FormatString, LeftSlots, Readable, Slots;
    ReadableFormat(e);
    CutBodyParts(e, mem, at, room);
    ReadPrefixStored(e, info, mem, at);
    var p, m := at + |Prefix(e)|, FormatRoom(e, room);
    CutFormatText(e, info, mem, p, room);
    if !PlainRead(e, room) {
      var r := Repaired(e.format.str, mem, p, m);
      RepairKeeps(e.format.str, mem, p, m);
      SameBehind(mem, r, at + room - 1, room);
      PopulateBehind(e, r, at, room);
    }
  }

  lemma ReadableFormat(e: Event)
    requires e.Span? && Readable(e)
    ensures GoodFormat(e.format)
  {
  }

  lemma SameBehind(mem: Words, r: Words, e: nat, room: nat)
    requires |mem| == |r| && e <= |mem| && forall i | e <= i < |mem| :: r[i] == mem[i]
    ensures Behind(r, e, room) == Behind(mem, e, room) && ArgumentLimit(r, e, room) == ArgumentLimit(mem, e, room)
  {
  }

  lemma ReadCutArgs(e: Event, info: EventInfo, mem: Words, at: nat, room: nat)
    requires e.Span? && room > 3 && Describes(info, e) && Readable(e) && info.size == EventSize(room)
    requires CutLies(Body(e), mem, at, room - 1) && |mem| == at + room + 1 && !FormatCut(e, room)
    ensures var tail := Behind(mem, at + room - 1, room);
            (ReadFormatted(mem, info, at, |mem|)
             == ReadResult(CutData(e, room, tail), Some(CutName(e, room, tail)), CutEventMemory(e, mem, at, room)))
  {
    hide ReadPrefix, ReadStringSpec, SavedText, Populate, Metadata, Body, CutLies, Prefix, FormatWords, FormatString, ArgsWords,
         Agree, GoodFormat, PushAll, WordsLie, CutMemory, CutExpected, CutTaken, EncodeStringInfo, Slots, Behind, Shortened, LeftSlots, LeftFormat;
    CutBodyParts(e, mem, at, room);
    CutLiesBound(ArgsWords(e.args), mem, at + ArgsOffset(e) - 1, room - ArgsOffset(e));
    ReadPrefixStored(e, info, mem, at);
    ReadFormatStored(e, info, mem, at + |Prefix(e)|, |mem|);
    WholeFormat(e, room);
    if !PlainRead(e, room) {
      PopulateCut(e, mem, at, room);
    }
  }

  lemma WholeFormat(e: Event, room: nat)
    requires e.Span? && room > 3 && Readable(e) && !FormatCut(e, room)
    ensures Shortened(e, room).Span? && Shortened(e, room).format == e.format
    ensures LeftFormat(e, room) == FormatString(e.format).chars && LeftSlots(e, room) == EventSlots(e)
    ensures PlainOf(Shortened(e, room)) == PlainOf(e)
  {
    hide Slots;
  }

  lemma ShortenedReadable(e: Event, room: nat)
    requires e.Span? && room > 3 && Readable(e)
    ensures Readable(Shortened(e, room)) && Shortened(e, room).Span?
  {
    hide FormatWords, Shorter, Prefix, Slots, Agree, CutArgs, PackQword;
    if FormatCut(e, room) {
      CutFormatRoom(e, room);
      NothingAgrees();
      ShorterGood(e.format.str, FormatRoom(e, room));
    } else {
      CutArgsGood(EventSlots(e), e.args, FormatRoom(e, room) - |FormatWords(e.format)|);
    }
  }

  lemma NothingAgrees()
    ensures forall slots: seq<Slot> :: Agree(slots, [])
  {
  }

  lemma CutFormatRoom(e: Event, room: nat)
    requires e.Span? && room > 3 && FormatCut(e, room)
    ensures e.format.Format? && FormatRoom(e, room) * e.format.str.Lanes() <= |e.format.str.chars|
  {
    FullChunks(e.format.str, FormatRoom(e, room));
  }

  /**
   * Only the last stored qword can change; if it does, the memory now holds the
   * shortened event whole.
   */
  lemma CutEventMemoryHolds(e: Event, mem: Words, at: nat, room: nat)
    requires e.Span? && room > 3 && Readable(e) && CutLies(Body(e), mem, at, room - 1)
    ensures var r := CutEventMemory(e, mem, at, room);
            && |r| == |mem| && (forall i | 0 <= i < |mem| && i != at + room - 2 :: r[i] == mem[i])
            && (r == mem || (WordsLie(Body(Shortened(e, room)), r, at) && |Body(Shortened(e, room))| == room - 1))
  {
    hide Body, CutLies, Prefix, FormatWords, ArgsWords, Repaired, Shorter, WordsLie, CutMemory, Agree, CutArgs, FormatCut, FormatRoom, EventSlots, GoodFormat, FormatString;
    CutBodyParts(e, mem, at, room);
    if FormatCut(e, room) {
      CutFormatHolds(e, mem, at, room);
    } else if !PlainRead(e, room) {
      CutArgsHold(e, mem, at, room);
    }
  }

  lemma CutFormatHolds(e: Event, mem: Words, at: nat, room: nat)
    requires e.Span? && room > 3 && Readable(e) && FormatCut(e, room)
    requires WordsLie(Prefix(e), mem, at) && CutLies(FormatWords(e.format), mem, at + |Prefix(e)|, FormatRoom(e, room))
    ensures e.format.Format?
    ensures var r := Repaired(e.format.str, mem, at + |Prefix(e)|, FormatRoom(e, room));
            && |r| == |mem| && (forall i | 0 <= i < |mem| && i != at + room - 2 :: r[i] == mem[i])
            && WordsLie(Body(Shortened(e, room)), r, at) && |Body(Shortened(e, room))| == room - 1
  {
    hide Body, CutLies, Prefix, Repaired, Shorter, WordsLie, StringWords, PackQword;
    CutFormatRoom(e, room);
    var s, p, m := e.format.str, at + |Prefix(e)|, FormatRoom(e, room);
    CutLiesBound(StringWords(s), mem, p, m);
    CutChunks(s, mem, p, m);
    RepairKeeps(s, mem, p, m);
    RepairedIsShorter(s, mem, p, m);
    var r := Repaired(s, mem, p, m);
    ShorterWords(s, r, p, m);
    LiesElsewhere(Prefix(e), mem, r, at, p + m - 1);
    LiesJoined(Prefix(e), StringWords(Shorter(s, m)), r, at);
    ShortenedFormatBody(e, room);
  }

  lemma ShortenedFormatBody(e: Event, room: nat)
    requires e.Span? && room > 3 && FormatCut(e, room)
    ensures e.format.Format?
    ensures Body(Shortened(e, room)) == Prefix(e) + StringWords(Shorter(e.format.str, FormatRoom(e, room)))
    ensures |Body(Shortened(e, room))| == room - 1
  {
    hide Shorter, PackQword;
    CutFormatRoom(e, room);
    var w := Prefix(e) + StringWords(Shorter(e.format.str, FormatRoom(e, room)));
    assert w + [] == w;
  }

  lemma CutArgsHold(e: Event, mem: Words, at: nat, room: nat)
    requires e.Span? && room > 3 && Readable(e) && !FormatCut(e, room) && ArgsOffset(e) <= room
    requires WordsLie(Prefix(e), mem, at) && WordsLie(FormatWords(e.format), mem, at + |Prefix(e)|)
    requires CutLies(ArgsWords(e.args), mem, at + ArgsOffset(e) - 1, room - ArgsOffset(e))
    ensures var r := CutMemory(EventSlots(e), e.args, mem, at + ArgsOffset(e) - 1, room - ArgsOffset(e));
            && |r| == |mem| && (forall i | 0 <= i < |mem| && i != at + room - 2 :: r[i] == mem[i])
            && (r == mem || (WordsLie(Body(Shortened(e, room)), r, at) && |Body(Shortened(e, room))| == room - 1))
  {
    hide CutLies, Prefix, FormatWords, ArgsWords, WordsLie, CutMemory, Agree, CutArgs, EventSlots, GoodFormat, Dangling, Shortened, Body;
    var v, n := Prefix(e) + FormatWords(e.format), room - ArgsOffset(e);
    var p := at + ArgsOffset(e) - 1;
    CutLiesBound(ArgsWords(e.args), mem, p, n);
    CutMemoryHolds(EventSlots(e), e.args, mem, p, n);
    CutArgsPrefix(e.args, n);
    var r := CutMemory(EventSlots(e), e.args, mem, p, n);
    if r != mem {
      LiesJoined(Prefix(e), FormatWords(e.format), mem, at);
      LiesElsewhere(v, mem, r, at, p + n - 1);
      LiesJoined(v, ArgsWords(CutArgs(e.args, n)), r, at);
      BodySame(e, room);
    }
  }

  lemma PrefixSame(e: Event, room: nat)
    requires e.Span? && room > 3
    ensures Prefix(Shortened(e, room)) == Prefix(e)
  {
  }

  lemma BodySame(e: Event, room: nat)
    requires e.Span? && room > 3 && !FormatCut(e, room)
    ensures Body(Shortened(e, room))
         == Prefix(e) + FormatWords(e.format) + ArgsWords(CutArgs(e.args, FormatRoom(e, room) - |FormatWords(e.format)|))
  {
  }

  // What is left of a cut event, as a cut event of its own

  /** An argument such as the next slot asks for. */
  function Wanted(slots: seq<Slot>, n: nat): Arg {
    if n < |slots| && slots[n] == TextSlot then Str(CString(false, [], [], 0)) else Value(0)
  }

  /** What is left of the event, with one more argument that nothing was stored of. */
  function Extended(e: Event, room: nat): (r: Event)
    requires e.Span? && room > 3 && Readable(e)
    ensures r.Span?
  {
    var s := Shortened(e, room);
    s.(args := s.args + [Wanted(LeftSlots(e, room), |s.args|)])
  }

  lemma WantedGood(slots: seq<Slot>, n: nat)
    ensures GoodArg(Wanted(slots, n))
  {
    hide PackQword;
    var s := CString(false, [], [], 0);
    NoMarkerExact(s);
    assert s.MemByte(0) != MARKER_BYTES[0];
  }

  lemma ExtendedReadable(e: Event, room: nat)
    requires e.Span? && room > 3 && Readable(e)
    ensures Readable(Extended(e, room)) && EventSlots(Extended(e, room)) == LeftSlots(e, room)
  {
    hide Slots, Shortened, GoodArg, Wanted, GoodString;
    ShortenedReadable(e, room);
    var s, slots := Shortened(e, room), LeftSlots(e, room);
    WantedGood(slots, |s.args|);
    WantedAgrees(slots, s.args);
  }

  lemma WantedAgrees(slots: seq<Slot>, args: seq<Arg>)
    requires Agree(slots, args)
    ensures Agree(slots, args + [Wanted(slots, |args|)])
  {
  }

  lemma ExtendedBody(e: Event, room: nat)
    requires e.Span? && room > 3 && Readable(e)
    ensures Body(Extended(e, room)) == Body(Shortened(e, room)) + ArgWords(Wanted(LeftSlots(e, room), |Shortened(e, room).args|))
    ensures Prefix(Extended(e, room)) == Prefix(e)
  {
    hide Shortened, ArgWords, LeftSlots, Wanted;
    var s := Shortened(e, room);
    ArgsSnoc(s.args, Wanted(LeftSlots(e, room), |s.args|));
    PrefixSame(e, room);
  }

  lemma {:induction false} ArgsSnoc(args: seq<Arg>, a: Arg)
    ensures ArgsWords(args + [a]) == ArgsWords(args) + ArgWords(a)
  {
    hide ArgWords;
    if args == [] {
      OneArg(a);
      assert args + [a] == [a];
    } else {
      assert (args + [a])[1..] == args[1..] + [a];
      ArgsSnoc(args[1..], a);
    }
  }

  /** It lies where the shortened event lies, cut behind it. */
  lemma ExtendedLies(e: Event, mem: Words, at: nat, room: nat)
    requires e.Span? && room > 3 && Readable(e)
    requires WordsLie(Body(Shortened(e, room)), mem, at) && |Body(Shortened(e, room))| == room - 1
    requires at + room - 1 < |mem| && mem[at + room - 1] == BLOCK_END_MARKER
    ensures CutLies(Body(Extended(e, room)), mem, at, room - 1)
  {
    hide Body, Shortened, ArgWords, LeftSlots;
    ExtendedBody(e, room);
    var w, v := Body(Shortened(e, room)), ArgWords(Wanted(LeftSlots(e, room), |Shortened(e, room).args|));
    SomeWords(Wanted(LeftSlots(e, room), |Shortened(e, room).args|));
    assert (w + v)[..room - 1] == w;
  }

  /** Where its arguments begin. */
  lemma ExtendedOffset(e: Event, room: nat)
    requires e.Span? && room > 3 && Readable(e) && |Body(Shortened(e, room))| == room - 1
    ensures !FormatCut(Extended(e, room), room) && ArgsOffset(Extended(e, room)) == Used(e, room) <= room
    ensures Used(Extended(e, room), room) == Used(e, room) && KeptRoom(Extended(e, room), room) == KeptRoom(e, room)
    ensures |ArgsWords(Shortened(e, room).args)| == KeptRoom(e, room)
  {
    hide Shorter, ArgsWords, CutArgs, Wanted, LeftSlots, PackQword;
    PrefixSame(e, room);
    ShortenedLength(e, room);
    if FormatCut(e, room) {
      CutFormatRoom(e, room);
    }
  }

  lemma ShortenedLength(e: Event, room: nat)
    requires e.Span? && room > 3
    ensures Shortened(e, room).Span?
    ensures |Body(Shortened(e, room))|
         == |Prefix(e)| + |FormatWords(Shortened(e, room).format)| + |ArgsWords(Shortened(e, room).args)|
  {
    hide Shortened, ArgsWords, FormatWords;
    PrefixSame(e, room);
  }

  lemma ExtendedSame(e: Event, room: nat)
    requires e.Span? && room > 3 && Readable(e) && |Body(Shortened(e, room))| == room - 1
    ensures Readable(Extended(e, room)) && !FormatCut(Extended(e, room), room)
    ensures LeftSlots(Extended(e, room), room) == LeftSlots(e, room) == EventSlots(Extended(e, room))
    ensures LeftFormat(Extended(e, room), room) == LeftFormat(e, room)
    ensures Used(Extended(e, room), room) == Used(e, room) <= room && KeptRoom(Extended(e, room), room) == KeptRoom(e, room)
    ensures Prefix(Extended(e, room)) == Prefix(e)
    ensures KeptArgs(Extended(e, room), room) == Extended(e, room).args
  {
    hide Shortened, ArgsWords, Slots, FormatCut, Readable, Wanted, Body, Used, KeptRoom, LeftFormat, FormatString, Prefix, FormatWords;
    ExtendedReadable(e, room);
    ExtendedOffset(e, room);
    ExtendedBody(e, room);
    WholeFormat(Extended(e, room), room);
    LeftIsShortened(e, room);
  }

  /** It is read as the cut event was. */
  lemma ExtendedReads(e: Event, mem: Words, at: nat, room: nat, tail: Words)
    requires e.Span? && room > 3 && Readable(e) && |Body(Shortened(e, room))| == room - 1
    ensures Readable(Extended(e, room))
    ensures CutName(Extended(e, room), room, tail) == CutName(e, room, tail)
    ensures CutData(Extended(e, room), room, tail) == CutData(e, room, tail)
    ensures CutEventMemory(Extended(e, room), mem, at, room) == mem
  {
    hide Shortened, ArgsWords, Slots, CutExpected, CutTaken, CutMemory, PushAll, FormatCut, Readable, Wanted, Body, KeptRoom, LeftSlots, LeftFormat,
         FormatString, Prefix, KeptArgs, Used;
    var s := Shortened(e, room);
    var more := Wanted(LeftSlots(e, room), |s.args|);
    ExtendedSame(e, room);
    ExtendedShortened(e, room);
    ExtendedArgs(e, room, more, tail);
    ExtendedMemory(e, mem, at, room);
  }

  lemma ExtendedMemory(e: Event, mem: Words, at: nat, room: nat)
    requires e.Span? && room > 3 && Readable(e) && |Body(Shortened(e, room))| == room - 1 && Readable(Extended(e, room))
    ensures CutEventMemory(Extended(e, room), mem, at, room) == mem
  {
    hide Shortened, ArgsWords, Slots, CutMemory, Readable, Wanted, Body, LeftSlots, Prefix, FormatWords, FormatCut;
    ExtendedSame(e, room);
    ExtendedOffset(e, room);
    var x, s := Extended(e, room), Shortened(e, room);
    Filled(LeftSlots(e, room), s.args, Wanted(LeftSlots(e, room), |s.args|), mem, at + ArgsOffset(x) - 1, KeptRoom(e, room));
    KeptRoomIs(e, room);
  }

  lemma LeftIsShortened(e: Event, room: nat)
    requires e.Span? && room > 3 && Readable(e)
    ensures LeftFormat(e, room) == FormatString(Shortened(e, room).format).chars
  {
  }

  lemma KeptRoomIs(e: Event, room: nat)
    requires e.Span? && room > 3 && Used(e, room) <= room
    ensures KeptRoom(e, room) == room - Used(e, room)
  {
  }

  lemma WholeShortened(x: Event, room: nat)
    requires x.Span? && room > 3 && !FormatCut(x, room)
    ensures Shortened(x, room) == x.(args := CutArgs(x.args, KeptRoom(x, room)))
  {
    hide CutArgs, FormatWords, Prefix;
  }

  lemma ExtendedShortened(e: Event, room: nat)
    requires e.Span? && room > 3 && Readable(e) && |Body(Shortened(e, room))| == room - 1
    ensures Shortened(Extended(e, room), room) == Shortened(e, room)
  {
    hide Shortened, ArgsWords, Wanted, LeftSlots, Body, FormatCut, KeptRoom, Used, CutArgs, Readable;
    var x, s := Extended(e, room), Shortened(e, room);
    ExtendedOffset(e, room);
    WholeShortened(x, room);
    Filled([], s.args, Wanted(LeftSlots(e, room), |s.args|), [], 0, KeptRoom(e, room));
  }

  lemma ExtendedArgs(e: Event, room: nat, more: Arg, tail: Words)
    requires e.Span? && room > 3 && Readable(e) && |Body(Shortened(e, room))| == room - 1
    ensures var slots, args, n := LeftSlots(e, room), Shortened(e, room).args + [more], KeptRoom(e, room);
            && CutExpected(slots, args, n, tail) == CutExpected(slots, KeptArgs(e, room), n, tail)
            && CutTaken(slots, args, n, tail) == CutTaken(slots, KeptArgs(e, room), n, tail)
  {
    hide ArgsWords, LeftSlots, Body, CutArgs, CutExpected, CutTaken, Readable, FormatWords, Prefix, Shorter;
    ExtendedOffset(e, room);
    if FormatCut(e, room) {
      NothingLeft(LeftSlots(e, room), [more], [], 0, 0, tail);
      NothingLeft(LeftSlots(e, room), [], [], 0, 0, tail);
      assert [] + [more] == [more];
    } else {
      WholeShortened(e, room);
      SameExpected(LeftSlots(e, room), e.args, more, KeptRoom(e, room), tail);
    }
  }
}
