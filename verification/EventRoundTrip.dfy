// What the decoder makes of one event that a writer stored in full.
module EventRoundTrip {
  import opened Wrappers
  import opened Qwords
  import opened Memory
  import opened EventFormat
  import opened EventStrings
  import opened EventWriter
  import opened StringReading
  import opened EventReading
  import opened StringRoundTrip
  import opened ArgumentRoundTrip

  /** A null format string is stored like an empty one. */
  function FormatString(f: Format): CString {
    if f.Format? then f.str else CString(f.isAnsi, [], [], 0)
  }

  lemma {:induction false} PackOfZeros(b: seq<Octet>)
    requires forall i | 0 <= i < |b| :: b[i] == 0
    ensures Pack(b) == 0
    decreases |b|
  {
    if b != [] {
      PackOfZeros(b[1..]);
    }
  }

  lemma FormatStringWords(f: Format)
    ensures FormatWords(f) == StringWords(FormatString(f))
  {
    if f.NullFormat? {
      PackOfZeros(FormatString(f).ChunkBytes(0));
    }
  }

  predicate GoodFormat(f: Format) {
    GoodString(FormatString(f))
  }

  /** The slots that the event's format string asks for. */
  function EventSlots(e: Event): seq<Slot>
    requires e.Span? && GoodFormat(e.format)
  {
    Slots(FormatString(e.format).chars, 0, 0)
  }

  /**
   * No string of the event spells the end marker, and the arguments that the
   * format string asks for have the kinds it says.
   */
  predicate Readable(e: Event) {
    e.Span? ==> GoodFormat(e.format) && (forall a <- e.args :: GoodArg(a)) && Agree(EventSlots(e), e.args)
  }

  function ColorValue(c: Color): Qword {
    if c.Full? then c.argb else c.index % 8
  }

  function ContextValue(c: Option<Qword>): Qword {
    if c.Some? then c.value else 0
  }

  function PlainOf(e: Event): Name
    requires e.Span?
  {
    Plain(IsAnsi(e.format), FormatString(e.format).chars)
  }

  function FormattedOf(e: Event): Name
    requires e.Span? && GoodFormat(e.format)
  {
    Formatted(IsAnsi(e.format), FormatString(e.format).chars, PushAll([], Expected(EventSlots(e), e.args)))
  }

  lemma MetadataFields(e: Event)
    requires e.Span?
    ensures Metadata(e) % 2 == 1 <==> e.context.Some?
    ensures (Metadata(e) / 2) % 2 == 1 <==> IsAnsi(e.format)
    ensures Metadata(e) / 16 == if e.color.Full? then 15 else e.color.index % 8
  {
  }

  /** The decoded header of the event. */
  predicate Describes(info: EventInfo, e: Event) {
    info.op == TypeCode(e) as int && info.metadata == Metadata(e) && info.legacyOp == OP_INVALID && info.size > 0
  }

  lemma ReadPrefixStored(e: Event, info: EventInfo, mem: Words, at: nat)
    requires e.Span? && Describes(info, e) && WordsLie(Prefix(e), mem, at)
    ensures ReadPrefix(mem, info, at)
         == (EventData(ColorValue(e.color), ContextValue(e.context), 0, 8 * |Prefix(e)|), at + |Prefix(e)|)
  {
    hide Metadata;
    MetadataFields(e);
    var w := Prefix(e);
    if e.color.Full? {
      assert w[0] == e.color.argb;
    }
    if e.context.Some? {
      assert w[|w| - 1] == e.context.value;
    }
  }

  /** Where the arguments of an event begin, counted from its header. */
  function ArgsOffset(e: Event): nat
    requires e.Span?
  {
    1 + |Prefix(e)| + |FormatWords(e.format)|
  }

  lemma BodyParts(e: Event, mem: Words, at: nat)
    requires e.Span? && WordsLie(Body(e), mem, at)
    ensures WordsLie(Prefix(e), mem, at)
    ensures WordsLie(FormatWords(e.format), mem, at + |Prefix(e)|)
    ensures WordsLie(ArgsWords(e.args), mem, at + ArgsOffset(e) - 1)
    ensures |Body(e)| == ArgsOffset(e) - 1 + |ArgsWords(e.args)|
  {
    hide WordsLie, ArgsWords, FormatWords;
    assert Body(e) == Prefix(e) + FormatWords(e.format) + ArgsWords(e.args);
    WordsLieParts(Prefix(e) + FormatWords(e.format), ArgsWords(e.args), mem, at);
    WordsLieParts(Prefix(e), FormatWords(e.format), mem, at);
  }

  /** The format string of a stored event is read whole. */
  lemma ReadFormatStored(e: Event, info: EventInfo, mem: Words, p: nat, limit: int)
    requires e.Span? && Describes(info, e) && GoodFormat(e.format)
    requires WordsLie(FormatWords(e.format), mem, p) && p + |FormatWords(e.format)| <= limit
    ensures var read := ReadStringSpec(mem, p, limit, Some(info.metadata));
            && read.mem == mem && read.info.isAnsi == IsAnsi(e.format) && read.info.bytesUsed == 8 * |FormatWords(e.format)|
            && SavedText(read.info, read.mem) == FormatString(e.format).chars
            && (IsAnsi(e.format) ==> read.info.length == |FormatString(e.format).chars|)
  {
    hide CharsReadSpec, CStringAt, Metadata, FormatWords;
    MetadataFields(e);
    FormatStringWords(e.format);
    var s := FormatString(e.format);
    StringLies(s, mem, p);
    ReadWhole(s, mem, p, p, s.ChunkCount(), limit, 8);
    assert LocateString(mem, p, limit, Some(info.metadata)) == Starts(s.ansi, 8, 8 * p);
  }

  /**
   * The reader needs to know where the arguments end: from the header, or
   * because the format string asks for no more than there are.
   */
  predicate ArgsBounded(e: Event, info: EventInfo)
    requires e.Span? && GoodFormat(e.format)
  {
    if info.SizeKnown() then info.size as int == 1 + |Body(e)| else |EventSlots(e)| <= |e.args|
  }

  /** The whole event, header included, ends with its format string, as far as the reader can tell. */
  predicate EndsWithFormat(e: Event, info: EventInfo)
    requires e.Span?
  {
    ArgsOffset(e) == info.size as int
  }

  function NameOf(e: Event, info: EventInfo): Name
    requires e.Span? && GoodFormat(e.format)
  {
    if EndsWithFormat(e, info) then PlainOf(e) else FormattedOf(e)
  }

  /** Qwords of the body that the reader accounts for. */
  function ReadQwords(e: Event, info: EventInfo): nat
    requires e.Span? && GoodFormat(e.format)
  {
    ArgsOffset(e) - 1 + if EndsWithFormat(e, info) then 0 else Consumed(EventSlots(e), e.args)
  }

  function DataOf(e: Event, info: EventInfo): EventData
    requires e.Span? && GoodFormat(e.format)
  {
    EventData(ColorValue(e.color), ContextValue(e.context), 8 * |FormatWords(e.format)|, 8 * ReadQwords(e, info))
  }

  /** Reading a stored event gives its colour, context and name and leaves the block as it is. */
  lemma ReadFormattedStored(e: Event, info: EventInfo, mem: Words, at: nat, limit: int)
    requires e.Span? && Describes(info, e) && Readable(e) && ArgsBounded(e, info)
    requires WordsLie(Body(e), mem, at) && at + |Body(e)| <= limit
    ensures ReadFormatted(mem, info, at, limit) == ReadResult(DataOf(e, info), Some(NameOf(e, info)), mem)
  {
    hide ReadPrefix, ReadStringSpec, SavedText, Populate, WordsLie, Metadata, Body, Prefix, FormatWords, ArgsWords, Slots, FormatString,
         Agree, GoodFormat, Expected, PushAll, Consumed;
    BodyParts(e, mem, at);
    ReadPrefixStored(e, info, mem, at);
    ReadFormatStored(e, info, mem, at + |Prefix(e)|, limit);
    if !EndsWithFormat(e, info) {
      PopulateStored(e, info, mem, at, limit);
    }
  }

  lemma PopulateStored(e: Event, info: EventInfo, mem: Words, at: nat, limit: int)
    requires e.Span? && Readable(e) && ArgsBounded(e, info)
    requires WordsLie(Body(e), mem, at) && at + |Body(e)| <= limit
    ensures var source := at + ArgsOffset(e) - 1;
            var argLimit := if info.SizeKnown() then source + (info.size - ArgsOffset(e)) else limit;
            (Populate(FormatString(e.format).chars, 0, ArgState([], source, 0, mem), argLimit)
             == ArgState(PushAll([], Expected(EventSlots(e), e.args)), source + Consumed(EventSlots(e), e.args),
                         8 * Consumed(EventSlots(e), e.args), mem))
  {
    hide WordsLie, Body, Prefix, FormatWords, ArgsWords, FormatString, Agree, Slots, Populate, TakeSlots, Consumed, Expected, PushAll;
    BodyParts(e, mem, at);
    var source := at + ArgsOffset(e) - 1;
    var argLimit := if info.SizeKnown() then source + (info.size - ArgsOffset(e)) else limit;
    PopulateIsSlots(FormatString(e.format).chars, 0, ArgState([], source, 0, mem), argLimit);
    TakeStoredAll(EventSlots(e), e.args, ArgState([], source, 0, mem), argLimit);
  }
}
