// Legacy events inside a block: their headers do not tell where they end.
module LegacyBlock {
  import opened Wrappers
  import opened Qwords
  import opened Memory
  import opened EventFormat
  import opened Timestamps
  import opened EventStrings
  import opened EventWriter
  import opened StringReading
  import opened EventReading
  import opened BlockParser
  import opened StringRoundTrip
  import opened ArgumentRoundTrip
  import opened EventRoundTrip
  import opened BlockRoundTrip
  import opened LegacyWriter
  import opened LegacyRoundTrip

  datatype LegacyEvent = LegacyEvent(time: Qword, marker: bool, color: Qword, context: Option<Qword>, format: CString, args: seq<Arg>)
  {
    function Op(): nat {
      LegacyType(marker, args) + if context.Some? then 16 else 0
    }

    function Head(): Words {
      [color] + ContextWords(context)
    }

    /** Everything after the header. */
    function Payload(build: Build): Words {
      Head() + FullArgs([Str(format)] + args, build)
    }

    predicate Readable(build: Build) {
      BlobReadable(Format(format), args, build)
    }
  }

  function ExpectedLegacy(e: LegacyEvent): Decoded
    requires e.format.Valid()
  {
    Decoded(if e.marker then Marker else Begin, e.context.Some?, ContextValue(e.context), e.time, e.color % 0x1_0000_0000,
            Some(BlobName(Format(e.format), e.args)))
  }

  lemma LegacyInfo(e: LegacyEvent)
    ensures var info := DecodeEventInfo(EncodeLegacyEventInfo(e.time, e.Op()));
            && info.time == e.time % TIMESTAMP_RANGE && info.size == 0 && info.legacyOp == e.Op()
            && info.op == (if e.marker then OP_MARKER else OP_BEGIN)
            && info.HasColor() && (info.OnContext() <==> e.context.Some?) && (info.NoVarArgs() <==> e.args == [])
            && EncodeLegacyEventInfo(e.time, e.Op()) != BLOCK_END_MARKER
  {
    hide DecodeEventInfo, EncodeLegacyEventInfo;
    LegacyHeaderRoundTrip(e.time, e.Op());
  }

  ghost predicate StoredLegacy(e: LegacyEvent, build: Build, words: Words, p: nat) {
    && p < |words| && words[p] == EncodeLegacyEventInfo(e.time, e.Op())
    && WordsLie(e.Payload(build), words, p + 1) && p + 1 + |e.Payload(build)| < |words|
  }

  /** Where the format string begins, and what it takes. */
  lemma LegacyParts(e: LegacyEvent, build: Build, words: Words, at: nat)
    requires WordsLie(e.Payload(build), words, at)
    ensures at + |e.Head()| <= |words| && words[at] == e.color
    ensures e.context.Some? ==> words[at + 1] == e.context.value
    ensures WordsLie(FullArg(Str(e.format), build), words, at + |e.Head()|)
    ensures WordsLie(FullArgs(e.args, build), words, at + |e.Head()| + |FullArg(Str(e.format), build)|)
    ensures |e.Payload(build)| == |e.Head()| + |FullArg(Str(e.format), build)| + |FullArgs(e.args, build)|
  {
    hide FullArg;
    WordsLieParts(e.Head(), FullArgs([Str(e.format)] + e.args, build), words, at);
    assert words[at + 0] == e.Head()[0];
    if e.context.Some? {
      assert words[at + 1] == e.Head()[1];
    }
    assert ([Str(e.format)] + e.args)[1..] == e.args;
    WordsLieParts(FullArg(Str(e.format), build), FullArgs(e.args, build), words, at + |e.Head()|);
  }

  /**
   * The search behind the format string can only be led astray by a qword of the
   * arguments, or by the last one of the format string when there is a context.
   */
  ghost predicate LegacySearchSafe(e: LegacyEvent, build: Build, end: Qword) {
    forall i | 1 + |FullArg(Str(e.format), build)| <= i < |e.Payload(build)| :: !Stops(e.Payload(build)[i], end, e.time)
  }

  lemma LegacyPrefix(e: LegacyEvent, info: EventInfo, build: Build, words: Words, at: nat)
    requires WordsLie(e.Payload(build), words, at) && info.HasColor() && (info.OnContext() <==> e.context.Some?)
    ensures ReadPrefix(words, info, at) == (EventData(e.color, ContextValue(e.context), 0, 8 * |e.Head()|), at + |e.Head()|)
  {
    hide FullArg, FullArgs;
    LegacyParts(e, build, words, at);
  }

  /** What reading a stored legacy event yields, without the search. */
  lemma LegacyRead(e: LegacyEvent, info: EventInfo, build: Build, words: Words, at: nat, limit: int)
    requires WordsLie(e.Payload(build), words, at) && at + |e.Payload(build)| < limit && e.Readable(build)
    requires info.size == 0 && info.legacyOp != OP_INVALID && info.HasColor() && (info.OnContext() <==> e.context.Some?)
    ensures var r := if e.args == [] then ReadUnformatted(words, info, at, limit) else ReadFormatted(words, info, at, limit);
            && r.data.metadata == e.color && r.data.context == ContextValue(e.context) && r.mem == words
            && r.name == Some(BlobName(Format(e.format), e.args))
            && r.data.formatBytes == 8 * |FullArg(Str(e.format), build)|
            && r.data.formatBytes + 8 <= r.data.totalBytes <= 8 * |e.Payload(build)|
            && (e.args == [] ==> r.data.totalBytes == 8 * |e.Payload(build)|)
  {
    hide ReadPrefix, ReadStringSpec, SavedText, PlainName, Populate, FullArg, FullArgs, WordsLie, Slots, PushAll, Expected, LegacyGood;
    LegacyParts(e, build, words, at);
    NothingWithoutArgs(build);
    LegacyPrefix(e, info, build, words, at);
    var f, p := Format(e.format), at + |e.Head()|;
    ReadLegacyFormat(f, build, words, p, limit);
    if e.args == [] {
      PlainBlob(f, build, words, p, limit);
    } else {
      BlobArguments(f, e.args, build, words, p, limit);
    }
  }

  lemma NothingWithoutArgs(build: Build)
    ensures FullArgs([], build) == []
  {
  }

  /** Without arguments the next event is found without a search; with arguments the search finds it. */
  lemma LegacyBody(e: LegacyEvent, build: Build, words: Words, p: nat, end: Qword, buffer: Name)
    requires StoredLegacy(e, build, words, p) && e.Readable(build)
    requires e.args != [] ==> LegacySearchSafe(e, build, end) && Stops(words[p + 1 + |e.Payload(build)|], end, e.time)
    ensures var info := DecodeEventInfo(words[p]);
            && info.Known()
            && ReadBody(words, p + 1, info, end, ClockAt(e.time), buffer)
            == Step(ExpectedLegacy(e), p + 1 + |e.Payload(build)|, BlobName(Format(e.format), e.args), words)
  {
    hide DecodeEventInfo, EncodeLegacyEventInfo, ReadFormatted, ReadUnformatted, FullArg, Stops, Resume, BlobName, BlobReadable, WordsLie;
    LegacyInfo(e);
    var info, to := DecodeEventInfo(words[p]), p + 1 + |e.Payload(build)|;
    LegacyRead(e, info, build, words, p + 1, |words|);
    if e.args != [] {
      var r := ReadFormatted(words, info, p + 1, |words|);
      SafeInBlock(e, build, words, p, end);
      SearchExact(words, p + 1, p + 2 + |FullArg(Str(e.format), build)|, to, r.data, end, e.time);
    }
  }

  lemma SafeInBlock(e: LegacyEvent, build: Build, words: Words, p: nat, end: Qword)
    requires StoredLegacy(e, build, words, p) && LegacySearchSafe(e, build, end)
    ensures forall i | p + 2 + |FullArg(Str(e.format), build)| <= i < p + 1 + |e.Payload(build)| :: !Stops(words[i], end, e.time)
  {
    hide Stops, FullArg, EncodeLegacyEventInfo;
    forall i | p + 2 + |FullArg(Str(e.format), build)| <= i < p + 1 + |e.Payload(build)|
      ensures !Stops(words[i], end, e.time)
    {
      assert words[p + 1 + (i - p - 1)] == e.Payload(build)[i - p - 1];
    }
  }

  /**
   * A legacy event in a block is reported exactly, and the walk goes on exactly
   * behind it.
   */
  lemma LegacyStep(e: LegacyEvent, build: Build, words: Words, p: nat, previous: Qword, end: Qword, buffer: Name)
    requires StoredLegacy(e, build, words, p) && e.Readable(build)
    requires e.args != [] ==> LegacySearchSafe(e, build, end) && Stops(words[p + 1 + |e.Payload(build)|], end, e.time)
    requires previous <= e.time && e.time - previous < TIMESTAMP_RANGE
    ensures var rest := Process(words, p + 1 + |e.Payload(build)|, end, ClockAt(e.time), BlobName(Format(e.format), e.args));
            Process(words, p, end, ClockAt(previous), buffer) == Walk([ExpectedLegacy(e)] + rest.events, rest.mem)
  {
    hide DecodeEventInfo, EncodeLegacyEventInfo, ReadBody, LegacySearchSafe, Stops, WordsLie, ExpectedLegacy, BlobReadable,
         FullArg, FullArgs, BlobName, Advance, ClockAt;
    LegacyInfo(e);
    AdvanceExact(previous, e.time);
    LegacyBody(e, build, words, p, end, buffer);
  }

  // End events

  /** The header of a legacy end event: 0x010 on a context, which is the next qword, and 0x000 otherwise. */
  ghost predicate StoredLegacyEnd(time: Qword, context: Option<Qword>, words: Words, p: nat) {
    && p < |words| && words[p] == EncodeLegacyEventInfo(time, if context.Some? then 0x010 else 0x000)
    && (context.Some? ==> p + 1 < |words| && words[p + 1] == context.value)
  }

  /** A legacy end event is reported with its context and time, and the walk goes on behind its context. */
  lemma LegacyEndStep(time: Qword, context: Option<Qword>, words: Words, p: nat, previous: Qword, end: Qword, buffer: Name)
    requires StoredLegacyEnd(time, context, words, p)
    requires previous <= time && time - previous < TIMESTAMP_RANGE
    ensures var rest := Process(words, p + (if context.Some? then 2 else 1), end, ClockAt(time), buffer);
            (Process(words, p, end, ClockAt(previous), buffer)
             == Walk([Decoded(End, context.Some?, ContextValue(context), time, 0, None)] + rest.events, rest.mem))
  {
    hide DecodeEventInfo, EncodeLegacyEventInfo, Advance, ClockAt, ReadFormatted, ReadUnformatted;
    LegacyHeaderRoundTrip(time, if context.Some? then 0x010 else 0x000);
    AdvanceExact(previous, time);
    ClockTime(time);
  }

  lemma ClockTime(time: Qword)
    ensures ClockAt(time).previous == time
  {
  }
}
