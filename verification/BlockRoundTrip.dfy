// Decoding a block gives back the events that were recorded in it.
module BlockRoundTrip {
  import opened Wrappers
  import opened Qwords
  import opened Memory
  import opened EventFormat
  import opened Timestamps
  import opened EventStrings
  import opened EventWriter
  import opened StringReading
  import opened EventReading
  import opened BlockParser
  import opened ArgumentRoundTrip
  import opened EventRoundTrip
  import opened BlockLayout

  /** The decoded header of an event whose written form has `size` qwords. */
  function InfoOf(t: Timed, size: nat): EventInfo {
    EventInfo(t.time % TIMESTAMP_RANGE, TypeCode(t.event), EventSize(size), Metadata(t.event), OP_INVALID)
  }

  function TypeOf(e: Event): EventType {
    if e.EndSpan? then End else if e.marker then Marker else Begin
  }

  /** What the decoder should report for an uncut event. */
  function ExpectedEvent(t: Timed): Decoded
    requires Readable(t.event)
  {
    var e := t.event;
    match e
    case EndSpan(context) => Decoded(End, context.Some?, ContextValue(context), t.time, 0, None)
    case Span(_, color, context, _, _) =>
      Decoded(TypeOf(e), context.Some?, ContextValue(context), t.time, ColorValue(color) % 0x1_0000_0000,
              Some(NameOf(e, InfoOf(t, 1 + |Body(e)|))))
  }

  lemma HeaderDecodes(t: Timed, size: nat)
    requires size > 0
    ensures DecodeEventInfo(Header(t.event, t.time, size)) == InfoOf(t, size)
    ensures Header(t.event, t.time, size) != BLOCK_END_MARKER
    ensures InfoOf(t, size).Known() && Describes(InfoOf(t, size), t.event)
  {
    hide Metadata, EncodeEventInfo, DecodeEventInfo;
    HeaderRoundTrip(t.time, TypeCode(t.event), EventSize(size), Metadata(t.event));
  }

  predicate SizeKept(e: Event) {
    1 + |Body(e)| < SIZE_MAX
  }

  // Resynchronisation

  predicate Stops(q: Qword, end: Qword, time: Qword) {
    q == BLOCK_END_MARKER || IsValidEventInfo(end, time, HighBits(time), q)
  }

  /**
   * The first qword of an event's body that the search can come upon: it skips
   * one qword and what the format string takes; without a colour and a context
   * that is one qword more than there is, but then the peek comes first.
   */
  function SearchStart(e: Event): nat
    requires e.Span?
  {
    |FormatWords(e.format)| + if Prefix(e) == [] then 0 else 1
  }

  /** After an event of unknown length the search can only be led astray by these qwords. */
  ghost predicate SearchSafe(e: Event, time: Qword, end: Qword)
    requires Readable(e)
  {
    && e.Span? && |EventSlots(e)| <= |e.args|
    && forall i | SearchStart(e) <= i < |Body(e)| :: !Stops(Body(e)[i], end, time)
  }

  lemma {:induction false} SeekOver(words: Words, from: nat, to: nat, end: Qword, time: Qword)
    requires from <= to < |words| && forall i | from <= i < to :: !Stops(words[i], end, time)
    ensures Seek(words, from, end, ClockAt(time)) == Seek(words, to, end, ClockAt(time))
    decreases |words| - from
  {
    hide IsValidEventInfo;
    if from < to {
      SeekOver(words, from + 1, to, end, time);
    }
  }

  /**
   * After an event of unknown length the peek behind it or the search behind its
   * format string ends at `to` if and only if the qword found there looks like a
   * header or is the end marker, provided none of those in between does.
   */
  lemma SearchExact(words: Words, at: nat, from: nat, to: nat, data: EventData, end: Qword, time: Qword)
    requires from <= at + data.totalBytes / 8 <= to < |words|
    requires at + data.formatBytes / 8 <= from <= at + data.formatBytes / 8 + 1
    requires forall i | from <= i < to :: !Stops(words[i], end, time)
    ensures Resume(words, at, data, end, ClockAt(time)) == to <==> Stops(words[to], end, time)
  {
    hide IsValidEventInfo;
    if at + 1 + data.formatBytes / 8 <= to {
      SeekOver(words, at + 1 + data.formatBytes / 8, to, end, time);
    }
  }

  lemma {:induction false} SeekFirst(words: Words, from: nat, end: Qword, time: Qword)
    ensures var r := Seek(words, from, end, ClockAt(time));
            && (forall i | from <= i < r && i < |words| :: !Stops(words[i], end, time))
            && (r < |words| ==> Stops(words[r], end, time)) && (from <= |words| ==> from <= r <= |words|) && (from > |words| ==> r == from)
    decreases |words| - from
  {
    hide IsValidEventInfo;
    if from < |words| && !Stops(words[from], end, time) {
      SeekFirst(words, from + 1, end, time);
    }
  }

  /**
   * Where the walk goes on, on any memory: at the peek if a header or the end
   * marker is there, otherwise, and if the peek is outside the block, at the
   * first header or marker from one qword behind the format string on.
   */
  lemma ResumeFirst(words: Words, at: nat, data: EventData, end: Qword, time: Qword)
    ensures var peek, from, r := at + data.totalBytes / 8, at + 1 + data.formatBytes / 8, Resume(words, at, data, end, ClockAt(time));
            if peek < |words| && Stops(words[peek], end, time) then r == peek
            else
              && (forall i | from <= i < r && i < |words| :: !Stops(words[i], end, time))
              && (r < |words| ==> Stops(words[r], end, time)) && (from <= |words| ==> from <= r <= |words|) && (from > |words| ==> r == from)
  {
    hide IsValidEventInfo;
    SeekFirst(words, at + 1 + data.formatBytes / 8, end, time);
  }

  /**
   * After an event of unknown length the walk goes on exactly where the event
   * ends if and only if the qword found there looks like a header or is the end
   * marker.
   */
  lemma ResumeExact(e: Event, info: EventInfo, words: Words, at: nat, end: Qword, time: Qword)
    requires Readable(e) && SearchSafe(e, time, end)
    requires WordsLie(Body(e), words, at) && at + |Body(e)| < |words|
    ensures Resume(words, at, DataOf(e, info), end, ClockAt(time)) == at + |Body(e)|
       <==> Stops(words[at + |Body(e)|], end, time)
  {
    hide IsValidEventInfo, Body, FormatWords, Metadata, Prefix, Agree, EventSlots, GoodFormat, Stops, Resume;
    BodyParts(e, words, at);
    ConsumedBound(EventSlots(e), e.args);
    var from, to := at + SearchStart(e), at + |Body(e)|;
    forall i | from <= i < to
      ensures !Stops(words[i], end, time)
    {
      assert words[at + (i - at)] == Body(e)[i - at];
    }
    SearchExact(words, at, from, to, DataOf(e, info), end, time);
  }

  // One event

  /** The event at `p` is uncut and another qword follows it. */
  ghost predicate StoredEvent(t: Timed, words: Words, p: nat) {
    && WordsLie(Body(t.event), words, p + 1) && p + 1 + |Body(t.event)| < |words|
    && words[p] == Header(t.event, t.time, 1 + |Body(t.event)|)
  }

  lemma SpanStep(t: Timed, words: Words, p: nat, end: Qword, buffer: Name)
    requires StoredEvent(t, words, p) && t.event.Span? && Readable(t.event)
    requires SizeKept(t.event) || (SearchSafe(t.event, t.time, end) && Stops(words[p + 1 + |Body(t.event)|], end, t.time))
    ensures var s := ReadBody(words, p + 1, InfoOf(t, 1 + |Body(t.event)|), end, ClockAt(t.time), buffer);
            s.event == ExpectedEvent(t) && s.next == p + 1 + |Body(t.event)| && s.mem == words
  {
    hide Body, IsValidEventInfo, ReadFormatted, Resume, StoredEvent, NameOf, DataOf, Readable, SearchSafe, Stops, InfoOf;
    var e := t.event;
    var info := InfoOf(t, 1 + |Body(e)|);
    InfoFacts(t, end);
    SpanRead(t, words, p, |words|);
    if !SizeKept(e) {
      SpanResume(t, words, p, end);
    }
  }

  lemma InfoFacts(t: Timed, end: Qword)
    requires t.event.Span? && Readable(t.event)
    ensures var info := InfoOf(t, 1 + |Body(t.event)|);
            && info.op == (if t.event.marker then OP_MARKER else OP_BEGIN) && info.Known() && !info.NoVarArgs()
            && (info.OnContext() <==> t.event.context.Some?)
            && (info.SizeKnown() <==> SizeKept(t.event))
            && (SizeKept(t.event) ==> info.size as int == 1 + |Body(t.event)|)
            && (SizeKept(t.event) || SearchSafe(t.event, t.time, end) ==> ArgsBounded(t.event, info))
            && DataOf(t.event, info).metadata == ColorValue(t.event.color)
            && DataOf(t.event, info).context == ContextValue(t.event.context)
  {
    hide Body, Metadata, Stops, Prefix, FormatWords, EventSlots, Agree, GoodFormat;
    MetadataFields(t.event);
  }

  lemma SpanRead(t: Timed, words: Words, p: nat, limit: int)
    requires StoredEvent(t, words, p) && t.event.Span? && Readable(t.event) && limit == |words|
    requires ArgsBounded(t.event, InfoOf(t, 1 + |Body(t.event)|))
    ensures var info := InfoOf(t, 1 + |Body(t.event)|);
            ReadFormatted(words, info, p + 1, limit) == ReadResult(DataOf(t.event, info), Some(NameOf(t.event, info)), words)
  {
    hide Body, Metadata, ReadFormatted, NameOf, DataOf, Readable, ArgsBounded, WordsLie;
    ReadFormattedStored(t.event, InfoOf(t, 1 + |Body(t.event)|), words, p + 1, limit);
  }

  lemma SpanResume(t: Timed, words: Words, p: nat, end: Qword)
    requires StoredEvent(t, words, p) && Readable(t.event) && SearchSafe(t.event, t.time, end)
    requires Stops(words[p + 1 + |Body(t.event)|], end, t.time)
    ensures Resume(words, p + 1, DataOf(t.event, InfoOf(t, 1 + |Body(t.event)|)), end, ClockAt(t.time)) == p + 1 + |Body(t.event)|
  {
    hide Body, Resume, DataOf, Readable, WordsLie, SearchSafe, Stops;
    ResumeExact(t.event, InfoOf(t, 1 + |Body(t.event)|), words, p + 1, end, t.time);
  }

  lemma EndStep(t: Timed, words: Words, p: nat, end: Qword, buffer: Name)
    requires StoredEvent(t, words, p) && t.event.EndSpan?
    ensures ReadBody(words, p + 1, InfoOf(t, 1 + |Body(t.event)|), end, ClockAt(t.time), buffer)
         == Step(ExpectedEvent(t), p + 1 + |Body(t.event)|, buffer, words)
  {
    if t.event.context.Some? {
      assert Body(t.event)[0] == t.event.context.value;
    }
  }

  lemma EventStep(t: Timed, words: Words, p: nat, previous: Qword, end: Qword, buffer: Name) returns (buffer': Name)
    requires StoredEvent(t, words, p) && Readable(t.event)
    requires SizeKept(t.event) || (SearchSafe(t.event, t.time, end) && Stops(words[p + 1 + |Body(t.event)|], end, t.time))
    requires previous <= t.time && t.time - previous < TIMESTAMP_RANGE
    ensures var rest := Process(words, p + 1 + |Body(t.event)|, end, ClockAt(t.time), buffer');
            Process(words, p, end, ClockAt(previous), buffer) == Walk([ExpectedEvent(t)] + rest.events, rest.mem)
  {
    hide Body, Header, ReadBody, SearchSafe, Stops, WordsLie, ExpectedEvent, InfoOf;
    var info := InfoOf(t, 1 + |Body(t.event)|);
    HeaderDecodes(t, 1 + |Body(t.event)|);
    InfoTime(t, 1 + |Body(t.event)|);
    AdvanceExact(previous, t.time);
    if t.event.Span? {
      SpanStep(t, words, p, end, buffer);
    } else {
      EndStep(t, words, p, end, buffer);
    }
    buffer' := ReadBody(words, p + 1, info, end, ClockAt(t.time), buffer).buffer;
  }

  lemma InfoTime(t: Timed, size: nat)
    ensures InfoOf(t, size).time == t.time % TIMESTAMP_RANGE
  {
  }

  // A whole block

  function PreviousTime(es: seq<Timed>, begin: Qword, i: nat): Qword
    requires i <= |es|
  {
    if i == 0 then begin else es[i - 1].time
  }

  /** Times do not decrease, and no two neighbours, the block's begin included, are 2^44 ticks apart. */
  predicate InOrder(es: seq<Timed>, begin: Qword) {
    forall i | 0 <= i < |es| :: PreviousTime(es, begin, i) <= es[i].time && es[i].time - PreviousTime(es, begin, i) < TIMESTAMP_RANGE
  }

  /** The event after `i` is one that the search can recognise. */
  predicate Recognisable(es: seq<Timed>, i: nat, end: Qword)
    requires i < |es|
  {
    i + 1 < |es| ==> es[i + 1].time <= end && HighBits(es[i + 1].time) == HighBits(es[i].time)
  }

  /** Event `i` was stored in full and the decoder can tell where it ends. */
  ghost predicate Decodable(es: seq<Timed>, i: nat, end: Qword)
    requires i < |es|
  {
    && UncutAt(es, i) && Readable(es[i].event)
    && (SizeKept(es[i].event) || (SearchSafe(es[i].event, es[i].time, end) && Recognisable(es, i, end)))
  }

  function ExpectedEvents(es: seq<Timed>): (r: seq<Decoded>)
    requires forall t <- es :: Readable(t.event)
    ensures |r| == |es| && forall i | 0 <= i < |es| :: r[i] == ExpectedEvent(es[i])
  {
    seq(|es|, i requires 0 <= i < |es| => ExpectedEvent(es[i]))
  }

  /** Events `i` to `n` were stored in full and the decoder can tell where they end. */
  ghost predicate AllDecodable(es: seq<Timed>, i: nat, n: nat, end: Qword)
    requires i <= n <= |es|
    ensures AllDecodable(es, i, n, end) ==> forall t <- es[i..n] :: Readable(t.event)
  {
    hide Readable, UncutAt, SearchSafe, Recognisable, SizeKept;
    forall k {:trigger es[k]} {:trigger Decodable(es, k, end)} | i <= k < n :: Decodable(es, k, end)
  }

  /** What decoding yields from event `i` on. */
  function DecodedFrom(es: seq<Timed>, words: Words, i: nat, begin: Qword, end: Qword, buffer: Name): (w: Walk)
    requires i <= |es|
  {
    Process(words, Start(es, i), end, ClockAt(PreviousTime(es, begin, i)), buffer)
  }

  lemma StoredInBlock(es: seq<Timed>, words: Words, i: nat)
    requires Recordable(es) && BlockHolds(words, es) && i < |es| && UncutAt(es, i)
    ensures StoredEvent(es[i], words, Start(es, i))
    ensures Start(es, i + 1) == Start(es, i) + 1 + |Body(es[i].event)|
  {
    hide Body, Header, Layout;
    EventLies(es, words, i);
    var t, p := es[i], Start(es, i);
    var w := WrittenAt(t, p);
    assert w == [Header(t.event, t.time, 1 + |Body(t.event)|)] + Body(t.event);
    assert words[p + 0] == w[0];
    WordsLieParts([Header(t.event, t.time, 1 + |Body(t.event)|)], Body(t.event), words, p);
  }

  /**
   * The writers' invariant, seen from the decoder: every event of a block begins
   * with a header that tells its type and its size up to 127, never zero; the
   * last one ends two qwords before the end of the block at the latest, where
   * the end marker is; and only the last one can have been cut.
   */
  lemma BlockWellFormed(es: seq<Timed>, words: Words, i: nat)
    requires Recordable(es) && BlockHolds(words, es) && i < |es|
    ensures Start(es, i) < Start(es, i + 1) <= |Layout(es)| <= |words| - 2 && Get(words, |Layout(es)|) == BLOCK_END_MARKER
    ensures var d, n: int := DecodeEventInfo(Get(words, Start(es, i))), Start(es, i + 1) - Start(es, i);
            d.size as int == (if n < 127 then n else 127) && d.time == es[i].time % TIMESTAMP_RANGE && d.op == TypeCode(es[i].event) as int
    ensures i + 1 < |es| ==> UncutAt(es, i)
  {
    hide Layout, Written, Metadata, DecodeEventInfo, EncodeEventInfo;
    EventLies(es, words, i);
    var w := WrittenAt(es[i], Start(es, i));
    assert words[Start(es, i) + 0] == w[0];
    HeaderOf(es[i], Start(es, i));
    HeaderDecodes(es[i], |w|);
    if i + 1 < |es| {
      OnlyLastCut(es, i);
    }
  }

  /** Whatever follows event `i` stops the search. */
  lemma NextStops(es: seq<Timed>, words: Words, i: nat, begin: Qword, end: Qword)
    requires Recordable(es) && BlockHolds(words, es) && i < |es| && InOrder(es, begin) && Recognisable(es, i, end)
    ensures Start(es, i + 1) < |words| && Stops(words[Start(es, i + 1)], end, es[i].time)
  {
    hide Layout, Written, IsValidEventInfo, Metadata;
    EventLies(es, words, i);
    if i + 1 < |es| {
      EventLies(es, words, i + 1);
      var t, p := es[i + 1], Start(es, i + 1);
      assert words[p + 0] == WrittenAt(t, p)[0];
      HeaderOf(t, p);
      assert es[i].time == PreviousTime(es, begin, i + 1);
      ValidHeaderExact(end, es[i].time, t.time, TypeCode(t.event), EventSize(|WrittenAt(t, p)|), Metadata(t.event));
    } else {
      assert es[..i + 1] == es;
    }
  }

  lemma HeaderOf(t: Timed, p: nat)
    requires p < EVENT_LIMIT
    ensures WrittenAt(t, p)[0] == EncodeEventInfo(t.time, TypeCode(t.event), EventSize(|WrittenAt(t, p)|), Metadata(t.event))
  {
  }

  lemma DecodeOne(es: seq<Timed>, words: Words, i: nat, begin: Qword, end: Qword, buffer: Name) returns (buffer': Name)
    requires Recordable(es) && BlockHolds(words, es) && i < |es| && InOrder(es, begin) && Decodable(es, i, end)
    ensures var rest := DecodedFrom(es, words, i + 1, begin, end, buffer');
            DecodedFrom(es, words, i, begin, end, buffer) == Walk([ExpectedEvent(es[i])] + rest.events, rest.mem)
  {
    hide Process, Start, BlockHolds, ExpectedEvent, StoredEvent, Body, SearchSafe, Readable, Stops, Recordable, UncutAt;
    var t := es[i];
    StoredInBlock(es, words, i);
    if !SizeKept(t.event) {
      NextStops(es, words, i, begin, end);
    }
    assert PreviousTime(es, begin, i + 1) == t.time;
    buffer' := EventStep(t, words, Start(es, i), PreviousTime(es, begin, i), end, buffer);
  }

  /** Decoding from event `i` up to event `n`: the events come out one by one and the block is unchanged. */
  lemma {:induction false} DecodePart(es: seq<Timed>, words: Words, i: nat, n: nat, begin: Qword, end: Qword, buffer: Name)
    returns (buffer': Name)
    requires Recordable(es) && BlockHolds(words, es) && i <= n <= |es| && InOrder(es, begin) && AllDecodable(es, i, n, end)
    ensures var rest := DecodedFrom(es, words, n, begin, end, buffer');
            DecodedFrom(es, words, i, begin, end, buffer) == Walk(ExpectedEvents(es[i..n]) + rest.events, rest.mem)
    decreases n - i
  {
    hide DecodedFrom, BlockHolds, ExpectedEvent, Recordable, InOrder, Decodable, Readable;
    if i == n {
      buffer' := buffer;
      assert ExpectedEvents(es[i..n]) == [];
    } else {
      assert Decodable(es, i, end);
      var b := DecodeOne(es, words, i, begin, end, buffer);
      buffer' := DecodePart(es, words, i + 1, n, begin, end, b);
      assert ExpectedEvents(es[i..n]) == [ExpectedEvent(es[i])] + ExpectedEvents(es[i + 1..n]);
    }
  }

  /**
   * Block round trip: decoding the block that holds the events `es` reports
   * exactly these events, in order, and leaves the block as it was.
   */
  lemma BlockDecodes(es: seq<Timed>, words: Words, begin: Qword, end: Qword)
    requires Recordable(es) && BlockHolds(words, es) && InOrder(es, begin) && AllDecodable(es, 0, |es|, end)
    ensures es[0..|es|] == es
    ensures ProcessBlock(words, begin, end) == Walk(ExpectedEvents(es), words)
  {
    hide ExpectedEvents, AllDecodable, Recordable, InOrder, Layout;
    var b := DecodePart(es, words, 0, |es|, begin, end, EMPTY_NAME);
    assert es[..|es|] == es && es[0..|es|] == es && es[..0] == [];
    BlockStart(es, words, begin, end);
    assert DecodedFrom(es, words, |es|, begin, end, b) == Walk([], words);
  }

  lemma BlockStart(es: seq<Timed>, words: Words, begin: Qword, end: Qword)
    ensures DecodedFrom(es, words, 0, begin, end, EMPTY_NAME) == ProcessBlock(words, begin, end)
  {
    assert es[..0] == [];
  }
}
