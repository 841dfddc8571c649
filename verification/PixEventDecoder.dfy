// The decoder's two entry points: a whole timing block, and the blob of one
// event that was described to a graphics context.
module PixEventDecoder {
  import opened Wrappers
  import opened Qwords
  import opened Memory
  import opened EventFormat
  import opened StringReading
  import opened EventReading
  import opened BlockParser

  // Timing blocks

  datatype Options = Options(ignoreEventContexts: bool, gpuOnlyEvents: bool)

  datatype TimingEvent = TimingEvent(timestamp: Qword, name: Option<Name>, color: nat, eventType: EventType, hasContext: bool)

  /** The three lists that are returned. */
  datatype DecodedBlock = DecodedBlock(events: seq<TimingEvent>, names: seq<Name>, contexts: seq<Qword>)

  function NameOrEmpty(d: Decoded): Name {
    if d.name.Some? then d.name.value else EMPTY_NAME
  }

  /** The entries made for one callback: none, one, or the event and its CPU copy. */
  function Entries(d: Decoded, o: Options, convert: Qword -> Qword): (r: seq<TimingEvent>)
    ensures |r| <= 2 && (|r| == 2 ==> d.onContext)
  {
    if d.onContext && o.ignoreEventContexts then []
    else
      var entry := TimingEvent(convert(d.time), Some(NameOrEmpty(d)), d.color, d.eventType, !o.ignoreEventContexts && d.onContext);
      if !o.gpuOnlyEvents && d.onContext && d.eventType != Marker then [entry, entry.(hasContext := false)] else [entry]
  }

  function AllEntries(ds: seq<Decoded>, o: Options, convert: Qword -> Qword): seq<TimingEvent> {
    if ds == [] then [] else Entries(ds[0], o, convert) + AllEntries(ds[1..], o, convert)
  }

  function ContextsOf(d: Decoded, o: Options): seq<Qword> {
    if d.onContext && o.ignoreEventContexts then []
    else if !o.gpuOnlyEvents && d.onContext && d.eventType != Marker then [d.context, 0]
    else if d.onContext then [d.context]
    else [0]
  }

  function AllContexts(ds: seq<Decoded>, o: Options): seq<Qword> {
    if ds == [] then [] else ContextsOf(ds[0], o) + AllContexts(ds[1..], o)
  }

  /** The callback: pushes to the three lists, the names not yet attached. */
  method OnEvent(d: Decoded, o: Options, convert: Qword -> Qword, data: DecodedBlock) returns (r: DecodedBlock)
    requires |data.events| == |data.names| == |data.contexts|
    ensures |r.events| == |r.names| == |r.contexts|
    ensures Attached(r.events, r.names) == Attached(data.events, data.names) + Entries(d, o, convert)
    ensures r.contexts == data.contexts + ContextsOf(d, o)
  {
    r := data;
    if !d.onContext || !o.ignoreEventContexts {
      var name := NameOrEmpty(d);
      var entry := TimingEvent(convert(d.time), None, d.color, d.eventType, if o.ignoreEventContexts then false else d.onContext);
      r := DecodedBlock(r.events + [entry], r.names + [name], r.contexts + [if d.onContext then d.context else 0]);
      if !o.gpuOnlyEvents && d.onContext && d.eventType != Marker {
        r := DecodedBlock(r.events + [entry.(hasContext := false)], r.names + [name], r.contexts + [0]);
      }
    }
  }

  /** The events with the names attached that stand at their place. */
  function Attached(events: seq<TimingEvent>, names: seq<Name>): (r: seq<TimingEvent>)
    requires |events| == |names|
    ensures |r| == |events|
  {
    seq(|events|, i requires 0 <= i < |events| => events[i].(name := Some(names[i])))
  }

  lemma {:induction false} EntriesSnoc(ds: seq<Decoded>, d: Decoded, o: Options, convert: Qword -> Qword)
    ensures AllEntries(ds + [d], o, convert) == AllEntries(ds, o, convert) + Entries(d, o, convert)
    ensures AllContexts(ds + [d], o) == AllContexts(ds, o) + ContextsOf(d, o)
  {
    hide Entries, ContextsOf;
    if ds == [] {
      assert (ds + [d])[1..] == [];
      assert Entries(d, o, convert) + [] == Entries(d, o, convert) && ContextsOf(d, o) + [] == ContextsOf(d, o);
    } else {
      assert (ds + [d])[1..] == ds[1..] + [d];
      EntriesSnoc(ds[1..], d, o, convert);
    }
  }

  /** DecodeTimingBlock */
  method DecodeTimingBlock(o: Options, words: array<Qword>, begin: Qword, end: Qword, convert: Qword -> Qword) returns (data: DecodedBlock)
    modifies words
    ensures |data.events| == |data.names| == |data.contexts|
    ensures var w := ProcessBlock(old(words[..]), begin, end);
            && words[..] == w.mem && data.events == AllEntries(w.events, o, convert) && data.contexts == AllContexts(w.events, o)
    ensures forall i | 0 <= i < |data.events| :: data.events[i].name == Some(data.names[i])
  {
    hide ProcessBlock, Entries, ContextsOf;
    var parser := new Parser(words, begin, end);
    var decoded := parser.ProcessEvents();
    ghost var mem := words[..];
    data := DecodedBlock([], [], []);
    var k := 0;
    while k < |decoded|
      invariant k <= |decoded| && |data.events| == |data.names| == |data.contexts|
      invariant Attached(data.events, data.names) == AllEntries(decoded[..k], o, convert)
      invariant data.contexts == AllContexts(decoded[..k], o) && words[..] == mem
    {
      data := OnEvent(decoded[k], o, convert, data);
      EntriesSnoc(decoded[..k], decoded[k], o, convert);
      assert decoded[..k + 1] == decoded[..k] + [decoded[k]];
      k := k + 1;
    }
    assert decoded[..k] == decoded;
    ghost var before := data.events;
    var i := 0;
    while i < |data.events|
      invariant i <= |data.events| == |before| == |data.names| == |data.contexts| && data.contexts == AllContexts(decoded, o)
      invariant forall j | 0 <= j < |before| :: data.events[j] == if j < i then before[j].(name := Some(data.names[j])) else before[j]
      invariant Attached(before, data.names) == AllEntries(decoded, o, convert) && words[..] == mem
    {
      data := data.(events := data.events[i := data.events[i].(name := Some(data.names[i]))]);
      i := i + 1;
    }
    assert data.events == Attached(before, data.names);
  }

  predicate OnCpu(e: TimingEvent) {
    !e.hasContext && e.eventType != Marker
  }

  function CpuRanges(es: seq<TimingEvent>): seq<EventType> {
    if es == [] then [] else (if OnCpu(es[0]) then [es[0].eventType] else []) + CpuRanges(es[1..])
  }

  /** The begin and end callbacks that the options let through to the CPU's nesting. */
  function Ranges(ds: seq<Decoded>, o: Options): seq<EventType> {
    if ds == [] then []
    else
      var kept := ds[0].eventType != Marker && (!ds[0].onContext || (!o.ignoreEventContexts && !o.gpuOnlyEvents));
      (if kept then [ds[0].eventType] else []) + Ranges(ds[1..], o)
  }

  lemma {:induction false} CpuRangesJoin(s: seq<TimingEvent>, t: seq<TimingEvent>)
    ensures CpuRanges(s + t) == CpuRanges(s) + CpuRanges(t)
  {
    hide OnCpu;
    if s == [] {
      assert s + t == t;
    } else {
      assert (s + t)[1..] == s[1..] + t;
      CpuRangesJoin(s[1..], t);
      var first := if OnCpu(s[0]) then [s[0].eventType] else [];
      assert first + (CpuRanges(s[1..]) + CpuRanges(t)) == first + CpuRanges(s[1..]) + CpuRanges(t);
    }
  }

  /**
   * The CPU copies restore the nesting of the CPU's begin and end events: each
   * counts exactly once, in order, unless the options leave context events out.
   */
  lemma {:induction false} CpuNesting(ds: seq<Decoded>, o: Options, convert: Qword -> Qword)
    ensures CpuRanges(AllEntries(ds, o, convert)) == Ranges(ds, o)
  {
    if ds != [] {
      CpuRangesJoin(Entries(ds[0], o, convert), AllEntries(ds[1..], o, convert));
      CpuNesting(ds[1..], o, convert);
      EntryRanges(ds[0], o, convert);
    }
  }

  lemma EntryRanges(d: Decoded, o: Options, convert: Qword -> Qword)
    ensures CpuRanges(Entries(d, o, convert))
         == if d.eventType != Marker && (!d.onContext || (!o.ignoreEventContexts && !o.gpuOnlyEvents)) then [d.eventType] else []
  {
    var es := Entries(d, o, convert);
    forall i | 0 <= i < |es|
      ensures CpuRanges([es[i]]) == if OnCpu(es[i]) then [es[i].eventType] else []
    {
      assert [es[i]][1..] == [];
    }
    if |es| == 2 {
      assert es == [es[0]] + [es[1]];
      CpuRangesJoin([es[0]], [es[1]]);
    } else if |es| == 1 {
      assert es == [es[0]];
    }
  }

  // Blobs

  datatype NameAndColor = NameAndColor(name: Option<Name>, color: nat)

  datatype BlobRead = BlobRead(result: Option<NameAndColor>, mem: Words)

  /** What TryDecodePIXBeginEventOrPIXSetMarkerBlob returns, and the memory it leaves behind. */
  function DecodeBlob(mem: Words, source: nat, limit: int): (r: BlobRead)
    ensures |r.mem| == |mem|
  {
    var info := DecodeEventInfo(Get(mem, source));
    if info.NoVarArgs() then
      var r := ReadUnformatted(mem, info, source + 1, limit);
      BlobRead(Some(NameAndColor(r.name, r.data.metadata % 0x1_0000_0000)), r.mem)
    else if info.op == OP_BEGIN || info.op == OP_MARKER then
      var r := ReadFormatted(mem, info, source + 1, limit);
      BlobRead(Some(NameAndColor(r.name, r.data.metadata % 0x1_0000_0000)), r.mem)
    else BlobRead(None, mem)
  }

  /** TryDecodePIXBeginEventOrPIXSetMarkerBlob */
  method TryDecodeBlob(words: array<Qword>, source: nat, limit: int) returns (output: Option<NameAndColor>)
    modifies words
    ensures BlobRead(output, words[..]) == DecodeBlob(old(words[..]), source, limit)
  {
    hide DecodeEventInfo, ReadFormatted, ReadUnformatted;
    var info := DecodeEventInfo(WordAt(words, source));
    var data, name;
    if info.NoVarArgs() {
      data, name := ReadEventWithNoFormatParameters(words, info, source + 1, limit);
    } else if info.op == OP_BEGIN || info.op == OP_MARKER {
      data, name := ReadEventWithFormatParameters(words, info, source + 1, limit);
    } else {
      return None;
    }
    output := Some(NameAndColor(name, data.metadata % 0x1_0000_0000));
  }
}
