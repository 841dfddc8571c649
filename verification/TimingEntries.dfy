// Where each event of a block comes to stand in the decoder's lists, and with
// what.
module TimingEntries {
  import opened Wrappers
  import opened Qwords
  import opened Memory
  import opened EventFormat
  import opened EventWriter
  import opened EventReading
  import opened BlockParser
  import opened BlockLayout
  import opened EventRoundTrip
  import opened BlockRoundTrip
  import opened PixEventDecoder

  /** Whether the event is in the lists at all, and whether a CPU copy follows it. */
  predicate Kept(e: Event, o: Options) {
    e.context.None? || !o.ignoreEventContexts
  }

  predicate Copied(e: Event, o: Options) {
    Kept(e, o) && e.context.Some? && !o.gpuOnlyEvents && (e.Span? ==> !e.marker)
  }

  /** How many entries there are for the events `es`. */
  function Places(es: seq<Timed>, o: Options): nat {
    if es == [] then 0
    else
      var e := es[|es| - 1].event;
      Places(es[..|es| - 1], o) + (if Kept(e, o) then 1 else 0) + (if Copied(e, o) then 1 else 0)
  }

  /** The name in the lists: an end event has the empty one. */
  function NameIn(t: Timed): Name
    requires Readable(t.event)
  {
    if t.event.Span? then NameOf(t.event, InfoOf(t, 1 + |Body(t.event)|)) else Plain(false, [])
  }

  function TypeIn(e: Event): EventType {
    if e.EndSpan? then End else if e.marker then Marker else Begin
  }

  function ColorIn(e: Event): nat {
    if e.EndSpan? then 0 else if e.color.Full? then e.color.argb % 0x1_0000_0000 else e.color.index % 8
  }

  /** The entry that an event should have. */
  function EntryOf(t: Timed, o: Options, convert: Qword -> Qword): TimingEvent
    requires Readable(t.event)
  {
    TimingEvent(convert(t.time), Some(NameIn(t)), ColorIn(t.event), TypeIn(t.event), t.event.context.Some? && !o.ignoreEventContexts)
  }

  function ContextIn(e: Event): Qword {
    if e.context.Some? then e.context.value else 0
  }

  lemma OneEvent(t: Timed, o: Options, convert: Qword -> Qword)
    requires Readable(t.event)
    ensures var entry, d := EntryOf(t, o, convert), ExpectedEvent(t);
            && Entries(d, o, convert)
            == (if Copied(t.event, o) then [entry, entry.(hasContext := false)] else if Kept(t.event, o) then [entry] else [])
            && ContextsOf(d, o)
            == (if Copied(t.event, o) then [ContextIn(t.event), 0] else if Kept(t.event, o) then [ContextIn(t.event)] else [])
  {
    hide NameIn, Readable, ExpectedEvent, ColorIn;
    ExpectedFields(t);
  }

  lemma ExpectedFields(t: Timed)
    requires Readable(t.event)
    ensures ExpectedEvent(t)
         == Decoded(TypeIn(t.event), t.event.context.Some?, ContextIn(t.event), t.time, ColorIn(t.event),
                    if t.event.Span? then Some(NameIn(t)) else None)
    ensures t.event.EndSpan? ==> NameIn(t) == Plain(false, [])
  {
    hide NameOf, Readable, Body, InfoOf;
  }

  lemma ExpectedSnoc(es: seq<Timed>)
    requires es != [] && forall t <- es :: Readable(t.event)
    ensures forall t <- es[..|es| - 1] :: Readable(t.event)
    ensures ExpectedEvents(es) == ExpectedEvents(es[..|es| - 1]) + [ExpectedEvent(es[|es| - 1])]
  {
    hide Readable, ExpectedEvent;
  }

  /**
   * Every event that the options keep has its entry at the place that the kept
   * ones before it leave to it, with the converted time, colour, type and name,
   * and its context at the same place; its CPU copy follows at once.  There are
   * no other entries.
   */
  lemma {:induction false} EntriesOfEvents(es: seq<Timed>, k: nat, o: Options, convert: Qword -> Qword)
    requires (forall t <- es :: Readable(t.event)) && k < |es|
    ensures var entries, contexts := AllEntries(ExpectedEvents(es), o, convert), AllContexts(ExpectedEvents(es), o);
            var i, t := Places(es[..k], o), es[k];
            && |entries| == |contexts| == Places(es, o)
            && (Kept(t.event, o) ==> i < |entries| && entries[i] == EntryOf(t, o, convert) && contexts[i] == ContextIn(t.event))
            && (Copied(t.event, o) ==>
                  i + 1 < |entries| && entries[i + 1] == EntryOf(t, o, convert).(hasContext := false) && contexts[i + 1] == 0)
    decreases |es|
  {
    hide Readable, ExpectedEvent, ExpectedEvents, AllEntries, AllContexts, Entries, ContextsOf, EntryOf, NameOf;
    var n := |es| - 1;
    EntryCount(es, o, convert);
    EntryCount(es[..n], o, convert);
    ExpectedSnoc(es);
    EntriesSnoc(ExpectedEvents(es[..n]), ExpectedEvent(es[n]), o, convert);
    OneEvent(es[n], o, convert);
    if k < n {
      assert es[..n][..k] == es[..k];
      EntriesOfEvents(es[..n], k, o, convert);
    }
  }

  lemma {:induction false} EntryCount(es: seq<Timed>, o: Options, convert: Qword -> Qword)
    requires forall t <- es :: Readable(t.event)
    ensures |AllEntries(ExpectedEvents(es), o, convert)| == |AllContexts(ExpectedEvents(es), o)| == Places(es, o)
    decreases |es|
  {
    hide Readable, ExpectedEvent, Entries, ContextsOf, ExpectedEvents, EntryOf;
    if es == [] {
      NoEvents();
    } else {
      var n := |es| - 1;
      EntryCount(es[..n], o, convert);
      ExpectedSnoc(es);
      EntriesSnoc(ExpectedEvents(es[..n]), ExpectedEvent(es[n]), o, convert);
      OneEvent(es[n], o, convert);
    }
  }

  lemma NoEvents()
    ensures ExpectedEvents([]) == []
  {
  }

  /** What DecodeTimingBlock returns for a block that holds the events `es`. */
  lemma BlockEntries(es: seq<Timed>, words: Words, begin: Qword, end: Qword, k: nat, o: Options, convert: Qword -> Qword)
    requires Recordable(es) && BlockHolds(words, es) && InOrder(es, begin) && AllDecodable(es, 0, |es|, end) && k < |es|
    ensures es[0..|es|] == es
    ensures var decoded := ProcessBlock(words, begin, end).events;
            var entries, contexts := AllEntries(decoded, o, convert), AllContexts(decoded, o);
            var i, t := Places(es[..k], o), es[k];
            && |entries| == |contexts| == Places(es, o)
            && (Kept(t.event, o) ==> i < |entries| && entries[i] == EntryOf(t, o, convert) && contexts[i] == ContextIn(t.event))
            && (Copied(t.event, o) ==>
                  i + 1 < |entries| && entries[i + 1] == EntryOf(t, o, convert).(hasContext := false) && contexts[i + 1] == 0)
  {
    hide Recordable, BlockHolds, InOrder, AllDecodable, ProcessBlock, ExpectedEvents, AllEntries, AllContexts, EntryOf, Places, Kept, Copied;
    assert es[0..|es|] == es;
    BlockDecodes(es, words, begin, end);
    EntriesOfEvents(es, k, o, convert);
  }
}
