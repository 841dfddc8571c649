// How many entries decoding a block makes.
module EntryCount {
  import opened Wrappers
  import opened Qwords
  import opened Memory
  import opened EventFormat
  import opened EventWriter
  import opened EventReading
  import opened BlockParser
  import opened BlockLayout
  import opened BlockRoundTrip
  import opened EventRoundTrip
  import opened PixEventDecoder
  import opened CutBlock
  import opened CutRoundTrip
  import opened CutEvents

  /** The decoded events have their contexts where the recorded ones have. */
  predicate Matching(ds: seq<Decoded>, es: seq<Timed>) {
    |ds| == |es| && forall i | 0 <= i < |es| :: ds[i].onContext <==> es[i].event.context.Some?
  }

  lemma ContextTakesRoom(t: Timed, start: nat)
    requires start < BIASED_LIMIT && t.event.context.Some?
    ensures |WrittenAt(t, start)| >= 2
  {
  }

  /** An event makes two entries only if it took two qwords, so the lists never outgrow the block. */
  lemma {:induction false} EntriesFit(ds: seq<Decoded>, es: seq<Timed>, o: Options, convert: Qword -> Qword)
    requires Matching(ds, es) && Recordable(es)
    ensures |AllEntries(ds, o, convert)| <= |Layout(es)| <= EVENT_LIMIT
    decreases |es|
  {
    hide Layout, WrittenAt, Entries;
    if es != [] {
      var n := |es| - 1;
      assert es[..n + 1] == es && ds == ds[..n] + [ds[n]];
      FrontRecordable(es);
      assert Matching(ds[..n], es[..n]);
      EntriesFit(ds[..n], es[..n], o, convert);
      EntriesSnoc(ds[..n], ds[n], o, convert);
      assert Start(es, n) < BIASED_LIMIT;
      LayoutStep(es, n);
      if es[n].event.context.Some? {
        ContextTakesRoom(es[n], Start(es, n));
      }
    }
  }

  lemma FrontRecordable(es: seq<Timed>)
    requires es != [] && Recordable(es)
    ensures Recordable(es[..|es| - 1])
  {
    hide Layout;
    var front := es[..|es| - 1];
    forall i | 0 <= i < |front|
      ensures Start(front, i) < BIASED_LIMIT
    {
      assert front[..i] == es[..i];
      assert Start(es, i) < BIASED_LIMIT;
    }
  }

  lemma {:induction false} EntriesJoin(s: seq<Decoded>, t: seq<Decoded>, o: Options, convert: Qword -> Qword)
    ensures AllEntries(s + t, o, convert) == AllEntries(s, o, convert) + AllEntries(t, o, convert)
  {
    hide Entries;
    if s == [] {
      assert s + t == t;
    } else {
      assert (s + t)[1..] == s[1..] + t;
      EntriesJoin(s[1..], t, o, convert);
    }
  }

  lemma {:induction false} TwoEach(ds: seq<Decoded>, o: Options, convert: Qword -> Qword)
    ensures |AllEntries(ds, o, convert)| <= 2 * |ds|
  {
    hide Entries;
    if ds != [] {
      TwoEach(ds[1..], o, convert);
    }
  }

  /** The lists that decoding a recorded block makes fit the room reserved for them, one entry per qword. */
  lemma BlockEntriesFit(es: seq<Timed>, words: Words, begin: Qword, end: Qword, o: Options, convert: Qword -> Qword)
    requires Recordable(es) && BlockHolds(words, es) && InOrder(es, begin)
    requires AllDecodable(es, 0, |es|, end) || (LastCut(es, words, begin, end) && LastSafe(es, words, end))
    ensures |AllEntries(ProcessBlock(words, begin, end).events, o, convert)| <= BLOCK_QWORDS
  {
    hide Recordable, BlockHolds, InOrder, ProcessBlock, ExpectedEvents, LastEvent, MemoryAfter, AfterLast, Layout, AllDecodable, AllEntries, LastSafe;
    if AllDecodable(es, 0, |es|, end) {
      BlockDecodes(es, words, begin, end);
      ExpectedMatches(es);
      EntriesFit(ExpectedEvents(es), es, o, convert);
    } else {
      HoldsLength(es, words);
      CutBlockDecodes(es, words, begin, end);
      CutMatches(es, words, begin, end);
      var recorded, more := ExpectedEvents(es[0..|es| - 1]) + [LastEvent(es, words)], AfterLast(es, words, end).events;
      EntriesFit(recorded, es, o, convert);
      AfterLastKeeps(es, words, begin, end);
      EntriesJoin(recorded, more, o, convert);
      TwoEach(more, o, convert);
    }
  }

  lemma ExpectedMatches(es: seq<Timed>)
    requires forall t <- es :: Readable(t.event)
    ensures Matching(ExpectedEvents(es), es)
  {
    hide Readable;
  }

  lemma CutMatches(es: seq<Timed>, words: Words, begin: Qword, end: Qword)
    requires LastCut(es, words, begin, end)
    ensures |words| == DATA_QWORDS && Matching(ExpectedEvents(es[0..|es| - 1]) + [LastEvent(es, words)], es)
  {
    hide Readable, Layout, AllDecodable, InOrder, BlockHolds, ExpectedEvents, LastEvent, UncutAt, Recordable, Room;
    HoldsLength(es, words);
    LastContext(es, words);
    var front, last := ExpectedEvents(es[0..|es| - 1]), LastEvent(es, words);
    ExpectedMatches(es[0..|es| - 1]);
    forall i | 0 <= i < |es|
      ensures (front + [last])[i].onContext <==> es[i].event.context.Some?
    {
      if i < |front| {
        assert es[0..|es| - 1][i] == es[i];
      }
    }
  }

  lemma LastContext(es: seq<Timed>, words: Words)
    requires es != [] && Recordable(es) && |words| == DATA_QWORDS && !UncutAt(es, |es| - 1) && Readable(es[|es| - 1].event)
    ensures LastEvent(es, words).onContext <==> es[|es| - 1].event.context.Some?
  {
    hide Readable, Layout, CutName;
    CutIsSpan(es);
  }
}
