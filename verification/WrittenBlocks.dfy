// What a reader of the written blocks sees: the events that were recorded.
module WrittenBlocks {
  import opened Wrappers
  import opened Qwords
  import opened Memory
  import opened EventFormat
  import opened Timestamps
  import opened EventWriter
  import opened EventReading
  import opened BlockParser
  import opened BlockLayout
  import opened EventRoundTrip
  import opened BlockRoundTrip
  import opened CutEvents
  import opened CutBlock
  import opened CaptureState
  import opened CaptureInvariants
  import opened CaptureHistory
  import opened CaptureRuns

  /** Consecutive times of the block are less than 2^44 ticks apart. */
  predicate CloseTogether(b: Block) {
    forall i | 0 <= i < |b.events| :: b.events[i].time - PreviousTime(b.events, b.begin, i) < TIMESTAMP_RANGE
  }

  /** The last event of the block was cut. */
  predicate LastWasCut(b: Block) {
    b.events != [] && !UncutAt(b.events, |b.events| - 1)
  }

  /**
   * The decoder can tell where event `i` ends: its size is below 127 qwords, or
   * the search that follows it is safe and the next event has the same high
   * time bits; a cut event comes last.
   */
  ghost predicate LegibleAt(b: Block, i: nat)
    requires i < |b.events|
  {
    var t := b.events[i];
    && Readable(t.event)
    && (SizeKept(t.event)
        || (i == |b.events| - 1 && LastWasCut(b))
        || (SearchSafe(t.event, t.time, b.end) && (i + 1 < |b.events| ==> HighBits(b.events[i + 1].time) == HighBits(t.time))))
  }

  /** Nothing in the block stands in the way of decoding it. */
  ghost predicate Legible(b: Block, words: Words)
    ensures Legible(b, words) ==> forall t <- b.events :: Readable(t.event)
  {
    hide Readable, SizeKept, SearchSafe, UncutAt, LastWasCut, Recordable, LastFinished;
    && CloseTogether(b)
    && (forall i {:trigger b.events[i]} {:trigger LegibleAt(b, i)} | 0 <= i < |b.events| :: LegibleAt(b, i))
    && (LastWasCut(b) ==> Recordable(b.events) && |words| == DATA_QWORDS && LastLegible(b, words))
  }

  ghost predicate LastLegible(b: Block, words: Words)
    requires LastWasCut(b) && Recordable(b.events) && |words| == DATA_QWORDS
  {
    Readable(b.events[|b.events| - 1].event) && LastFinished(b.events, words, b.end)
  }

  lemma {:induction false} TimesUpTo(es: seq<Timed>, begin: Qword, i: nat, n: nat)
    requires NotBackwards(es, begin) && i <= n <= |es|
    ensures PreviousTime(es, begin, i) <= PreviousTime(es, begin, n)
    decreases n
  {
    if i < n {
      TimesUpTo(es, begin, i, n - 1);
      assert PreviousTime(es, begin, n - 1) <= es[n - 1].time;
    }
  }

  lemma LegibleDecodable(b: Block, words: Words, n: nat)
    requires Recordable(b.events) && NotBackwards(b.events, b.begin) && LastTime(b) <= b.end && Legible(b, words)
    requires n == if LastWasCut(b) then |b.events| - 1 else |b.events|
    ensures InOrder(b.events, b.begin) && AllDecodable(b.events, 0, n, b.end)
  {
    hide Readable, SizeKept, SearchSafe, UncutAt, Recordable, LastFinished, LastLegible;
    var es := b.events;
    forall i | 0 <= i < n
      ensures Decodable(es, i, b.end)
    {
      assert LegibleAt(b, i);
      if i + 1 < |es| {
        OnlyLastCut(es, i);
        TimesUpTo(es, b.begin, i + 2, |es|);
      }
    }
    forall i | 0 <= i < |es|
      ensures PreviousTime(es, b.begin, i) <= es[i].time && es[i].time - PreviousTime(es, b.begin, i) < TIMESTAMP_RANGE
    {
    }
  }

  /** What should be reported for the block: its events, the last one as far as it was stored. */
  ghost function Report(b: Block, words: Words): seq<Decoded>
    requires Legible(b, words)
  {
    if LastWasCut(b) then ReportCut(b, words) else ExpectedEvents(b.events)
  }

  ghost function ReportCut(b: Block, words: Words): seq<Decoded>
    requires Legible(b, words) && LastWasCut(b)
  {
    hide Readable, Recordable, UncutAt, LegibleAt, CloseTogether, LastLegible;
    assert b.events[|b.events| - 1] in b.events;
    ExpectedEvents(b.events[0..|b.events| - 1]) + [LastEvent(b.events, words)]
  }

  lemma ReportDecodes(b: Block, words: Words)
    requires Recordable(b.events) && NotBackwards(b.events, b.begin) && LastTime(b) <= b.end
    requires Legible(b, words) && BlockHolds(words, b.events)
    ensures ProcessBlock(words, b.begin, b.end).events == Report(b, words)
  {
    hide Recordable, NotBackwards, BlockHolds, AllDecodable, InOrder, ProcessBlock, LastTime, ExpectedEvents, LastEvent, LastFinished, MemoryAfter, UncutAt,
         CloseTogether, Readable, LegibleAt;
    if LastWasCut(b) {
      LegibleDecodable(b, words, |b.events| - 1);
      CutBlockFinished(b.events, words, b.begin, b.end);
    } else {
      LegibleDecodable(b, words, |b.events|);
      BlockDecodes(b.events, words, b.begin, b.end);
    }
  }

  /** A block of any run, decoded, gives exactly the events recorded in it. */
  lemma WrittenBlockDecodes(s: State, k: nat, words: Words)
    requires Reachable(s) && k < |s.written + s.waiting|
    requires var b := (s.written + s.waiting)[k]; Legible(b, words) && BlockHolds(words, b.events)
    ensures var b := (s.written + s.waiting)[k];
            ProcessBlock(words, b.begin, b.end).events == Report(b, words)
  {
    hide Reachable, Recordable, NotBackwards, BlockHolds, Legible, ProcessBlock, LastTime, Report;
    var b := (s.written + s.waiting)[k];
    BlocksInOrder(s, k, k);
    ReportDecodes(b, words);
  }

  /** The report tells an event: all of it, or all but its name. */
  ghost predicate Tells(d: Decoded, t: Timed, whole: bool) {
    Readable(t.event) && d.(name := None) == ExpectedEvent(t).(name := None) && (whole ==> d == ExpectedEvent(t))
  }

  /** One entry is reported for each event; only the name of a cut last event may be shorter. */
  lemma ReportTells(b: Block, words: Words, i: nat)
    requires Legible(b, words) && i < |b.events|
    ensures |Report(b, words)| == |b.events| && Tells(Report(b, words)[i], b.events[i], i < |b.events| - 1 || !LastWasCut(b))
  {
    hide Readable, UncutAt, Recordable, CloseTogether, LegibleAt, ExpectedEvent, LastFinished, Layout;
    var n := |b.events| - 1;
    if LastWasCut(b) {
      if i < n {
        assert b.events[0..n][i] == b.events[i];
      } else {
        LastTells(b.events, words);
      }
    }
  }

  lemma LastTells(es: seq<Timed>, words: Words)
    requires es != [] && Recordable(es) && |words| == DATA_QWORDS && !UncutAt(es, |es| - 1) && Readable(es[|es| - 1].event)
    ensures Tells(LastEvent(es, words), es[|es| - 1], false)
  {
    hide Readable, UncutAt, Recordable, CutName, NameOf, BehindLast, Layout;
    CutIsSpan(es);
  }

  // A whole capture

  /** What the decoder reports for the blocks of one thread, one after the other. */
  function DecodeThread(blocks: seq<Block>, data: seq<Words>, id: nat): seq<Decoded>
    requires |data| == |blocks|
  {
    if blocks == [] then []
    else
      var n := |blocks| - 1;
      var b := blocks[n];
      DecodeThread(blocks[..n], data[..n], id) + if b.thread == id then ProcessBlock(data[n], b.begin, b.end).events else []
  }

  /** The events in the blocks of one thread. */
  function ThreadEvents(blocks: seq<Block>, id: nat): seq<Timed> {
    if blocks == [] then []
    else
      var n := |blocks| - 1;
      ThreadEvents(blocks[..n], id) + if blocks[n].thread == id then blocks[n].events else []
  }

  /** For each of these events whether it was stored in full. */
  function WholeEvents(blocks: seq<Block>, id: nat): (r: seq<bool>)
    ensures |r| == |ThreadEvents(blocks, id)|
  {
    if blocks == [] then []
    else
      var n := |blocks| - 1;
      WholeEvents(blocks[..n], id) + if blocks[n].thread == id then WholeIn(blocks[n]) else []
  }

  function WholeIn(b: Block): (r: seq<bool>)
    ensures |r| == |b.events|
  {
    seq(|b.events|, i requires 0 <= i < |b.events| => i < |b.events| - 1 || !LastWasCut(b))
  }

  lemma ThreadEventsSnoc(blocks: seq<Block>, b: Block, id: nat)
    ensures ThreadEvents(blocks + [b], id) == ThreadEvents(blocks, id) + if b.thread == id then b.events else []
  {
    assert (blocks + [b])[..|blocks|] == blocks;
  }

  /** If none of a thread's blocks was discarded, its closed blocks are the handed ones. */
  lemma {:induction false} ClosedAreHanded(closed: seq<Closed>, id: nat)
    requires forall b <- Dropped(closed) :: b.thread != id
    ensures EventsIn(closed, id) == ThreadEvents(Handed(closed), id)
    decreases |closed|
  {
    if closed != [] {
      var n := |closed| - 1;
      ClosedAreHanded(closed[..n], id);
      if closed[n].handed {
        ThreadEventsSnoc(Handed(closed[..n]), closed[n].block, id);
      } else {
        assert closed[n].block in Dropped(closed);
        assert Handed(closed) == Handed(closed[..n]);
      }
    }
  }

  ghost predicate AllTell(ds: seq<Decoded>, ts: seq<Timed>, whole: seq<bool>) {
    |ds| == |ts| == |whole| && forall i | 0 <= i < |ts| :: Tells(ds[i], ts[i], whole[i])
  }

  lemma AllTellJoin(ds: seq<Decoded>, ts: seq<Timed>, whole: seq<bool>, ds': seq<Decoded>, ts': seq<Timed>, whole': seq<bool>)
    requires AllTell(ds, ts, whole) && AllTell(ds', ts', whole')
    ensures AllTell(ds + ds', ts + ts', whole + whole')
  {
    hide Tells;
  }

  /** The blocks of a thread that decode to their reports. */
  ghost predicate AllReported(blocks: seq<Block>, data: seq<Words>, id: nat)
    requires |data| == |blocks|
  {
    forall k | 0 <= k < |blocks| && blocks[k].thread == id ::
      AllTell(ProcessBlock(data[k], blocks[k].begin, blocks[k].end).events, blocks[k].events, WholeIn(blocks[k]))
  }

  lemma {:induction false} ThreadDecodes(blocks: seq<Block>, data: seq<Words>, id: nat)
    requires |data| == |blocks| && AllReported(blocks, data, id)
    ensures AllTell(DecodeThread(blocks, data, id), ThreadEvents(blocks, id), WholeEvents(blocks, id))
    decreases |blocks|
  {
    hide ProcessBlock, AllTell, WholeIn;
    if blocks == [] {
      NothingToTell();
    } else {
      var n := |blocks| - 1;
      var b := blocks[n];
      ThreadDecodes(blocks[..n], data[..n], id);
      NothingToTell();
      if b.thread == id {
        AllTellJoin(DecodeThread(blocks[..n], data[..n], id), ThreadEvents(blocks[..n], id), WholeEvents(blocks[..n], id),
                    ProcessBlock(data[n], b.begin, b.end).events, b.events, WholeIn(b));
      } else {
        AllTellJoin(DecodeThread(blocks[..n], data[..n], id), ThreadEvents(blocks[..n], id), WholeEvents(blocks[..n], id), [], [], []);
      }
    }
  }

  lemma NothingToTell()
    ensures AllTell([], [], [])
  {
  }

  lemma BlockTold(s: State, k: nat, words: Words)
    requires Reachable(s) && s.waiting == [] && k < |s.written|
    requires Legible(s.written[k], words) && BlockHolds(words, s.written[k].events)
    ensures AllTell(ProcessBlock(words, s.written[k].begin, s.written[k].end).events, s.written[k].events, WholeIn(s.written[k]))
  {
    hide Reachable, Legible, BlockHolds, ProcessBlock, Report, LastWasCut, Tells;
    var b := s.written[k];
    assert s.written + s.waiting == s.written;
    WrittenBlockDecodes(s, k, words);
    ReportLength(b, words);
    forall i | 0 <= i < |b.events|
      ensures Tells(Report(b, words)[i], b.events[i], WholeIn(b)[i])
    {
      ReportTells(b, words, i);
    }
  }

  lemma ReportLength(b: Block, words: Words)
    requires Legible(b, words)
    ensures |Report(b, words)| == |b.events|
  {
    hide Readable, UncutAt, Recordable, CloseTogether, LegibleAt, ExpectedEvent, LastFinished, Layout;
  }

  /**
   * A flushed capture, block by block: if a thread's blocks are legible and none
   * was discarded, decoding them in the order in which they were written gives
   * one entry for each event that the thread recorded, in order, and the entry
   * tells the event exactly; only of an event cut at the end of its block the
   * name may be shorter.
   */
  lemma CaptureDecodes(s: State, time: Qword, id: nat, data: seq<Words>)
    requires Reachable(s) && s.isEnabled && s.clock <= time
    requires var t := Apply(s, Flush(time));
             && Held(t.written, data) && (forall b <- t.discarded :: b.thread != id)
             && (forall k | 0 <= k < |t.written| :: t.written[k].thread == id ==> Legible(t.written[k], data[k]))
    ensures var t := Apply(s, Flush(time));
            && t.log == s.log
            && ThreadEvents(t.written, id) == EventsOf(s.log, id)
            && AllTell(DecodeThread(t.written, data, id), EventsOf(s.log, id), WholeEvents(t.written, id))
  {
    hide Reachable, Apply, Enabled, EventsOf, EventsIn, Handed, Dropped, DecodeThread, ThreadEvents, AllTell, Legible, BlockHolds, WholeIn, WholeEvents,
         ProcessBlock;
    CanFlush(s, time);
    var t := Apply(s, Flush(time));
    FlushWritesAll(s, Flush(time));
    ReachableNext(s, Flush(time));
    EveryEventKept(t, id);
    ClosedAreHanded(t.closed, id);
    forall k | 0 <= k < |t.written| && t.written[k].thread == id
      ensures AllTell(ProcessBlock(data[k], t.written[k].begin, t.written[k].end).events, t.written[k].events, WholeIn(t.written[k]))
    {
      assert (t.written + t.waiting)[k] == t.written[k];
      BlocksInOrder(t, k, k);
      BlockTold(t, k, data[k]);
    }
    ThreadDecodes(t.written, data, id);
  }

  lemma CanFlush(s: State, time: Qword)
    requires s.isEnabled && s.clock <= time
    ensures Enabled(s, Flush(time)) && Apply(s, Flush(time)).log == s.log
  {
    FlushLogs(StopWorker(Tick(s, time)), |s.threads|, time);
  }

  lemma {:induction false} FlushLogs(s: State, n: nat, time: Qword)
    requires n <= |s.threads|
    ensures FlushThreads(s, n, time).log == s.log
  {
    if n > 0 {
      FlushLogs(s, n - 1, time);
    }
  }

  lemma {:induction false} RunThen(s: State, steps: seq<CaptureState.Step>, t: State, a: CaptureState.Step)
    requires IsRun(s, steps, t) && Enabled(t, a)
    ensures IsRun(s, steps + [a], Apply(t, a))
    decreases |steps|
  {
    hide Apply, Enabled;
    if steps == [] {
      assert [a][1..] == [] && [] + [a] == [a];
    } else {
      assert (steps + [a])[1..] == steps[1..] + [a];
      RunThen(Apply(s, steps[0]), steps[1..], t, a);
    }
  }

  lemma ReachableNext(s: State, a: CaptureState.Step)
    requires Reachable(s) && Enabled(s, a)
    ensures Reachable(Apply(s, a))
  {
    hide Apply, Enabled, IsRun;
    var clock: Qword, steps :| clock > 0 && IsRun(Initial(clock), steps, s);
    RunThen(Initial(clock), steps, s, a);
  }
}
