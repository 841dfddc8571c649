// One thread's recording state and its block as objects in memory.
module ThreadData {
  import opened Wrappers
  import opened Qwords
  import opened Memory
  import opened EventWriter
  import opened ArgumentRoundTrip
  import opened BlockLayout
  import opened CaptureState

  /** A block: its header fields and its data. */
  class EventBlock {
    const id: nat
    const thread: nat
    const words: array<Qword>
    const begin: Qword
    var end: Qword
    ghost var events: seq<Timed>

    ghost predicate Valid()
      reads this, words
    {
      words.Length == DATA_QWORDS && (events != [] ==> BlockHolds(words[..], events))
    }

    ghost function Value(): Block
      reads this
    {
      Block(id, thread, begin, end, events)
    }

    /** BlockAllocator::Allocate; the data is whatever the heap gives. */
    constructor (id: nat, thread: nat, begin: Qword)
      ensures Valid() && fresh(words) && Value() == NewBlock(id, thread, begin)
    {
      this.id, this.thread, this.begin, end := id, thread, begin, TIME_MAX;
      words := new Qword[DATA_QWORDS];
      events := [];
    }
  }

  /** What a recording call does, seen from the thread. */
  datatype Recorded = Recorded(thread: Thread, handed: Option<Block>, dropped: Option<Block>, logged: Option<Timed>)

  /** ReplaceBlock and the event after it. */
  function ReplaceIn(t: Thread, event: Event, first: Qword, second: Qword, newId: Option<nat>): Recorded {
    var time := if event.EndSpan? then first else second;
    var handed := FlushedBlock(t, first);
    match newId
    case None => Recorded(FlushThread(t), handed, None, None)
    case Some(id) =>
      var block := NewBlock(id, t.id, time);
      var inBlock := t.(info := InBlock);
      if time == 0 then Recorded(inBlock.(current := Some(block)), handed, None, None)
      else Recorded(inBlock.(current := Some(block.(events := [Timed(time, event)]))), handed, None, Some(Timed(time, event)))
  }

  function RecordIn(t: Thread, event: Event, first: Qword, second: Qword, newId: Option<nat>): Recorded {
    var dropped := if t.enabled then None else t.current;
    var t' := Refresh(t);
    if t'.info == Null then Recorded(t', None, dropped, None)
    else if MustReplace(t') then ReplaceIn(t', event, first, second, newId).(dropped := dropped)
    else if t'.current.Some? then
      var b := t'.current.value;
      Recorded(t'.(current := Some(b.(events := b.events + [Timed(first, event)]))), None, dropped, Some(Timed(first, event)))
    else Recorded(t', None, dropped, None)
  }

  function Place(s: seq<Block>, b: Option<Block>): seq<Block> {
    if b.Some? then s + [b.value] else s
  }

  /** The step of the whole system is the thread's step, with its blocks put where they go. */
  lemma RecordIsLocal(s: State, i: nat, event: Event, first: Qword, second: Qword, allocates: bool)
    requires i < |s.threads|
    ensures var r := RecordIn(s.threads[i], event, first, second, if allocates then Some(s.nextBlock) else None);
            var t := RecordEvent(s, i, event, first, second, allocates);
            && t.threads == s.threads[i := r.thread]
            && t.waiting == Place(s.waiting, r.handed) && t.written == s.written
            && t.discarded == Place(s.discarded, r.dropped)
            && t.log == (if r.logged.Some? then s.log + [LogEntry(s.threads[i].id, r.logged.value)] else s.log)
  {
    hide MustReplace, Replace, ReplaceIn;
    var t := Refresh(s.threads[i]);
    if t.info != Null && MustReplace(t) {
      ReplaceIsLocal(Look(s, i), i, event, first, second, allocates);
      assert s.threads[i := t][i := t] == s.threads[i := t];
    }
  }

  lemma ReplaceIsLocal(s: State, i: nat, event: Event, first: Qword, second: Qword, allocates: bool)
    requires i < |s.threads|
    ensures var r := ReplaceIn(s.threads[i], event, first, second, if allocates then Some(s.nextBlock) else None);
            var t := Replace(s, i, event, first, second, allocates);
            && t.threads == s.threads[i := r.thread] && r.dropped == None
            && t.waiting == Place(s.waiting, r.handed) && t.written == s.written && t.discarded == s.discarded
            && t.log == (if r.logged.Some? then s.log + [LogEntry(s.threads[i].id, r.logged.value)] else s.log)
  {
    hide Close, FlushedBlock;
    var r := ReplaceIn(s.threads[i], event, first, second, if allocates then Some(s.nextBlock) else None);
    var time := if event.EndSpan? then first else second;
    var s1 := Close(Tick(s, first), i, first, false);
    CloseIsLocal(Tick(s, first), i, first);
    if allocates {
      var s2 := Open(Tick(s1, time), i, time);
      assert s2.threads == s.threads[i := s2.threads[i]];
      if time != 0 {
        assert [] + [Timed(time, event)] == [Timed(time, event)];
        assert Append(s2, i, Timed(time, event)).threads == s.threads[i := r.thread];
      }
    }
  }

  lemma CloseIsLocal(s: State, i: nat, time: Qword)
    requires i < |s.threads|
    ensures var t := Close(s, i, time, false);
            && t.threads == s.threads[i := FlushThread(s.threads[i])] && t.waiting == Place(s.waiting, FlushedBlock(s.threads[i], time))
            && t.written == s.written && t.discarded == s.discarded && t.log == s.log && t.nextBlock == s.nextBlock
  {
  }

  class ThreadData {
    const id: nat
    var isEnabled: bool
    var info: Info
    var destination: nat
    var currentBlock: EventBlock?

    ghost function Footprint(): set<object>
      reads this
    {
      if currentBlock == null then {this} else {this, currentBlock, currentBlock.words}
    }

    ghost predicate Valid()
      reads this, Footprint()
    {
      && (info == InBlock <==> currentBlock != null)
      && (currentBlock != null ==>
            currentBlock.Valid() && currentBlock.thread == id && destination == |Layout(currentBlock.events)| < DATA_QWORDS
            && Recordable(currentBlock.events))
    }

    ghost function Now(): Thread
      reads this, Footprint()
    {
      Thread(id, isEnabled, info, if currentBlock == null then None else Some(currentBlock.Value()))
    }

    constructor (id: nat, isEnabled: bool)
      ensures Valid() && Now() == NewThread(id, isEnabled) && Footprint() == {this}
    {
      this.id, this.isEnabled, info, destination, currentBlock := id, isEnabled, Null, 0, null;
    }

    method SetEnabled(isEnabled: bool)
      requires Valid()
      modifies this`isEnabled
      ensures Valid() && Now() == old(Now()).(enabled := isEnabled) && currentBlock == old(currentBlock)
    {
      this.isEnabled := isEnabled;
    }

    method GetPixEventsThreadInfo()
      requires Valid()
      modifies this
      ensures Valid() && Now() == Refresh(old(Now())) && Footprint() <= old(Footprint())
      ensures currentBlock == null || currentBlock == old(currentBlock)
    {
      if isEnabled {
        if info == Null {
          info := WantsBlock;
        }
      } else {
        currentBlock := null;
        info := Null;
      }
    }

    /** Hands the current block off, with its end time. */
    method Flush(eventTime: Qword) returns (block: EventBlock?)
      requires Valid()
      modifies this, currentBlock
      ensures Valid() && Now() == FlushThread(old(Now())) && currentBlock == null
      ensures block == old(currentBlock)
      ensures block != null ==> block.Valid() && FlushedBlock(old(Now()), eventTime) == Some(block.Value())
      ensures block == null ==> FlushedBlock(old(Now()), eventTime) == None
    {
      if info == InBlock {
        currentBlock.end := eventTime;
        info := Null;
      }
      block := currentBlock;
      currentBlock := null;
    }

    /** Gives the old block away and gets a new one, if one can be allocated; the time is zero otherwise. */
    method ReplaceBlock(first: Qword, begin: Qword, newId: Option<nat>) returns (time: Qword, block: EventBlock?)
      requires Valid()
      modifies this, currentBlock
      ensures Valid() && block == old(currentBlock)
      ensures block != null ==> block.Valid() && FlushedBlock(old(Now()), first) == Some(block.Value())
      ensures block == null ==> FlushedBlock(old(Now()), first) == None
      ensures newId.None? ==> time == 0 && Now() == FlushThread(old(Now())) && currentBlock == null
      ensures newId.Some? ==>
                && time == begin && currentBlock != null && fresh(currentBlock) && fresh(currentBlock.words)
                && Now() == old(Now()).(info := InBlock, current := Some(NewBlock(newId.value, id, begin))) && destination == 0
    {
      block := Flush(first);
      if newId.None? {
        return 0, block;
      }
      currentBlock := new EventBlock(newId.value, id, begin);
      info, destination := InBlock, 0;
      EmptyLayout();
      time := begin;
    }

    /** Writes the event at `destination`. */
    method Append(time: Qword, event: Event, blockCopy: bool)
      requires Valid() && currentBlock != null && destination < BIASED_LIMIT && ValidEvent(event)
      modifies this`destination, currentBlock`events, currentBlock.words
      ensures Valid() && currentBlock.events == old(currentBlock.events) + [Timed(time, EmittedEvent(event, blockCopy))]
      ensures BlockHolds(currentBlock.words[..], currentBlock.events)
      ensures old(destination) < destination == |Layout(currentBlock.events)| <= EVENT_LIMIT
    {
      hide BlockHolds, Recordable, EmittedEvent, Layout, Written, ValidEvent;
      ghost var before, es := currentBlock.words[..], currentBlock.events;
      ghost var t := Timed(time, EmittedEvent(event, blockCopy));
      destination := WriteEvent(currentBlock.words, destination, time, event, blockCopy);
      currentBlock.events := currentBlock.events + [t];
      Appended(before, currentBlock.words[..], es, t, destination);
    }

    /** The Allocate forms of the recording calls. */
    method ReplaceAndAppend(event: Event, blockCopy: bool, first: Qword, second: Qword, newId: Option<nat>) returns (handed: EventBlock?)
      requires Valid() && ValidEvent(event)
      modifies Footprint()
      ensures Valid() && fresh(Footprint() - old(Footprint()))
      ensures var r := ReplaceIn(old(Now()), EmittedEvent(event, blockCopy), first, second, newId);
              && Now() == r.thread
              && (handed == null ==> r.handed == None) && (handed != null ==> handed.Valid() && r.handed == Some(handed.Value()))
    {
      hide Recordable, BlockHolds, EmittedEvent, FlushedBlock, FlushThread, Layout, ValidEvent;
      EmittedKind(event, blockCopy);
      ghost var logged := Timed(if event.EndSpan? then first else second, EmittedEvent(event, blockCopy));
      assert [] + [logged] == [logged];
      var time;
      time, handed := ReplaceBlock(first, if event.EndSpan? then first else second, newId);
      if time != 0 && destination < BIASED_LIMIT {
        Append(time, event, blockCopy);
      }
    }

    /** PIXBeginEvent, PIXSetMarker and PIXEndEvent, with or without a context. */
    method Record(event: Event, blockCopy: bool, first: Qword, second: Qword, newId: Option<nat>) returns (handed: EventBlock?)
      requires Valid() && ValidEvent(event)
      modifies Footprint()
      ensures Valid() && fresh(Footprint() - old(Footprint()))
      ensures var r := RecordIn(old(Now()), EmittedEvent(event, blockCopy), first, second, newId);
              && Now() == r.thread
              && (handed == null ==> r.handed == None) && (handed != null ==> handed.Valid() && r.handed == Some(handed.Value()))
    {
      hide Recordable, BlockHolds, EmittedEvent, ReplaceIn, Layout, ValidEvent;
      handed := null;
      ghost var refreshed := Refresh(Now());
      GetPixEventsThreadInfo();
      if info != Null {
        if info == InBlock && destination < BIASED_LIMIT {
          assert !MustReplace(refreshed);
          Append(first, event, blockCopy);
        } else {
          assert MustReplace(refreshed);
          handed := ReplaceAndAppend(event, blockCopy, first, second, newId);
        }
      }
    }
  }

  lemma EmptyLayout()
    ensures Recordable([]) && Layout([]) == []
  {
  }

  lemma EmittedKind(e: Event, blockCopy: bool)
    ensures EmittedEvent(e, blockCopy).EndSpan? <==> e.EndSpan?
  {
  }

  /** What writing an event at the cursor does to the block. */
  lemma Appended(before: Words, after: Words, es: seq<Timed>, t: Timed, destination: nat)
    requires |before| == |after| == DATA_QWORDS && (es != [] ==> BlockHolds(before, es)) && |Layout(es)| < BIASED_LIMIT
    requires var w := Written(t.event, t.time, EVENT_LIMIT - |Layout(es)|);
             && destination == |Layout(es)| + |w| <= EVENT_LIMIT
             && after[..destination + 1] == before[..|Layout(es)|] + w + [BLOCK_END_MARKER]
    ensures BlockHolds(after, es + [t]) && |Layout(es)| < destination == |Layout(es + [t])|
    ensures Recordable(es) ==> Recordable(es + [t])
  {
    hide BlockHolds, Recordable, WordsLie, Written, Layout;
    HeldPrefix(before, es);
    RecordHolds(before, after, es, t, destination);
  }

  lemma HeldPrefix(words: Words, es: seq<Timed>)
    requires |words| == DATA_QWORDS && (es != [] ==> BlockHolds(words, es)) && |Layout(es)| < BIASED_LIMIT
    ensures WordsLie(Layout(es), words, 0)
  {
  }
}
