// The registered threads and the writer that enables, disables and flushes
// them, as objects in memory.
module EtwWriter {
  import opened Wrappers
  import opened Qwords
  import opened Memory
  import opened EventWriter
  import opened BlockLayout
  import opened CaptureState
  import opened ThreadData

  /** The blocks that flushing gives, thread by thread. */
  function FlushedBlocks(threads: seq<Thread>, time: Qword): seq<Block> {
    if threads == [] then []
    else
      var n := |threads| - 1;
      Place(FlushedBlocks(threads[..n], time), FlushedBlock(threads[n], time))
  }

  function FlushedThreads(threads: seq<Thread>, n: nat): (r: seq<Thread>)
    requires n <= |threads|
    ensures |r| == |threads|
  {
    seq(|threads|, i requires 0 <= i < |threads| => if i < n then FlushThread(threads[i]) else threads[i])
  }

  /** What the loop over the threads amounts to. */
  lemma {:induction false} FlushIsLoop(s: State, n: nat, time: Qword)
    requires n <= |s.threads|
    ensures var t := FlushThreads(s, n, time);
            && t.threads == FlushedThreads(s.threads, n) && t.waiting == s.waiting && t.isEnabled == s.isEnabled
            && t.written == s.written + FlushedBlocks(s.threads[..n], time)
  {
    if n > 0 {
      FlushIsLoop(s, n - 1, time);
      assert s.threads[..n][..n - 1] == s.threads[..n - 1];
    }
  }

  lemma FlushMeans(s: State, time: Qword)
    requires s.clock <= time
    ensures var t := Apply(s, Step.Flush(time));
            && t.isEnabled == s.isEnabled
            && (!s.isEnabled ==> t == s)
            && (s.isEnabled ==>
                  && t.threads == FlushedThreads(s.threads, |s.threads|) && t.waiting == []
                  && t.written == s.written + s.waiting + FlushedBlocks(s.threads, time))
  {
    FlushIsLoop(StopWorker(Tick(s, time)), |s.threads|, time);
    assert s.threads[..|s.threads|] == s.threads;
  }

  lemma ExitMeans(s: State, i: nat, time: Qword)
    requires i < |s.threads| && s.clock <= time
    ensures var t := Apply(s, Exit(i, time));
            var flushed := s.threads[i := FlushThread(s.threads[i])];
            && t.isEnabled == s.isEnabled && t.written == s.written
            && t.threads == flushed[..i] + flushed[i + 1..]
            && t.waiting == Place(s.waiting, FlushedBlock(s.threads[i], time))
  {
  }

  class Threads {
    var threads: seq<ThreadData>

    /** The threads share nothing. */
    ghost predicate Valid()
      reads this, threads, Blocks(), Data()
    {
      && (forall i | 0 <= i < |threads| :: threads[i].Valid())
      && (forall i, j | 0 <= i < |threads| && 0 <= j < |threads| && i != j :: Apart(threads[i], threads[j]))
    }

    ghost function Blocks(): set<EventBlock>
      reads this, threads
    {
      set t | t in threads && t.currentBlock != null :: t.currentBlock
    }

    ghost function Data(): set<array<Qword>>
      reads this, threads
    {
      set t | t in threads && t.currentBlock != null :: t.currentBlock.words
    }

    ghost function Now(): (r: seq<Thread>)
      reads this, threads, Blocks(), Data()
      ensures |r| == |threads|
    {
      seq(|threads|, i requires 0 <= i < |threads| reads this, threads, Blocks(), Data() => threads[i].Now())
    }

    constructor ()
      ensures Valid() && Now() == [] && threads == []
    {
      threads := [];
    }

    /** One thread may change; the others stay as they are. */
    twostate predicate OthersKept(k: nat)
      requires k < |old(threads)|
      reads this, threads, Blocks(), Data()
    {
      && threads == old(threads)
      && forall i | 0 <= i < |threads| && i != k ::
           threads[i].Now() == old(threads[i].Now()) && threads[i].currentBlock == old(threads[i].currentBlock)
    }

    method UpdateThread(k: nat, isEnabled: bool)
      requires Valid() && k < |threads|
      modifies threads[k]
      ensures Valid() && OthersKept(k)
      ensures threads[k].Now() == old(threads[k].Now()).(enabled := isEnabled) && threads[k].currentBlock == old(threads[k].currentBlock)
    {
      threads[k].SetEnabled(isEnabled);
    }

    method UpdateThreads(isEnabled: bool)
      requires Valid()
      modifies threads
      ensures Valid() && threads == old(threads)
      ensures Now() == SetEnabled(old(Now()), isEnabled)
    {
      ghost var before := Now();
      var k := 0;
      while k < |threads|
        invariant k <= |threads| && Valid() && |before| == |threads|
        invariant forall i | 0 <= i < |threads| :: threads[i].Now() == if i < k then before[i].(enabled := isEnabled) else before[i]
      {
        UpdateThread(k, isEnabled);
        k := k + 1;
      }
    }

    method Add(thread: ThreadData, isEnabled: bool)
      requires Valid() && thread.Valid() && forall i | 0 <= i < |threads| :: Apart(threads[i], thread) && Apart(thread, threads[i])
      modifies this, thread`isEnabled
      ensures Valid() && threads == old(threads) + [thread]
      ensures Now() == old(Now()) + [old(thread.Now()).(enabled := isEnabled)]
    {
      hide Layout, Recordable, BlockHolds;
      ghost var before := Now();
      threads := threads + [thread];
      thread.SetEnabled(isEnabled);
      assert forall i | 0 <= i < |before| :: threads[i].Now() == before[i];
    }

    /** Takes the thread out, wherever it is. */
    method Remove(thread: ThreadData, ghost at: nat)
      requires Valid() && at < |threads| && threads[at] == thread
      modifies this
      ensures Valid() && Now() == old(Now())[..at] + old(Now())[at + 1..]
    {
      hide Layout, Recordable, BlockHolds;
      var k := 0;
      while threads[k] != thread
        invariant k < |threads| && forall i | 0 <= i < k :: threads[i] != thread
        invariant k <= at
        decreases |threads| - k
      {
        k := k + 1;
      }
      assert k == at by {
        assert k != at ==> Apart(threads[k], threads[at]);
      }
      ghost var before, was := Now(), threads;
      threads := threads[..k] + threads[k + 1..];
      assert forall i | 0 <= i < |threads| :: threads[i] == was[if i < k then i else i + 1];
      assert Now() == before[..k] + before[k + 1..];
    }
  
    method RecordOne(thread: ThreadData, event: Event, blockCopy: bool, first: Qword, second: Qword, newId: Option<nat>, ghost k: nat)
      returns (handed: EventBlock?)
      requires Valid() && k < |threads| && threads[k] == thread && ValidEvent(event)
      modifies thread.Footprint()
      ensures Valid() && OthersKept(k)
      ensures var r := RecordIn(old(thread.Now()), EmittedEvent(event, blockCopy), first, second, newId);
              && threads[k].Now() == r.thread
              && (handed == null ==> r.handed == None) && (handed != null ==> handed.Valid() && r.handed == Some(handed.Value()))
    {
      hide RecordIn, Layout, Recordable, BlockHolds, EmittedEvent, ValidEvent;
      handed := thread.Record(event, blockCopy, first, second, newId);
    }

    method FlushOne(thread: ThreadData, ghost k: nat, eventTime: Qword) returns (block: EventBlock?)
      requires Valid() && k < |threads| && threads[k] == thread
      modifies thread, thread.currentBlock
      ensures Valid() && OthersKept(k)
      ensures threads[k].Now() == FlushThread(old(threads[k].Now()))
      ensures block != null ==> block.Valid() && FlushedBlock(old(threads[k].Now()), eventTime) == Some(block.Value())
      ensures block == null ==> FlushedBlock(old(threads[k].Now()), eventTime) == None
    {
      hide Layout, Recordable, BlockHolds;
      block := thread.Flush(eventTime);
    }

    /** Every thread's block is written. */
    method Flush(eventTime: Qword) returns (ghost written: seq<Block>, ghost data: seq<Words>)
      requires Valid()
      modifies threads, Blocks()
      ensures Valid() && threads == old(threads) && Held(written, data)
      ensures Now() == FlushedThreads(old(Now()), |old(Now())|) && written == FlushedBlocks(old(Now()), eventTime)
    {
      hide FlushThread, FlushedBlock, FlushedBlocks, Apart, Layout, Recordable, BlockHolds, Held;
      HeldNone();
      ghost var before := Now();
      FlushedNone(eventTime);
      written, data := [], [];
      var k := 0;
      while k < |threads|
        invariant k <= |threads| && Valid() && |before| == |threads| && Held(written, data)
        invariant forall i | k <= i < |threads| :: threads[i].currentBlock == old(threads[i].currentBlock)
        invariant forall i | 0 <= i < |threads| :: threads[i].Now() == if i < k then FlushThread(before[i]) else before[i]
        invariant written == FlushedBlocks(before[..k], eventTime)
      {
        assert threads[k].currentBlock != null ==> threads[k].currentBlock in old(Blocks());
        var block := FlushOne(threads[k], k, eventTime);
        FlushedSnoc(before, k, eventTime);
        if block != null {
          HeldSnoc(written, data, block.Value(), block.words[..]);
          written, data := written + [block.Value()], data + [block.words[..]];
        }
        k := k + 1;
      }
      assert before[..k] == before;
    }
  }

  lemma HeldNone()
    ensures Held([], [])
  {
  }

  lemma HeldSnoc(blocks: seq<Block>, data: seq<Words>, b: Block, words: Words)
    requires Held(blocks, data) && (b.events != [] ==> BlockHolds(words, b.events))
    ensures Held(blocks + [b], data + [words])
  {
    hide BlockHolds;
  }

  lemma HeldJoin(blocks: seq<Block>, data: seq<Words>, more: seq<Block>, moreData: seq<Words>)
    requires Held(blocks, data) && Held(more, moreData)
    ensures Held(blocks + more, data + moreData)
  {
    hide BlockHolds;
  }

  lemma FlushedNone(time: Qword)
    ensures FlushedBlocks([], time) == []
  {
  }

  lemma FlushedSnoc(threads: seq<Thread>, k: nat, time: Qword)
    requires k < |threads|
    ensures FlushedBlocks(threads[..k + 1], time) == Place(FlushedBlocks(threads[..k], time), FlushedBlock(threads[k], time))
  {
    assert threads[..k + 1][..k] == threads[..k];
  }

  ghost predicate Apart(t: ThreadData, u: ThreadData)
    reads t, u
  {
    t != u && t.Footprint() !! u.Footprint()
  }

  /**
   * The writer; each method runs under its lock.  What the worker was given and
   * what was written are kept as values: whoever hands a block over no longer
   * has it.
   */
  class EtwWriter {
    const threads: Threads
    var isEnabled: bool
    ghost var waiting: seq<Block>
    ghost var written: seq<Block>
    ghost var waitingData: seq<Words>
    ghost var writtenData: seq<Words>

    /** The objects are in the state `s`, and the data of its blocks hold their events. */
    ghost predicate Models(s: State)
      reads this, threads, threads.threads, threads.Blocks(), threads.Data()
    {
      && threads.Valid() && threads.Now() == s.threads && isEnabled == s.isEnabled && waiting == s.waiting && written == s.written
      && Held(waiting, waitingData) && Held(written, writtenData)
    }

    constructor (clock: Qword)
      ensures Models(Initial(clock)) && fresh(threads)
    {
      threads := new Threads();
      isEnabled, waiting, written, waitingData, writtenData := false, [], [], [], [];
    }

    method StopWorker(ghost s: State)
      requires Models(s)
      modifies this`waiting, this`written, this`waitingData, this`writtenData
      ensures Models(CaptureState.StopWorker(s))
    {
      hide Held;
      HeldNone();
      HeldJoin(written, writtenData, waiting, waitingData);
      written, waiting := written + waiting, [];
      writtenData, waitingData := writtenData + waitingData, [];
    }

    method RegisterThread(thread: ThreadData, ghost s: State)
      requires Models(s) && thread.Valid() && thread.Now() == NewThread(s.nextThread, false)
      requires forall i | 0 <= i < |threads.threads| :: Apart(threads.threads[i], thread) && Apart(thread, threads.threads[i])
      modifies threads, thread`isEnabled
      ensures Models(Apply(s, Register))
    {
      threads.Add(thread, isEnabled);
    }

    method Enable(ghost s: State)
      requires Models(s)
      modifies this`isEnabled, threads.threads
      ensures Models(Apply(s, Step.Enable))
    {
      if !isEnabled {
        isEnabled := true;
        threads.UpdateThreads(true);
      }
    }

    method Disable(ghost s: State)
      requires Models(s)
      modifies this, threads.threads
      ensures Models(Apply(s, Step.Disable))
    {
      if isEnabled {
        isEnabled := false;
        threads.UpdateThreads(false);
        StopWorker(s.(isEnabled := false, threads := SetEnabled(s.threads, false)));
      }
    }

    method Flush(eventTime: Qword, ghost s: State)
      requires Models(s) && s.clock <= eventTime
      modifies this, threads.threads, threads.Blocks()
      ensures Models(Apply(s, Step.Flush(eventTime)))
    {
      hide Apply, FlushedThreads, FlushedBlocks, Layout, Recordable, BlockHolds, Apart, Held;
      FlushMeans(s, eventTime);
      if !isEnabled {
        return;
      }
      StopWorker(s);
      ghost var blocks, data := threads.Flush(eventTime);
      HeldJoin(written, writtenData, blocks, data);
      written, writtenData := written + blocks, writtenData + data;
    }

    method TakeBlock(block: EventBlock)
      requires block.Valid() && Held(waiting, waitingData)
      modifies this`waiting, this`waitingData
      ensures waiting == old(waiting) + [block.Value()] && Held(waiting, waitingData)
    {
      hide BlockHolds, Held;
      HeldSnoc(waiting, waitingData, block.Value(), block.words[..]);
      waiting, waitingData := waiting + [block.Value()], waitingData + [block.words[..]];
    }

    /** The destructor of a thread's data: flushes its block and unregisters it. */
    method ThreadExit(thread: ThreadData, time: Qword, ghost at: nat, ghost s: State)
      requires Models(s) && s.clock <= time && at < |threads.threads| && threads.threads[at] == thread
      modifies this`waiting, this`waitingData, threads, thread, thread.currentBlock
      ensures Models(Apply(s, Exit(at, time)))
    {
      hide Apply, FlushThread, FlushedBlock, Layout, Recordable, BlockHolds, Apart, Held;
      ExitMeans(s, at, time);
      var block := threads.FlushOne(thread, at, time);
      if block != null {
        TakeBlock(block);
      }
      assert threads.Now() == s.threads[at := FlushThread(s.threads[at])];
      threads.Remove(thread, at);
    }

    /** A recording call of a registered thread. */
    method RecordOn(thread: ThreadData, event: Event, blockCopy: bool, first: Qword, second: Qword, newId: Option<nat>, ghost at: nat, ghost s: State)
      requires Models(s) && at < |threads.threads| && threads.threads[at] == thread && s.clock <= first <= second
      requires ValidEvent(event) && (newId.Some? ==> newId.value == s.nextBlock)
      modifies this`waiting, this`waitingData, thread.Footprint()
      ensures Models(Apply(s, Record(at, EmittedEvent(event, blockCopy), first, second, newId.Some?)))
    {
      hide Apply, RecordIn, RecordEvent, Layout, Recordable, BlockHolds, EmittedEvent, Apart, ValidEvent, Held;
      ghost var e := EmittedEvent(event, blockCopy);
      RecordMeans(s, at, e, first, second, newId.Some?);
      var handed := threads.RecordOne(thread, event, blockCopy, first, second, newId, at);
      if handed != null {
        TakeBlock(handed);
      }
      assert threads.Now() == s.threads[at := RecordIn(s.threads[at], e, first, second, newId).thread];
    }
  }

  lemma RecordMeans(s: State, i: nat, event: Event, first: Qword, second: Qword, allocates: bool)
    requires i < |s.threads| && s.clock <= first <= second
    ensures var t := Apply(s, Record(i, event, first, second, allocates));
            var r := RecordIn(s.threads[i], event, first, second, if allocates then Some(s.nextBlock) else None);
            && t.threads == s.threads[i := r.thread] && t.waiting == Place(s.waiting, r.handed)
            && t.written == s.written && t.isEnabled == s.isEnabled
  {
    hide RecordIn, RecordEvent;
    RecordIsLocal(s, i, event, first, second, allocates);
    RecordEnabled(s, i, event, first, second, allocates);
  }

  lemma RecordEnabled(s: State, i: nat, event: Event, first: Qword, second: Qword, allocates: bool)
    requires i < |s.threads|
    ensures RecordEvent(s, i, event, first, second, allocates).isEnabled == s.isEnabled
  {
    hide Layout;
  }
}
