// Threads, their blocks, and where each block goes: the values behind
// ThreadData, Threads and EtwWriter.
module CaptureState {
  import opened Wrappers
  import opened Qwords
  import opened Memory
  import opened EventWriter
  import opened BlockLayout

  const TIME_MAX: Qword := TWO_64 - 1

  /** A block with the header fields that matter and the events in its data. */
  datatype Block = Block(id: nat, thread: nat, begin: Qword, end: Qword, events: seq<Timed>)
  {
    /** `destination`, counted from the start of the data. */
    function Cursor(): nat {
      |Layout(events)|
    }
  }

  /** The data of these blocks hold the events that were recorded in them. */
  ghost predicate Held(blocks: seq<Block>, data: seq<Words>) {
    |data| == |blocks| && forall i | 0 <= i < |blocks| && blocks[i].events != [] :: BlockHolds(data[i], blocks[i].events)
  }

  /** PIXEventsThreadInfo: all null, the value that makes the next event ask for a block, or a place in a block. */
  datatype Info = Null | WantsBlock | InBlock

  datatype Thread = Thread(id: nat, enabled: bool, info: Info, current: Option<Block>)

  function NewThread(id: nat, enabled: bool): Thread {
    Thread(id, enabled, Null, None)
  }

  /** GetPixEventsThreadInfo; a disabled thread loses its block. */
  function Refresh(t: Thread): Thread {
    if t.enabled then
      if t.info == Null then t.(info := WantsBlock) else t
    else t.(info := Null, current := None)
  }

  /** ThreadData::Flush: what becomes of the thread, and the block it hands over. */
  function FlushThread(t: Thread): Thread {
    if t.info == InBlock then t.(info := Null, current := None) else t.(current := None)
  }

  function FlushedBlock(t: Thread, time: Qword): Option<Block> {
    if t.current.Some? && t.info == InBlock then Some(t.current.value.(end := time)) else t.current
  }

  /** BlockAllocator::Allocate: a block without events that has not ended. */
  function NewBlock(id: nat, thread: nat, begin: Qword): Block {
    Block(id, thread, begin, TIME_MAX, [])
  }

  /** There is no room for another event, or no block at all. */
  predicate MustReplace(t: Thread) {
    t.info == WantsBlock || (t.current.Some? && t.current.value.Cursor() >= BIASED_LIMIT)
  }

  /** A block that was taken from its thread, to be written or because capture was disabled. */
  datatype Closed = Closed(block: Block, handed: bool)

  datatype LogEntry = LogEntry(thread: nat, event: Timed)

  datatype State = State(
    isEnabled: bool,
    threads: seq<Thread>,       // the registered ones
    waiting: seq<Block>,        // added to the worker and not written yet
    written: seq<Block>,
    discarded: seq<Block>,
    clock: Qword,               // the last time that was read
    nextBlock: nat,
    nextThread: nat,
    closed: seq<Closed>,        // history: every block that left its thread
    log: seq<LogEntry>)         // history: every event that was put into a block

  function Initial(clock: Qword): State {
    State(false, [], [], [], [], clock, 0, 0, [], [])
  }

  datatype Step =
    | Register
    | Record(i: nat, event: Event, first: Qword, second: Qword, allocates: bool)
    | Exit(i: nat, time: Qword)
    | Enable
    | Disable
    | Flush(time: Qword)
    | WriteOne

  predicate Enabled(s: State, a: Step) {
    match a
    case Register => true
    case Record(i, _, first, second, _) => i < |s.threads| && s.clock <= first <= second
    case Exit(i, time) => i < |s.threads| && s.clock <= time
    case Enable => true
    case Disable => true
    case Flush(time) => s.clock <= time
    case WriteOne => s.waiting != []
  }

  // Building blocks of the steps

  function Tick(s: State, time: Qword): State {
    s.(clock := time)
  }

  function SetThread(s: State, i: nat, t: Thread): State
    requires i < |s.threads|
  {
    s.(threads := s.threads[i := t])
  }

  /** The thread's block is taken from it at `time` and goes to the worker, or straight to be written. */
  function Close(s: State, i: nat, time: Qword, write: bool): State
    requires i < |s.threads|
  {
    var t := s.threads[i];
    var s' := SetThread(s, i, FlushThread(t));
    match FlushedBlock(t, time)
    case None => s'
    case Some(b) =>
      if write then s'.(written := s.written + [b], closed := s.closed + [Closed(b, true)])
      else s'.(waiting := s.waiting + [b], closed := s.closed + [Closed(b, true)])
  }

  /** The thread looks at its info before it records. */
  function Look(s: State, i: nat): State
    requires i < |s.threads|
  {
    var t := s.threads[i];
    var s' := SetThread(s, i, Refresh(t));
    if !t.enabled && t.current.Some? then
      s'.(discarded := s.discarded + [t.current.value], closed := s.closed + [Closed(t.current.value, false)])
    else s'
  }

  function Append(s: State, i: nat, event: Timed): State
    requires i < |s.threads| && s.threads[i].current.Some?
  {
    var t := s.threads[i];
    var b := t.current.value;
    SetThread(s, i, t.(current := Some(b.(events := b.events + [event])))).(log := s.log + [LogEntry(t.id, event)])
  }

  function Open(s: State, i: nat, begin: Qword): State
    requires i < |s.threads|
  {
    var t := s.threads[i];
    SetThread(s, i, t.(info := InBlock, current := Some(NewBlock(s.nextBlock, t.id, begin)))).(nextBlock := s.nextBlock + 1)
  }

  /** ReplaceBlock and what follows it in the Allocate forms; a time of zero means failure. */
  function Replace(s: State, i: nat, event: Event, first: Qword, second: Qword, allocates: bool): State
    requires i < |s.threads|
  {
    var s1 := Close(Tick(s, first), i, first, false);
    if !allocates then s1
    else
      var time := if event.EndSpan? then first else second;
      var s2 := Open(Tick(s1, time), i, time);
      if time == 0 then s2 else Append(s2, i, Timed(time, event))
  }

  /** A recording call. */
  function RecordEvent(s: State, i: nat, event: Event, first: Qword, second: Qword, allocates: bool): State
    requires i < |s.threads|
  {
    var s1 := Look(s, i);
    var t := s1.threads[i];
    if t.info == Null then s1
    else if MustReplace(t) then Replace(s1, i, event, first, second, allocates)
    else if t.current.Some? then Append(Tick(s1, first), i, Timed(first, event))
    else s1
  }

  /** Stop: everything the worker was given is written. */
  function StopWorker(s: State): State {
    s.(written := s.written + s.waiting, waiting := [])
  }

  function SetEnabled(threads: seq<Thread>, enabled: bool): (r: seq<Thread>)
    ensures |r| == |threads|
  {
    seq(|threads|, i requires 0 <= i < |threads| => threads[i].(enabled := enabled))
  }

  /** Threads::Flush over the first `n` threads. */
  function FlushThreads(s: State, n: nat, time: Qword): (r: State)
    requires n <= |s.threads|
    ensures |r.threads| == |s.threads|
  {
    if n == 0 then s else Close(FlushThreads(s, n - 1, time), n - 1, time, true)
  }

  function Apply(s: State, a: Step): State
    requires Enabled(s, a)
  {
    match a
    case Register => s.(threads := s.threads + [NewThread(s.nextThread, s.isEnabled)], nextThread := s.nextThread + 1)
    case Record(i, event, first, second, allocates) => RecordEvent(s, i, event, first, second, allocates)
    case Exit(i, time) =>
      var s1 := Close(Tick(s, time), i, time, false);
      s1.(threads := s1.threads[..i] + s1.threads[i + 1..])
    case Enable => if s.isEnabled then s else s.(isEnabled := true, threads := SetEnabled(s.threads, true))
    case Disable => if s.isEnabled then StopWorker(s.(isEnabled := false, threads := SetEnabled(s.threads, false))) else s
    case Flush(time) => if s.isEnabled then FlushThreads(StopWorker(Tick(s, time)), |s.threads|, time) else s
    case WriteOne => s.(written := s.written + [s.waiting[0]], waiting := s.waiting[1..])
  }
}
