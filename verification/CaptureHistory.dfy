// Every recorded event stays in its thread's order, in exactly one block.
module CaptureHistory {
  import opened Wrappers
  import opened Qwords
  import opened EventWriter
  import opened BlockLayout
  import opened CaptureState
  import opened CaptureInvariants

  /** The blocks that were handed over to be written, in order. */
  function Handed(closed: seq<Closed>): seq<Block> {
    if closed == [] then []
    else
      var n := |closed| - 1;
      Handed(closed[..n]) + if closed[n].handed then [closed[n].block] else []
  }

  function Dropped(closed: seq<Closed>): seq<Block> {
    if closed == [] then []
    else
      var n := |closed| - 1;
      Dropped(closed[..n]) + if closed[n].handed then [] else [closed[n].block]
  }

  /** What thread `id` recorded. */
  function EventsOf(log: seq<LogEntry>, id: nat): seq<Timed> {
    if log == [] then []
    else
      var n := |log| - 1;
      EventsOf(log[..n], id) + if log[n].thread == id then [log[n].event] else []
  }

  /** The events in the blocks that thread `id` gave up. */
  function EventsIn(closed: seq<Closed>, id: nat): seq<Timed> {
    if closed == [] then []
    else
      var n := |closed| - 1;
      EventsIn(closed[..n], id) + if closed[n].block.thread == id then closed[n].block.events else []
  }

  function EventsWith(t: Thread): seq<Timed> {
    if t.current.Some? then t.current.value.events else []
  }

  /** The events in the block that thread `id` has. */
  function EventsNow(threads: seq<Thread>, id: nat): seq<Timed> {
    if threads == [] then [] else (if threads[0].id == id then EventsWith(threads[0]) else []) + EventsNow(threads[1..], id)
  }

  /** What thread `id` recorded is in its closed blocks and its current one, in that order, each event once. */
  predicate Ledger(s: State, id: nat) {
    EventsOf(s.log, id) == EventsIn(s.closed, id) + EventsNow(s.threads, id)
  }

  /** Closed blocks are written or waiting in the order in which they were handed over, or discarded. */
  predicate Outbox(s: State) {
    Handed(s.closed) == s.written + s.waiting && Dropped(s.closed) == s.discarded
  }

  lemma ClosedSnoc(closed: seq<Closed>, c: Closed, id: nat)
    ensures Handed(closed + [c]) == Handed(closed) + if c.handed then [c.block] else []
    ensures Dropped(closed + [c]) == Dropped(closed) + if c.handed then [] else [c.block]
    ensures EventsIn(closed + [c], id) == EventsIn(closed, id) + if c.block.thread == id then c.block.events else []
  {
    assert (closed + [c])[..|closed|] == closed;
  }

  lemma LogSnoc(log: seq<LogEntry>, e: LogEntry, id: nat)
    ensures EventsOf(log + [e], id) == EventsOf(log, id) + if e.thread == id then [e.event] else []
  {
    assert (log + [e])[..|log|] == log;
  }

  predicate Unique(threads: seq<Thread>) {
    forall i, j | 0 <= i < j < |threads| :: threads[i].id != threads[j].id
  }

  lemma {:induction false} NowNobody(threads: seq<Thread>, id: nat)
    requires forall i | 0 <= i < |threads| :: threads[i].id != id
    ensures EventsNow(threads, id) == []
  {
    if threads != [] {
      NowNobody(threads[1..], id);
    }
  }

  lemma {:induction false} NowAt(threads: seq<Thread>, i: nat)
    requires i < |threads| && Unique(threads)
    ensures EventsNow(threads, threads[i].id) == EventsWith(threads[i])
    decreases i
  {
    if i == 0 {
      NowNobody(threads[1..], threads[0].id);
    } else {
      NowAt(threads[1..], i - 1);
    }
  }

  lemma {:induction false} NowElse(threads: seq<Thread>, i: nat, t: Thread, id: nat)
    requires i < |threads| && t.id == threads[i].id != id
    ensures EventsNow(threads[i := t], id) == EventsNow(threads, id)
    decreases i
  {
    if i == 0 {
      assert threads[i := t][1..] == threads[1..];
    } else {
      assert threads[i := t][1..] == threads[1..][i - 1 := t];
      NowElse(threads[1..], i - 1, t, id);
    }
  }

  /** Changing one thread changes only what that thread has. */
  lemma NowUpdate(threads: seq<Thread>, i: nat, t: Thread, id: nat)
    requires i < |threads| && t.id == threads[i].id && Unique(threads)
    ensures EventsNow(threads[i := t], id) == if id == t.id then EventsWith(t) else EventsNow(threads, id)
    ensures id == t.id ==> EventsNow(threads, id) == EventsWith(threads[i])
  {
    if id == t.id {
      NowAt(threads, i);
      NowAt(threads[i := t], i);
    } else {
      NowElse(threads, i, t, id);
    }
  }

  lemma {:induction false} NowRemove(threads: seq<Thread>, i: nat, id: nat)
    requires i < |threads| && threads[i].current.None?
    ensures EventsNow(threads[..i] + threads[i + 1..], id) == EventsNow(threads, id)
    decreases i
  {
    var rest := threads[..i] + threads[i + 1..];
    if i == 0 {
      assert rest == threads[1..];
    } else {
      assert rest[1..] == threads[1..][..i - 1] + threads[1..][i..];
      NowRemove(threads[1..], i - 1, id);
    }
  }

  lemma {:induction false} NowSnoc(threads: seq<Thread>, t: Thread, id: nat)
    requires t.current.None?
    ensures EventsNow(threads + [t], id) == EventsNow(threads, id)
  {
    if threads == [] {
      assert (threads + [t])[1..] == [];
    } else {
      assert (threads + [t])[1..] == threads[1..] + [t];
      NowSnoc(threads[1..], t, id);
    }
  }

  lemma {:induction false} NowEnabled(threads: seq<Thread>, enabled: bool, id: nat)
    ensures EventsNow(SetEnabled(threads, enabled), id) == EventsNow(threads, id)
  {
    if threads != [] {
      assert SetEnabled(threads, enabled)[1..] == SetEnabled(threads[1..], enabled);
      NowEnabled(threads[1..], enabled, id);
    }
  }

  lemma CloseLedger(s: State, i: nat, write: bool, id: nat)
    requires Sound(s) && Ledger(s, id) && i < |s.threads|
    ensures Ledger(Close(s, i, s.clock, write), id)
  {
    hide GoodBlock, LastTime, EventsNow, EventsIn, EventsOf, BlockOrder, ClosedOk;
    var t := s.threads[i];
    NowUpdate(s.threads, i, FlushThread(t), id);
    if t.current.Some? {
      ClosedSnoc(s.closed, Closed(FlushedBlock(t, s.clock).value, true), id);
    }
  }

  lemma CloseOutbox(s: State, i: nat, time: Qword, write: bool)
    requires Outbox(s) && i < |s.threads| && (write ==> s.waiting == [])
    ensures Outbox(Close(s, i, time, write)) && (write ==> Close(s, i, time, write).waiting == [])
  {
    hide Handed, Dropped;
    var t := s.threads[i];
    if t.current.Some? {
      var b := FlushedBlock(t, time).value;
      ClosedSnoc(s.closed, Closed(b, true), 0);
      assert s.written + (s.waiting + [b]) == s.written + s.waiting + [b];
    }
  }

  lemma LookKeeps(s: State, i: nat, id: nat)
    requires Sound(s) && i < |s.threads| && Ledger(s, id) && Outbox(s)
    ensures Ledger(Look(s, i), id) && Outbox(Look(s, i))
  {
    hide GoodBlock, LastTime, EventsNow, EventsIn, EventsOf, BlockOrder, ClosedOk, Handed, Dropped;
    var t := s.threads[i];
    NowUpdate(s.threads, i, Refresh(t), id);
    if t.current.Some? {
      ClosedSnoc(s.closed, Closed(t.current.value, false), id);
    }
  }

  lemma AppendKeeps(s: State, i: nat, event: Timed, id: nat)
    requires Sound(s) && i < |s.threads| && s.threads[i].current.Some? && Ledger(s, id) && Outbox(s)
    ensures Ledger(Append(s, i, event), id) && Outbox(Append(s, i, event))
  {
    hide GoodBlock, LastTime, EventsNow, EventsIn, EventsOf, BlockOrder, ClosedOk, Handed, Dropped;
    NowUpdate(s.threads, i, Append(s, i, event).threads[i], id);
    LogSnoc(s.log, LogEntry(s.threads[i].id, event), id);
  }

  lemma OpenKeeps(s: State, i: nat, begin: Qword, id: nat)
    requires Sound(s) && i < |s.threads| && s.threads[i].current.None? && Ledger(s, id) && Outbox(s)
    ensures Ledger(Open(s, i, begin), id) && Outbox(Open(s, i, begin))
  {
    hide GoodBlock, LastTime, EventsNow, EventsIn, EventsOf, BlockOrder, ClosedOk, Handed, Dropped;
    NowUpdate(s.threads, i, Open(s, i, begin).threads[i], id);
  }

  lemma TickKeeps(s: State, time: Qword, id: nat)
    requires Ledger(s, id) && Outbox(s)
    ensures Ledger(Tick(s, time), id) && Outbox(Tick(s, time))
  {
  }

  lemma ReplaceKeeps(s: State, i: nat, event: Event, first: Qword, second: Qword, allocates: bool, id: nat)
    requires Sound(s) && i < |s.threads| && s.clock <= first <= second && Ledger(s, id) && Outbox(s)
    ensures Ledger(Replace(s, i, event, first, second, allocates), id) && Outbox(Replace(s, i, event, first, second, allocates))
  {
    hide Sound, Ledger, Outbox, Close, Open, Append;
    var s0 := Tick(s, first);
    TickSound(s, first);
    TickKeeps(s, first, id);
    CloseSound(s0, i, false);
    CloseLedger(s0, i, false, id);
    CloseOutbox(s0, i, first, false);
    ClosedThread(s0, i, false);
    var s1 := Close(s0, i, first, false);
    if allocates {
      var time := if event.EndSpan? then first else second;
      TickSound(s1, time);
      TickKeeps(s1, time, id);
      OpenSound(Tick(s1, time), i);
      OpenKeeps(Tick(s1, time), i, time, id);
      OpenedThread(Tick(s1, time), i, time);
      if time != 0 {
        AppendKeeps(Open(Tick(s1, time), i, time), i, Timed(time, event), id);
      }
    }
  }

  lemma OpenedThread(s: State, i: nat, begin: Qword)
    requires i < |s.threads|
    ensures |Open(s, i, begin).threads| == |s.threads| && Open(s, i, begin).threads[i].current.Some?
  {
  }

  lemma RecordKeeps(s: State, i: nat, event: Event, first: Qword, second: Qword, allocates: bool, id: nat)
    requires Sound(s) && i < |s.threads| && s.clock <= first <= second && Ledger(s, id) && Outbox(s)
    ensures Ledger(RecordEvent(s, i, event, first, second, allocates), id) && Outbox(RecordEvent(s, i, event, first, second, allocates))
  {
    hide Sound, Ledger, Outbox, Append, Replace, GoodBlock;
    LookSound(s, i);
    LookKeeps(s, i, id);
    var s1 := Look(s, i);
    if MustReplace(s1.threads[i]) {
      ReplaceKeeps(s1, i, event, first, second, allocates, id);
    } else if s1.threads[i].current.Some? {
      TickSound(s1, first);
      TickKeeps(s1, first, id);
      AppendKeeps(Tick(s1, first), i, Timed(first, event), id);
    }
  }

  lemma {:induction false} FlushKeeps(s: State, n: nat, time: Qword, id: nat)
    requires Sound(s) && n <= |s.threads| && s.clock == time && Ledger(s, id) && Outbox(s) && s.waiting == []
    ensures Ledger(FlushThreads(s, n, time), id) && Outbox(FlushThreads(s, n, time)) && FlushThreads(s, n, time).waiting == []
  {
    hide Sound, Ledger, Outbox, Close;
    if n > 0 {
      FlushKeeps(s, n - 1, time, id);
      FlushSound(s, n - 1, time);
      CloseLedger(FlushThreads(s, n - 1, time), n - 1, true, id);
      CloseOutbox(FlushThreads(s, n - 1, time), n - 1, time, true);
    }
  }

  lemma StopKeeps(s: State, id: nat)
    requires Ledger(s, id) && Outbox(s)
    ensures Ledger(StopWorker(s), id) && Outbox(StopWorker(s)) && StopWorker(s).waiting == []
  {
    assert s.written + s.waiting + [] == s.written + s.waiting;
  }

  lemma WriteOneKeeps(s: State, id: nat)
    requires Ledger(s, id) && Outbox(s) && s.waiting != []
    ensures Ledger(Apply(s, WriteOne), id) && Outbox(Apply(s, WriteOne))
  {
    assert s.written + [s.waiting[0]] + s.waiting[1..] == s.written + s.waiting;
  }

  lemma StepKeeps(s: State, a: Step, id: nat)
    requires Sound(s) && Enabled(s, a) && Ledger(s, id) && Outbox(s)
    ensures Ledger(Apply(s, a), id) && Outbox(Apply(s, a))
  {
    hide Sound, RecordEvent, Close, FlushThreads, EventsNow, EventsIn, EventsOf, Handed, Dropped;
    match a {
      case Register => NowSnoc(s.threads, NewThread(s.nextThread, s.isEnabled), id);
      case Record(i, event, first, second, allocates) => RecordKeeps(s, i, event, first, second, allocates, id);
      case Exit(i, time) => ExitKeeps(s, i, time, id);
      case Enable => NowEnabled(s.threads, true, id);
      case Disable =>
        NowEnabled(s.threads, false, id);
        StopKeeps(s.(isEnabled := false, threads := SetEnabled(s.threads, false)), id);
      case Flush(time) =>
        TickSound(s, time);
        var s1 := Tick(s, time);
        WorkerSound(s1, s1.written + s1.waiting, []);
        StopKeeps(s1, id);
        FlushKeeps(StopWorker(s1), |s.threads|, time, id);
      case WriteOne => WriteOneKeeps(s, id);
    }
  }

  lemma ExitKeeps(s: State, i: nat, time: Qword, id: nat)
    requires Sound(s) && i < |s.threads| && s.clock <= time && Ledger(s, id) && Outbox(s)
    ensures Ledger(Apply(s, Exit(i, time)), id) && Outbox(Apply(s, Exit(i, time)))
  {
    hide Sound, Close, EventsNow, EventsIn, EventsOf, Handed, Dropped;
    var s0 := Tick(s, time);
    TickSound(s, time);
    TickKeeps(s, time, id);
    CloseLedger(s0, i, false, id);
    CloseOutbox(s0, i, time, false);
    ClosedThread(s0, i, false);
    NowRemove(Close(s0, i, time, false).threads, i, id);
  }
}
