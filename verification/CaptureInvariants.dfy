// What every run of recording, enabling, disabling, flushing and thread exits
// keeps true of the blocks and their events.
module CaptureInvariants {
  import opened Wrappers
  import opened Qwords
  import opened EventWriter
  import opened BlockLayout
  import opened BlockRoundTrip
  import opened CaptureState

  /** Event times do not decrease and none is before the block begins. */
  predicate NotBackwards(es: seq<Timed>, begin: Qword) {
    forall i | 0 <= i < |es| :: PreviousTime(es, begin, i) <= es[i].time
  }

  /** The time of the last event, or the begin time. */
  function LastTime(b: Block): Qword {
    PreviousTime(b.events, b.begin, |b.events|)
  }

  predicate GoodBlock(b: Block) {
    Recordable(b.events) && NotBackwards(b.events, b.begin)
  }

  /** Threads are told apart by their ids and own the block their info points into. */
  predicate ThreadsOk(s: State) {
    && (forall i | 0 <= i < |s.threads| :: s.threads[i].id < s.nextThread && (s.threads[i].info == InBlock <==> s.threads[i].current.Some?))
    && (forall i, j | 0 <= i < j < |s.threads| :: s.threads[i].id != s.threads[j].id)
    && (forall i | 0 <= i < |s.threads| && s.threads[i].current.Some? ::
          var b := s.threads[i].current.value;
          b.thread == s.threads[i].id && GoodBlock(b) && LastTime(b) <= s.clock)
  }

  predicate ClosedOk(s: State) {
    forall j | 0 <= j < |s.closed| ::
      var c := s.closed[j];
      && GoodBlock(c.block) && c.block.thread < s.nextThread
      && (c.handed ==> LastTime(c.block) <= c.block.end <= s.clock)
  }

  /** A thread's blocks follow each other without overlap. */
  predicate BlockOrder(s: State) {
    && (forall j, k | 0 <= j < k < |s.closed| && s.closed[j].handed && s.closed[j].block.thread == s.closed[k].block.thread ::
          s.closed[j].block.end <= s.closed[k].block.begin)
    && (forall j, i | 0 <= j < |s.closed| && 0 <= i < |s.threads| && s.closed[j].handed && s.threads[i].current.Some?
                      && s.closed[j].block.thread == s.threads[i].id ::
          s.closed[j].block.end <= s.threads[i].current.value.begin)
  }

  predicate Sound(s: State) {
    ThreadsOk(s) && ClosedOk(s) && BlockOrder(s) && s.clock > 0
  }

  lemma TickSound(s: State, time: Qword)
    requires Sound(s) && s.clock <= time
    ensures Sound(Tick(s, time))
  {
    hide GoodBlock, LastTime;
  }

  lemma CloseSound(s: State, i: nat, write: bool)
    requires Sound(s) && i < |s.threads|
    ensures Sound(Close(s, i, s.clock, write))
  {
    hide Recordable, NotBackwards, PreviousTime;
    CloseShape(s, i, write);
  }

  /** What closing does to a sound state. */
  lemma CloseShape(s: State, i: nat, write: bool)
    requires Sound(s) && i < |s.threads|
    ensures var t, u := s.threads[i], Close(s, i, s.clock, write);
            && u.threads == s.threads[i := FlushThread(t)] && FlushThread(t).current == None && FlushThread(t).info != InBlock
            && u.clock == s.clock && u.nextThread == s.nextThread
            && u.closed == (if t.current.Some? then s.closed + [Closed(t.current.value.(end := s.clock), true)] else s.closed)
  {
    hide GoodBlock, LastTime;
  }

  lemma LookSound(s: State, i: nat)
    requires Sound(s) && i < |s.threads|
    ensures Sound(Look(s, i))
  {
    hide GoodBlock, LastTime;
  }

  lemma AppendSound(s: State, i: nat, event: Event)
    requires Sound(s) && i < |s.threads| && s.threads[i].current.Some? && s.threads[i].current.value.Cursor() < BIASED_LIMIT
    ensures Sound(Append(s, i, Timed(s.clock, event)))
  {
    hide GoodBlock, LastTime, Recordable, NotBackwards, PreviousTime, Layout;
    AppendGood(s.threads[i].current.value, Timed(s.clock, event));
  }

  lemma AppendGood(b: Block, event: Timed)
    requires GoodBlock(b) && b.Cursor() < BIASED_LIMIT && LastTime(b) <= event.time
    ensures var b' := b.(events := b.events + [event]);
            GoodBlock(b') && LastTime(b') == event.time
  {
    hide Layout;
    var es, es' := b.events, b.events + [event];
    forall k | 0 <= k < |es'|
      ensures Start(es', k) < BIASED_LIMIT && PreviousTime(es', b.begin, k) <= es'[k].time
    {
      assert es'[..k] == es[..k];
      assert k < |es| ==> Start(es, k) < BIASED_LIMIT && PreviousTime(es, b.begin, k) <= es[k].time;
      assert es[..|es|] == es;
    }
  }

  lemma OpenSound(s: State, i: nat)
    requires Sound(s) && i < |s.threads| && s.threads[i].current.None?
    ensures Sound(Open(s, i, s.clock))
  {
    hide GoodBlock, LastTime;
    NewBlockGood(s.nextBlock, s.threads[i].id, s.clock);
  }

  lemma NewBlockGood(id: nat, thread: nat, begin: Qword)
    ensures GoodBlock(NewBlock(id, thread, begin)) && LastTime(NewBlock(id, thread, begin)) == begin
    ensures NewBlock(id, thread, begin).Cursor() == 0
  {
  }

  /** Stop and WriteOne do not touch what the other invariants speak of. */
  lemma WorkerSound(s: State, written: seq<Block>, waiting: seq<Block>)
    requires Sound(s)
    ensures Sound(s.(written := written, waiting := waiting))
  {
    hide GoodBlock, LastTime;
  }

  lemma RemoveSound(s: State, i: nat)
    requires Sound(s) && i < |s.threads|
    ensures Sound(s.(threads := s.threads[..i] + s.threads[i + 1..]))
  {
    hide GoodBlock, LastTime;
    var rest := s.threads[..i] + s.threads[i + 1..];
    assert forall k | 0 <= k < |rest| :: rest[k] == s.threads[if k < i then k else k + 1];
  }

  lemma RegisterSound(s: State)
    requires Sound(s)
    ensures Sound(Apply(s, Register))
  {
    hide GoodBlock, LastTime;
  }

  lemma EnableSound(s: State, enabled: bool)
    requires Sound(s)
    ensures Sound(s.(isEnabled := enabled, threads := SetEnabled(s.threads, enabled)))
  {
    hide GoodBlock, LastTime;
  }

  lemma ReplaceSound(s: State, i: nat, event: Event, first: Qword, second: Qword, allocates: bool)
    requires Sound(s) && i < |s.threads| && s.clock <= first <= second
    ensures Sound(Replace(s, i, event, first, second, allocates))
  {
    hide Sound, GoodBlock, Close;
    TickSound(s, first);
    var s0 := Tick(s, first);
    CloseSound(s0, i, false);
    var s1 := Close(s0, i, first, false);
    ClosedThread(s0, i, false);
    if allocates {
      var time := if event.EndSpan? then first else second;
      TickSound(s1, time);
      OpenSound(Tick(s1, time), i);
      var s2 := Open(Tick(s1, time), i, time);
      NewBlockGood(s1.nextBlock, s1.threads[i].id, time);
      if time != 0 {
        AppendSound(s2, i, event);
      }
    }
  }

  lemma ClosedThread(s: State, i: nat, write: bool)
    requires Sound(s) && i < |s.threads|
    ensures var u := Close(s, i, s.clock, write);
            u.threads[i].current == None && u.clock == s.clock && |u.threads| == |s.threads|
  {
    hide GoodBlock, LastTime;
    CloseShape(s, i, write);
  }

  lemma RecordSound(s: State, i: nat, event: Event, first: Qword, second: Qword, allocates: bool)
    requires Sound(s) && i < |s.threads| && s.clock <= first <= second
    ensures Sound(RecordEvent(s, i, event, first, second, allocates))
  {
    hide Sound, Replace, Append, GoodBlock;
    LookSound(s, i);
    var s1 := Look(s, i);
    if MustReplace(s1.threads[i]) {
      ReplaceSound(s1, i, event, first, second, allocates);
    } else if s1.threads[i].current.Some? {
      TickSound(s1, first);
      AppendSound(Tick(s1, first), i, event);
    }
  }

  lemma {:induction false} FlushSound(s: State, n: nat, time: Qword)
    requires Sound(s) && n <= |s.threads| && s.clock == time
    ensures Sound(FlushThreads(s, n, time)) && FlushThreads(s, n, time).clock == time
    ensures forall i | 0 <= i < |s.threads| :: FlushThreads(s, n, time).threads[i].id == s.threads[i].id
    ensures forall i | 0 <= i < n :: FlushThreads(s, n, time).threads[i].current == None
    ensures forall i | n <= i < |s.threads| :: FlushThreads(s, n, time).threads[i] == s.threads[i]
  {
    hide Sound, GoodBlock, Close;
    if n > 0 {
      FlushSound(s, n - 1, time);
      var f := FlushThreads(s, n - 1, time);
      CloseSound(f, n - 1, true);
      ClosedThread(f, n - 1, true);
      CloseShape(f, n - 1, true);
    }
  }

  lemma StepSound(s: State, a: Step)
    requires Sound(s) && Enabled(s, a)
    ensures Sound(Apply(s, a))
  {
    hide Sound, RecordEvent, Close, FlushThreads, GoodBlock;
    match a {
      case Register => RegisterSound(s);
      case Record(i, event, first, second, allocates) => RecordSound(s, i, event, first, second, allocates);
      case Exit(i, time) =>
        TickSound(s, time);
        CloseSound(Tick(s, time), i, false);
        ClosedThread(Tick(s, time), i, false);
        RemoveSound(Close(Tick(s, time), i, time, false), i);
      case Enable => EnableSound(s, true);
      case Disable =>
        EnableSound(s, false);
        var off := s.(isEnabled := false, threads := SetEnabled(s.threads, false));
        WorkerSound(off, off.written + off.waiting, []);
      case Flush(time) =>
        TickSound(s, time);
        var s1 := Tick(s, time);
        WorkerSound(s1, s1.written + s1.waiting, []);
        FlushSound(StopWorker(s1), |s.threads|, time);
      case WriteOne => WorkerSound(s, s.written + [s.waiting[0]], s.waiting[1..]);
    }
  }
}
