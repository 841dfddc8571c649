// What each step of a capture does, said of the state before and after it.
module CaptureEffects {
  import opened Wrappers
  import opened Qwords
  import opened EventWriter
  import opened BlockLayout
  import opened CaptureState
  import opened CaptureInvariants
  import opened CaptureRuns
  import opened ThreadData
  import opened EtwWriter

  // Enabling

  /** Every registered thread records exactly while the capture is enabled. */
  predicate Together(s: State) {
    forall i | 0 <= i < |s.threads| :: s.threads[i].enabled == s.isEnabled
  }

  lemma RecordTogether(s: State, i: nat, event: Event, first: Qword, second: Qword, allocates: bool)
    requires Together(s) && Enabled(s, Record(i, event, first, second, allocates))
    ensures Together(Apply(s, Record(i, event, first, second, allocates)))
  {
    hide Layout, Apply;
    RecordMeans(s, i, event, first, second, allocates);
    RecordKeepsFlag(s.threads[i], event, first, second, if allocates then Some(s.nextBlock) else None);
  }

  lemma RecordKeepsFlag(t: Thread, event: Event, first: Qword, second: Qword, newId: Option<nat>)
    ensures RecordIn(t, event, first, second, newId).thread.enabled == t.enabled
  {
    hide Layout;
  }

  lemma StepTogether(s: State, a: Step)
    requires Together(s) && Enabled(s, a)
    ensures Together(Apply(s, a))
  {
    hide RecordEvent, Close, FlushThreads;
    match a {
      case Record(i, event, first, second, allocates) => RecordTogether(s, i, event, first, second, allocates);
      case Exit(i, time) => ExitMeans(s, i, time);
      case Flush(time) => FlushMeans(s, time);
      case _ =>
    }
  }

  lemma {:induction false} RunTogether(s: State, steps: seq<Step>, t: State)
    requires Together(s) && IsRun(s, steps, t)
    ensures Together(t)
    decreases |steps|
  {
    hide Together, Apply, Enabled;
    if steps != [] {
      StepTogether(s, steps[0]);
      RunTogether(Apply(s, steps[0]), steps[1..], t);
    }
  }

  /** In every run a thread is enabled exactly if the capture is, and Enable and Disable switch it. */
  lemma EnabledTogether(s: State)
    requires Reachable(s)
    ensures forall i | 0 <= i < |s.threads| :: s.threads[i].enabled <==> s.isEnabled
    ensures Apply(s, Enable).isEnabled && !Apply(s, Disable).isEnabled
    ensures forall i | 0 <= i < |s.threads| :: Apply(s, Enable).threads[i] == s.threads[i].(enabled := true)
    ensures forall i | 0 <= i < |s.threads| :: Apply(s, Disable).threads[i] == s.threads[i].(enabled := false)
  {
    hide IsRun;
    var clock: Qword, steps :| clock > 0 && IsRun(Initial(clock), steps, s);
    RunTogether(Initial(clock), steps, s);
  }

  // Recording

  /** The thread's block leaves more than 64 qwords for the event. */
  predicate HasRoom(t: Thread) {
    t.current.Some? && |Layout(t.current.value.events)| + 64 < 2042
  }

  /** When the event is recorded: the first time read, or the second one if a block had to be replaced and it is no end event. */
  function RecordedTime(t: Thread, event: Event, first: Qword, second: Qword): Qword {
    if HasRoom(t) || event.EndSpan? then first else second
  }

  /**
   * A recording call records exactly if capture is enabled and the thread has
   * room in its block or gets a new one.  The event is then the last one of the
   * thread's current block; a block that was full is handed over, ended at the
   * first time read, and the new one begins with the event.
   */
  lemma RecordExact(s: State, i: nat, event: Event, first: Qword, second: Qword, allocates: bool)
    requires Reachable(s) && Enabled(s, Record(i, event, first, second, allocates))
    ensures var t, was := Apply(s, Record(i, event, first, second, allocates)), s.threads[i];
            var time := RecordedTime(was, event, first, second);
            && |t.threads| == |s.threads|
            && (s.isEnabled && (HasRoom(was) || allocates) ==>
                  && t.log == s.log + [LogEntry(was.id, Timed(time, event))]
                  && t.threads[i].current.Some?
                  && t.threads[i].current.value
                  == (if HasRoom(was) then was.current.value.(events := was.current.value.events + [Timed(time, event)])
                      else Block(s.nextBlock, was.id, time, 0xFFFF_FFFF_FFFF_FFFF, [Timed(time, event)])))
            && (!(s.isEnabled && (HasRoom(was) || allocates)) ==> t.log == s.log && t.threads[i].current.None?)
            && t.waiting == s.waiting + (if s.isEnabled && !HasRoom(was) && was.current.Some? then [was.current.value.(end := first)] else [])
            && t.discarded == s.discarded + (if !s.isEnabled && was.current.Some? then [was.current.value] else [])
  {
    hide Layout, Apply, Reachable;
    EnabledTogether(s);
    ReachableInv(s);
    RecordIsLocal(s, i, event, first, second, allocates);
    RecordIsStep(s, i, event, first, second, allocates);
    LocalExact(s.threads[i], event, first, second, if allocates then Some(s.nextBlock) else None);
  }

  lemma RecordIsStep(s: State, i: nat, event: Event, first: Qword, second: Qword, allocates: bool)
    requires Enabled(s, Record(i, event, first, second, allocates))
    ensures i < |s.threads|
    ensures Apply(s, Record(i, event, first, second, allocates)) == RecordEvent(s, i, event, first, second, allocates)
  {
  }

  lemma LocalExact(t: Thread, event: Event, first: Qword, second: Qword, newId: Option<nat>)
    requires (t.info == InBlock <==> t.current.Some?) && 0 < first <= second
    ensures var r, time := RecordIn(t, event, first, second, newId), RecordedTime(t, event, first, second);
            && (t.enabled && (HasRoom(t) || newId.Some?) ==>
                  && r.logged == Some(Timed(time, event)) && r.thread.current.Some?
                  && r.thread.current.value
                  == (if HasRoom(t) then t.current.value.(events := t.current.value.events + [Timed(time, event)])
                      else Block(newId.value, t.id, time, 0xFFFF_FFFF_FFFF_FFFF, [Timed(time, event)])))
            && (!(t.enabled && (HasRoom(t) || newId.Some?)) ==> r.logged == None && r.thread.current.None?)
            && r.handed == (if t.enabled && !HasRoom(t) && t.current.Some? then Some(t.current.value.(end := first)) else None)
            && r.dropped == (if !t.enabled then t.current else None)
  {
    hide Layout;
  }

  // Giving blocks up

  /** The blocks that the threads have, ended at `time`. */
  function CurrentEnded(threads: seq<Thread>, time: Qword): seq<Block> {
    if threads == [] then []
    else
      var n := |threads| - 1;
      CurrentEnded(threads[..n], time) + if threads[n].current.Some? then [threads[n].current.value.(end := time)] else []
  }

  lemma {:induction false} FlushedAreEnded(threads: seq<Thread>, time: Qword)
    requires forall i | 0 <= i < |threads| :: threads[i].info == InBlock <==> threads[i].current.Some?
    ensures FlushedBlocks(threads, time) == CurrentEnded(threads, time)
    decreases |threads|
  {
    if threads != [] {
      FlushedAreEnded(threads[..|threads| - 1], time);
    }
  }

  /** A flush does nothing unless capture is enabled; then what waits is written, and then every thread's block, ended at that time. */
  lemma FlushExact(s: State, time: Qword)
    requires Reachable(s) && s.clock <= time
    ensures !s.isEnabled ==> Apply(s, Flush(time)) == s
    ensures s.isEnabled ==>
              var t := Apply(s, Flush(time));
              t.isEnabled && t.waiting == [] && t.written == s.written + s.waiting + CurrentEnded(s.threads, time)
  {
    hide Apply, Reachable;
    ReachableInv(s);
    FlushMeans(s, time);
    FlushedAreEnded(s.threads, time);
  }

  /** An exiting thread is no longer registered, and its block is handed over, ended at that time. */
  lemma ExitExact(s: State, i: nat, time: Qword)
    requires Reachable(s) && Enabled(s, Exit(i, time))
    ensures var t, was := Apply(s, Exit(i, time)), s.threads[i];
            && t.threads == s.threads[..i] + s.threads[i + 1..] && t.written == s.written
            && t.waiting == s.waiting + (if was.current.Some? then [was.current.value.(end := time)] else [])
  {
    hide Apply, Reachable;
    ReachableInv(s);
    ExitEnabled(s, i, time);
    ExitMeans(s, i, time);
    var flushed := s.threads[i := FlushThread(s.threads[i])];
    assert flushed[..i] == s.threads[..i] && flushed[i + 1..] == s.threads[i + 1..];
  }

  lemma ExitEnabled(s: State, i: nat, time: Qword)
    requires Enabled(s, Exit(i, time))
    ensures i < |s.threads| && s.clock <= time
  {
  }

  /** A new thread is registered last, without a block. */
  lemma RegisterExact(s: State)
    ensures Apply(s, Register).threads == s.threads + [Thread(s.nextThread, s.isEnabled, Null, None)]
    ensures Apply(s, Register).nextThread == s.nextThread + 1
  {
  }

  /** Enabling and disabling twice does nothing more; only a Disable stops the worker. */
  lemma SwitchExact(s: State)
    ensures s.isEnabled ==> Apply(s, Enable) == s
    ensures !s.isEnabled ==> Apply(s, Disable) == s
    ensures var t := Apply(s, Enable);
            t.waiting == s.waiting && t.written == s.written && t.log == s.log && t.discarded == s.discarded
    ensures s.isEnabled ==>
              var t := Apply(s, Disable);
              t.waiting == [] && t.written == s.written + s.waiting && t.log == s.log && t.discarded == s.discarded
  {
  }
}
