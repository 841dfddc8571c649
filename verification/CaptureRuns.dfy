// Whole runs: what holds after any number of recording calls, captures,
// flushes and thread exits.
module CaptureRuns {
  import opened Wrappers
  import opened Qwords
  import opened EventWriter
  import opened BlockLayout
  import opened BlockRoundTrip
  import opened CaptureState
  import opened CaptureInvariants
  import opened CaptureConservation
  import opened CaptureHistory

  // No empty blocks

  predicate NonEmpty(s: State) {
    && (forall j | 0 <= j < |s.closed| :: s.closed[j].block.events != [])
    && (forall i | 0 <= i < |s.threads| && s.threads[i].current.Some? :: s.threads[i].current.value.events != [])
  }

  lemma CloseNonEmpty(s: State, i: nat, time: Qword, write: bool)
    requires NonEmpty(s) && i < |s.threads|
    ensures NonEmpty(Close(s, i, time, write)) && |Close(s, i, time, write).threads| == |s.threads|
    ensures Close(s, i, time, write).threads[i].current.None?
  {
  }

  lemma LookNonEmpty(s: State, i: nat)
    requires NonEmpty(s) && i < |s.threads|
    ensures NonEmpty(Look(s, i))
  {
  }

  lemma AppendNonEmpty(s: State, i: nat, event: Timed)
    requires NonEmpty(s) && i < |s.threads| && s.threads[i].current.Some?
    ensures NonEmpty(Append(s, i, event))
  {
  }

  lemma OpenAppendNonEmpty(s: State, i: nat, time: Qword, event: Timed)
    requires NonEmpty(s) && i < |s.threads|
    ensures NonEmpty(Append(Open(s, i, time), i, event))
  {
  }

  /** The clock is never zero, so a new block always gets the event it was opened for. */
  lemma RecordNonEmpty(s: State, i: nat, event: Event, first: Qword, second: Qword, allocates: bool)
    requires NonEmpty(s) && i < |s.threads| && 0 < s.clock <= first <= second
    ensures NonEmpty(RecordEvent(s, i, event, first, second, allocates))
  {
    hide NonEmpty, Close, Open, Append;
    LookNonEmpty(s, i);
    var s1 := Look(s, i);
    if MustReplace(s1.threads[i]) {
      TickNonEmpty(s1, first);
      CloseNonEmpty(Tick(s1, first), i, first, false);
      var s2 := Close(Tick(s1, first), i, first, false);
      var time := if event.EndSpan? then first else second;
      TickNonEmpty(s2, time);
      OpenAppendNonEmpty(Tick(s2, time), i, time, Timed(time, event));
    } else if s1.threads[i].current.Some? {
      TickNonEmpty(s1, first);
      AppendNonEmpty(Tick(s1, first), i, Timed(first, event));
    }
  }

  /** A recording call that opens a block leaves it empty exactly when the clock read zero. */
  lemma OpenedBlockExact(s: State, i: nat, event: Event, first: Qword, second: Qword)
    requires NonEmpty(s) && i < |s.threads|
    requires Look(s, i).threads[i].info != Null && MustReplace(Look(s, i).threads[i])
    ensures NonEmpty(RecordEvent(s, i, event, first, second, true)) <==> (if event.EndSpan? then first else second) != 0
  {
    hide NonEmpty, Replace, MustReplace;
    LookNonEmpty(s, i);
    ReplacedBlockExact(Look(s, i), i, event, first, second);
  }

  lemma ReplacedBlockExact(s: State, i: nat, event: Event, first: Qword, second: Qword)
    requires NonEmpty(s) && i < |s.threads|
    ensures NonEmpty(Replace(s, i, event, first, second, true)) <==> (if event.EndSpan? then first else second) != 0
  {
    hide NonEmpty, Close;
    TickNonEmpty(s, first);
    CloseNonEmpty(Tick(s, first), i, first, false);
    var s1 := Close(Tick(s, first), i, first, false);
    var time := if event.EndSpan? then first else second;
    TickNonEmpty(s1, time);
    OpenAppendNonEmpty(Tick(s1, time), i, time, Timed(time, event));
    OpenedEmpty(Tick(s1, time), i);
  }

  lemma OpenedEmpty(s: State, i: nat)
    requires i < |s.threads|
    ensures !NonEmpty(Open(s, i, 0))
  {
    assert Open(s, i, 0).threads[i].current.value.events == [];
  }

  lemma TickNonEmpty(s: State, time: Qword)
    requires NonEmpty(s)
    ensures NonEmpty(Tick(s, time))
  {
  }

  lemma {:induction false} FlushNonEmpty(s: State, n: nat, time: Qword)
    requires NonEmpty(s) && n <= |s.threads|
    ensures NonEmpty(FlushThreads(s, n, time))
  {
    hide NonEmpty, Close;
    if n > 0 {
      FlushNonEmpty(s, n - 1, time);
      CloseNonEmpty(FlushThreads(s, n - 1, time), n - 1, time, true);
    }
  }

  lemma StepNonEmpty(s: State, a: Step)
    requires NonEmpty(s) && Enabled(s, a) && s.clock > 0
    ensures NonEmpty(Apply(s, a))
  {
    hide RecordEvent, Close, FlushThreads;
    match a {
      case Record(i, event, first, second, allocates) => RecordNonEmpty(s, i, event, first, second, allocates);
      case Exit(i, time) => CloseNonEmpty(Tick(s, time), i, time, false);
      case Flush(time) => FlushNonEmpty(StopWorker(Tick(s, time)), |s.threads|, time);
      case _ =>
    }
  }

  // Runs

  ghost predicate Inv(s: State) {
    Sound(s) && Owned(s) && Outbox(s) && NonEmpty(s) && forall id: nat :: Ledger(s, id)
  }

  lemma StepInv(s: State, a: Step)
    requires Inv(s) && Enabled(s, a)
    ensures Inv(Apply(s, a))
  {
    hide Apply, Enabled, ThreadsOk, ClosedOk, BlockOrder, Owned, Outbox, NonEmpty, Ledger;
    StepSound(s, a);
    StepOwned(s, a);
    StepNonEmpty(s, a);
    forall id: nat
      ensures Ledger(Apply(s, a), id) && Outbox(Apply(s, a))
    {
      StepKeeps(s, a, id);
    }
    assert Ledger(Apply(s, a), 0);
  }

  ghost predicate IsRun(s: State, steps: seq<Step>, t: State)
    decreases |steps|
  {
    if steps == [] then t == s else Enabled(s, steps[0]) && IsRun(Apply(s, steps[0]), steps[1..], t)
  }

  /** Reachable while the clock does not go backwards, starting from a time that is not zero. */
  ghost predicate Reachable(s: State) {
    exists clock: Qword, steps :: clock > 0 && IsRun(Initial(clock), steps, s)
  }

  lemma {:induction false} RunInv(s: State, steps: seq<Step>, t: State)
    requires Inv(s) && IsRun(s, steps, t)
    ensures Inv(t)
    decreases |steps|
  {
    hide Inv, Apply, Enabled;
    if steps != [] {
      StepInv(s, steps[0]);
      RunInv(Apply(s, steps[0]), steps[1..], t);
    }
  }

  lemma ReachableInv(s: State)
    requires Reachable(s)
    ensures Inv(s)
  {
    var clock: Qword, steps :| clock > 0 && IsRun(Initial(clock), steps, s);
    assert Inv(Initial(clock));
    RunInv(Initial(clock), steps, s);
  }

  /** Each allocated block is in exactly one place: written, waiting, discarded, or with one thread. */
  lemma OnePlace(s: State, id: nat)
    requires Reachable(s)
    ensures Count(s.written, id) + Count(s.waiting, id) + Count(s.discarded, id) + Holders(s.threads, id) == if id < s.nextBlock then 1 else 0
  {
    ReachableInv(s);
    assert Places(s, id) == One(id < s.nextBlock);
  }

  /**
   * What a thread recorded is, in order and each event once, in the blocks it
   * gave up and the one it has; the blocks given up are written, waiting to be
   * written in the order in which they were filled, or discarded.
   */
  lemma EveryEventKept(s: State, id: nat)
    requires Reachable(s)
    ensures EventsOf(s.log, id) == EventsIn(s.closed, id) + EventsNow(s.threads, id)
    ensures Handed(s.closed) == s.written + s.waiting && Dropped(s.closed) == s.discarded
  {
    hide Sound, Owned, NonEmpty;
    ReachableInv(s);
    assert Ledger(s, id);
  }

  lemma {:induction false} HandedAt(closed: seq<Closed>, k: nat) returns (j: nat)
    requires k < |Handed(closed)|
    ensures j < |closed| && closed[j] == Closed(Handed(closed)[k], true) && |Handed(closed[..j])| == k
    decreases |closed|
  {
    var n := |closed| - 1;
    if k < |Handed(closed[..n])| {
      j := HandedAt(closed[..n], k);
      assert closed[..n][..j] == closed[..j];
    } else {
      j := n;
    }
  }

  lemma {:induction false} HandedMonotonic(closed: seq<Closed>, i: nat, j: nat)
    requires i <= j <= |closed|
    ensures |Handed(closed[..i])| <= |Handed(closed[..j])|
    decreases j
  {
    if i < j {
      HandedMonotonic(closed, i, j - 1);
      assert closed[..j][..j - 1] == closed[..j - 1];
    }
  }

  /**
   * The blocks that were written or are waiting, in that order: each has events,
   * all between its begin and its end time and in order; and the blocks of one
   * thread follow each other without overlap.
   */
  lemma BlocksInOrder(s: State, j: nat, k: nat)
    requires Reachable(s) && j <= k < |s.written + s.waiting|
    ensures var out := s.written + s.waiting;
            && out[k].events != [] && Recordable(out[k].events) && NotBackwards(out[k].events, out[k].begin)
            && LastTime(out[k]) <= out[k].end
            && (j < k && out[j].thread == out[k].thread ==> out[j].end <= out[k].begin)
  {
    hide Owned, Recordable, NotBackwards, Ledger;
    ReachableInv(s);
    var jj := HandedAt(s.closed, j);
    var kk := HandedAt(s.closed, k);
    if j < k {
      if kk < jj {
        HandedMonotonic(s.closed, kk, jj);
      }
      assert jj < kk;
    }
  }

  // What each step is for

  /** Disabling, and flushing an enabled capture, leave nothing waiting; a flush leaves no thread with a block. */
  lemma FlushWritesAll(s: State, a: Step)
    requires Reachable(s) && Enabled(s, a) && s.isEnabled && (a.Flush? || a.Disable?)
    ensures var t := Apply(s, a);
            && t.waiting == [] && t.written == Handed(t.closed)
            && (a.Flush? ==> forall i | 0 <= i < |t.threads| :: t.threads[i].current.None?)
            && (a.Flush? ==> forall id: nat :: EventsOf(t.log, id) == EventsIn(t.closed, id))
  {
    hide Sound, Owned, NonEmpty, Apply, Handed, EventsOf, EventsIn, EventsNow, Enabled, Ledger, Reachable;
    ReachableInv(s);
    StepInv(s, a);
    var t := Apply(s, a);
    WaitingAfter(s, a);
    assert t.written + [] == t.written;
    if a.Flush? {
      forall id: nat
        ensures EventsOf(t.log, id) == EventsIn(t.closed, id)
      {
        LedgerNow(t, id);
        NobodyHolds(t.threads, id);
      }
    }
  }

  lemma LedgerNow(s: State, id: nat)
    requires forall i: nat :: Ledger(s, i)
    ensures EventsOf(s.log, id) == EventsIn(s.closed, id) + EventsNow(s.threads, id)
  {
    hide EventsOf, EventsIn, EventsNow;
    assert Ledger(s, id);
  }

  lemma WaitingAfter(s: State, a: Step)
    requires Inv(s) && Enabled(s, a) && s.isEnabled && (a.Flush? || a.Disable?)
    ensures Apply(s, a).waiting == []
    ensures a.Flush? ==> forall i | 0 <= i < |Apply(s, a).threads| :: Apply(s, a).threads[i].current.None?
  {
    hide Sound, Owned, NonEmpty, Close, FlushThreads, EventsOf, EventsIn, EventsNow;
    if a.Flush? {
      var s1 := Tick(s, a.time);
      TickSound(s, a.time);
      WorkerSound(s1, s1.written + s1.waiting, []);
      assert Ledger(s, 0);
      StopKeeps(s1, 0);
      FlushKeeps(StopWorker(s1), |s.threads|, a.time, 0);
      FlushSound(StopWorker(s1), |s.threads|, a.time);
    }
  }

  lemma {:induction false} NobodyHolds(threads: seq<Thread>, id: nat)
    requires forall i | 0 <= i < |threads| :: threads[i].current.None?
    ensures EventsNow(threads, id) == []
  {
    if threads != [] {
      NobodyHolds(threads[1..], id);
    }
  }

  /** A block is discarded only by a thread that finds capture disabled, and it is the one that thread had. */
  lemma DiscardedOnlyWhenDisabled(s: State, a: Step)
    requires Reachable(s) && Enabled(s, a) && Apply(s, a).discarded != s.discarded
    ensures a.Record? && !s.threads[a.i].enabled && s.threads[a.i].current.Some?
    ensures Apply(s, a).discarded == s.discarded + [s.threads[a.i].current.value]
  {
    hide FlushThreads, Reachable;
    if a.Flush? {
      FlushDiscards(StopWorker(Tick(s, a.time)), |s.threads|, a.time);
    }
  }

  lemma {:induction false} FlushDiscards(s: State, n: nat, time: Qword)
    requires n <= |s.threads|
    ensures FlushThreads(s, n, time).discarded == s.discarded
  {
    if n > 0 {
      FlushDiscards(s, n - 1, time);
    }
  }
}
