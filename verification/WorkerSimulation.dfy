// The capture state's lists of waiting and written blocks stand for the
// background writer's buffers: what the worker does in any run is mirrored by
// the capture state, and each capture step by the worker call it makes.
module WorkerSimulation {
  import opened Wrappers
  import opened Qwords
  import WorkerProtocol
  import WorkerOrder
  import opened CaptureState
  import EtwWriter

  type Worker = WorkerProtocol.State<Block>
  type Action = WorkerProtocol.Action<Block>

  /** What waits in the capture state is what the worker has in its two buffers, in that order. */
  predicate Mirrors(w: Worker, s: State) {
    w.BackRest() + w.PendingRest() == s.waiting
  }

  predicate Proper(w: Worker) {
    WorkerProtocol.Inv(w) && WorkerOrder.Ordered(w)
  }

  /** The blocks that a run adds. */
  function AddedIn(actions: seq<Action>): seq<Block> {
    if actions == [] then []
    else (if actions[0].Add? then [actions[0].block] else []) + AddedIn(actions[1..])
  }

  lemma StepAdds(w: Worker, a: Action)
    requires Proper(w) && WorkerProtocol.Enabled(w, a) && WorkerOrder.GapFree(w, a)
    ensures var t := WorkerProtocol.Apply(w, a);
            Proper(t) && t.added == w.added + (if a.Add? then [a.block] else []) && w.written <= t.written
  {
    hide WorkerProtocol.Inv, WorkerOrder.Ordered, WorkerProtocol.Apply, WorkerProtocol.Enabled, WorkerOrder.GapFree;
    WorkerOrder.InvStep(w, a);
    WorkerOrder.OrderedStep(w, a);
    WorkerOrder.QueueStep(w, a);
    WorkerOrder.WrittenStep(w, a);
  }

  lemma {:induction false} RunAdds(w: Worker, actions: seq<Action>, w': Worker)
    requires Proper(w) && WorkerOrder.IsGapFreeRun(w, actions, w')
    ensures Proper(w') && w'.added == w.added + AddedIn(actions) && w.written <= w'.written
    decreases |actions|
  {
    hide Proper, WorkerProtocol.Apply, WorkerProtocol.Enabled, WorkerOrder.GapFree;
    if actions == [] {
      assert w.added + [] == w.added;
    } else {
      StepAdds(w, actions[0]);
      RunAdds(WorkerProtocol.Apply(w, actions[0]), actions[1..], w');
      var first := if actions[0].Add? then [actions[0].block] else [];
      assert w.added + first + AddedIn(actions[1..]) == w.added + (first + AddedIn(actions[1..]));
    }
  }

  /** `adds` are given to the worker and the first `k` blocks of its queue are written. */
  function Progress(s: State, adds: seq<Block>, k: nat): State
    requires k <= |s.waiting + adds|
  {
    s.(waiting := (s.waiting + adds)[k..], written := s.written + (s.waiting + adds)[..k])
  }

  /** As many writes, one step each. */
  function WriteMany(s: State, k: nat): (r: State)
    requires k <= |s.waiting|
    decreases k
  {
    if k == 0 then s else WriteMany(Apply(s, WriteOne), k - 1)
  }

  lemma {:induction false} WriteManyIsProgress(s: State, k: nat)
    requires k <= |s.waiting|
    ensures WriteMany(s, k) == Progress(s, [], k)
    decreases k
  {
    assert s.waiting + [] == s.waiting;
    if k == 0 {
      assert s.waiting[0..] == s.waiting && s.written + s.waiting[..0] == s.written;
    } else {
      var t := Apply(s, WriteOne);
      WriteManyIsProgress(t, k - 1);
      assert t.waiting + [] == t.waiting == s.waiting[1..];
      assert t.waiting[k - 1..] == s.waiting[k..];
      assert s.written + [s.waiting[0]] + s.waiting[1..][..k - 1] == s.written + s.waiting[..k];
    }
  }

  /**
   * Any run of the worker in which no Add falls into a gap, with all its swaps,
   * waits, restarts and joins, is mirrored by adding the same blocks and writing
   * the same ones, in the same order.
   */
  lemma RunMirrored(w: Worker, actions: seq<Action>, w': Worker, s: State) returns (k: nat)
    requires Proper(w) && Mirrors(w, s) && WorkerOrder.IsGapFreeRun(w, actions, w')
    ensures Proper(w') && k <= |s.waiting + AddedIn(actions)|
    ensures Mirrors(w', Progress(s, AddedIn(actions), k))
    ensures w'.written == w.written + (s.waiting + AddedIn(actions))[..k]
  {
    hide WorkerProtocol.Inv, WorkerOrder.IsGapFreeRun;
    RunAdds(w, actions, w');
    var queue := s.waiting + AddedIn(actions);
    Queued(w);
    Queued(w');
    assert w'.written + w'.Unwritten() == w.written + queue;
    k := |w'.written| - |w.written|;
    assert w'.written == (w'.written + w'.Unwritten())[..|w'.written|] == (w.written + queue)[..|w.written| + k];
    assert w'.Unwritten() == (w'.written + w'.Unwritten())[|w'.written|..] == (w.written + queue)[|w.written| + k..];
  }

  lemma Queued(w: Worker)
    requires WorkerOrder.Ordered(w)
    ensures w.written + (w.BackRest() + w.PendingRest()) == w.added && w.Unwritten() == w.BackRest() + w.PendingRest()
  {
  }

  // Capture steps and the worker calls they make

  datatype Call = NoCall | AddCall(block: Block) | StartCall | StopCall

  /** The call that a step makes under the lock of the event writer. */
  function CallOf(s: State, a: Step): Call
    requires Enabled(s, a)
  {
    match a
    case Record(_, _, _, _, _) => Handing(s, Apply(s, a))
    case Exit(_, _) => Handing(s, Apply(s, a))
    case Enable => if s.isEnabled then NoCall else StartCall
    case Disable => if s.isEnabled then StopCall else NoCall
    case Flush(_) => if s.isEnabled then StopCall else NoCall
    case _ => NoCall
  }

  function Handing(s: State, t: State): Call {
    if |t.waiting| > |s.waiting| then AddCall(t.waiting[|t.waiting| - 1]) else NoCall
  }

  /** A run of the worker from the call to its return, with nobody else calling meanwhile. */
  ghost predicate CarriesOut(w: Worker, call: Call, actions: seq<Action>, w': Worker) {
    && WorkerOrder.IsGapFreeRun(w, actions, w') && w.control == WorkerProtocol.Idle && w'.control == WorkerProtocol.Idle
    && AddedIn(actions) == (if call.AddCall? then [call.block] else [])
    && (call.StopCall? ==> exists u: Worker :: ReturnsFrom(w, actions, u, w'))
  }

  /** The last action of the run makes Stop return, from `u`. */
  ghost predicate ReturnsFrom(w: Worker, actions: seq<Action>, u: Worker, w': Worker) {
    && actions != [] && WorkerOrder.IsGapFreeRun(w, actions[..|actions| - 1], u)
    && var a := actions[|actions| - 1];
       WorkerProtocol.Enabled(u, a) && WorkerOrder.StopReturns(u, a) && w' == WorkerProtocol.Apply(u, a)
  }

  /** Blocks that a flush writes without the worker. */
  function Direct(s: State, a: Step): seq<Block> {
    if a.Flush? && s.isEnabled then EtwWriter.FlushedBlocks(s.threads, a.time) else []
  }

  /** What a step does to the queue is what its call asks for. */
  lemma StepQueue(s: State, a: Step)
    requires Enabled(s, a) && !a.WriteOne?
    ensures var t, call := Apply(s, a), CallOf(s, a);
            && t.waiting == (if call.StopCall? then [] else s.waiting + if call.AddCall? then [call.block] else [])
            && t.written == s.written + (if call.StopCall? then s.waiting else []) + Direct(s, a)
  {
    hide RecordEvent, Close, FlushThreads, EtwWriter.FlushedBlocks;
    match a {
      case Record(i, event, first, second, allocates) => EtwWriter.RecordMeans(s, i, event, first, second, allocates);
      case Exit(i, time) => EtwWriter.ExitMeans(s, i, time);
      case Flush(time) => EtwWriter.FlushMeans(s, time);
      case _ =>
    }
  }

  lemma DirectNeedsStop(s: State, a: Step)
    requires Enabled(s, a) && !CallOf(s, a).StopCall?
    ensures Direct(s, a) == []
  {
  }

  lemma StopLeavesNothing(w: Worker, actions: seq<Action>, u: Worker, w': Worker)
    requires Proper(w) && ReturnsFrom(w, actions, u, w')
    ensures w'.BackRest() == [] && w'.PendingRest() == []
  {
    hide WorkerOrder.StopReturns, WorkerProtocol.Enabled, WorkerProtocol.Apply, WorkerOrder.IsGapFreeRun, Proper;
    var n := |actions| - 1;
    RunAdds(w, actions[..n], u);
    StopEmptiesProper(u, actions[n]);
  }

  lemma StopEmptiesProper(u: Worker, a: Action)
    requires Proper(u) && WorkerProtocol.Enabled(u, a) && WorkerOrder.StopReturns(u, a)
    ensures WorkerProtocol.Apply(u, a).BackRest() == [] && WorkerProtocol.Apply(u, a).PendingRest() == []
  {
    hide WorkerProtocol.Inv, WorkerOrder.Ordered, WorkerProtocol.Apply, WorkerProtocol.Enabled;
    StopIsCall(u, a);
    WorkerOrder.StopEmpties(u, a);
    EmptyBuffers(WorkerProtocol.Apply(u, a));
  }

  lemma EmptyBuffers(w: Worker)
    requires w.back == [] && w.pending == []
    ensures w.BackRest() == [] && w.PendingRest() == []
  {
  }

  lemma StopIsCall(u: Worker, a: Action)
    requires WorkerOrder.StopReturns(u, a)
    ensures WorkerOrder.GapFree(u, a)
  {
  }

  /**
   * The two machines in step: while the worker carries out the call of a capture
   * step, it writes some front part of the queue, all of it for a Stop; the
   * capture state after the step and as many writes mirrors it again, and has
   * written what the worker has.
   */
  lemma StepSimulated(w: Worker, s: State, a: Step, actions: seq<Action>, w': Worker) returns (k: nat)
    requires Proper(w) && Mirrors(w, s) && Enabled(s, a) && !a.WriteOne? && CarriesOut(w, CallOf(s, a), actions, w')
    ensures Proper(w') && w.written <= w'.written && k <= |Apply(s, a).waiting|
    ensures Mirrors(w', WriteMany(Apply(s, a), k))
    ensures WriteMany(Apply(s, a), k).written == s.written + w'.written[|w.written|..] + Direct(s, a)
    ensures CallOf(s, a).StopCall? ==> w'.written == w.written + s.waiting
  {
    hide Apply, Enabled, CallOf, Direct, Proper, WorkerOrder.IsGapFreeRun, ReturnsFrom, WriteMany, Progress, Mirrors;
    var t, call := Apply(s, a), CallOf(s, a);
    StepQueue(s, a);
    var written := RunMirrored(w, actions, w', s);
    if call.StopCall? {
      var u: Worker :| ReturnsFrom(w, actions, u, w');
      StopLeavesNothing(w, actions, u, w');
      k := 0;
      StopMirrored(w, w', s, t, written, Direct(s, a));
    } else {
      DirectNeedsStop(s, a);
      k := written;
      OthersMirrored(w, w', s, t, AddedIn(actions), k);
    }
  }

  lemma StopMirrored(w: Worker, w': Worker, s: State, t: State, k: nat, direct: seq<Block>)
    requires k <= |s.waiting + []| && Mirrors(w', Progress(s, [], k)) && w'.written == w.written + (s.waiting + [])[..k]
    requires w'.BackRest() == [] && w'.PendingRest() == []
    requires t.waiting == [] && t.written == s.written + s.waiting + direct
    ensures w'.written == w.written + s.waiting && Mirrors(w', WriteMany(t, 0))
    ensures WriteMany(t, 0).written == s.written + w'.written[|w.written|..] + direct
  {
    assert s.waiting + [] == s.waiting;
    assert |s.waiting[k..]| == 0;
    assert s.waiting[..k] == s.waiting;
  }

  lemma OthersMirrored(w: Worker, w': Worker, s: State, t: State, adds: seq<Block>, k: nat)
    requires k <= |s.waiting + adds| && Mirrors(w', Progress(s, adds, k)) && w'.written == w.written + (s.waiting + adds)[..k]
    requires t.waiting == s.waiting + adds && t.written == s.written + [] + []
    ensures Mirrors(w', WriteMany(t, k)) && WriteMany(t, k).written == s.written + w'.written[|w.written|..] + []
  {
    hide WriteMany;
    WriteManyIsProgress(t, k);
    assert t.waiting + [] == s.waiting + adds;
  }
}
