// The order in which blocks are written, and when Stop has written everything
// that was added: as long as no Add falls into the gap between Stop's join and
// its drain.  Under the lock of the event writer none does.
module WorkerOrder {
  import opened WorkerProtocol

  /** No Add happens between Stop's join and its drain. */
  predicate GapFree<B(==,!new)>(s: State<B>, a: Action<B>) {
    a.Add? ==> s.control != StopJoined
  }

  ghost predicate IsGapFreeRun<B(!new)>(s: State<B>, actions: seq<Action<B>>, t: State<B>)
    decreases |actions|
  {
    if actions == [] then t == s
    else Enabled(s, actions[0]) && GapFree(s, actions[0]) && IsGapFreeRun(Apply(s, actions[0]), actions[1..], t)
  }

  ghost predicate GapFreeReachable<B(!new)>(s: State<B>) {
    exists actions :: IsGapFreeRun(Initial<B>(), actions, s)
  }

  /** Nobody restarts the worker that Stop has joined, and blocks are in the order of their Adds. */
  predicate Ordered<B(==,!new)>(s: State<B>) {
    && (s.control == StopJoined || s.control.Draining? ==> !s.joinable)
    && s.written + s.Unwritten() == s.added
  }

  lemma OrderedStep<B(!new)>(s: State<B>, a: Action<B>)
    requires Inv(s) && Ordered(s) && Enabled(s, a) && GapFree(s, a)
    ensures Ordered(Apply(s, a))
  {
    hide Inv, SingleWorker, Buffers, Signals, Conserved;
    NotRestarted(s, a);
    QueueStep(s, a);
  }

  lemma NotRestarted<B(!new)>(s: State<B>, a: Action<B>)
    requires Inv(s) && Ordered(s) && Enabled(s, a) && GapFree(s, a)
    ensures var t := Apply(s, a);
            t.control == StopJoined || t.control.Draining? ==> !t.joinable
  {
  }

  /** What the outside sees of the worker: blocks written, blocks still to be written. */
  datatype Queue<B> = Queue(written: seq<B>, waiting: seq<B>)

  function View<B(==,!new)>(s: State<B>): Queue<B> {
    Queue(s.written, s.Unwritten())
  }

  function WriteOne<B>(q: Queue<B>): Queue<B>
    requires q.waiting != []
  {
    Queue(q.written + [q.waiting[0]], q.waiting[1..])
  }

  /**
   * The worker refines a queue: an Add appends to it, each WriteBlock takes the
   * first one, and nothing else changes it.
   */
  lemma QueueStep<B(!new)>(s: State<B>, a: Action<B>)
    requires Inv(s) && Ordered(s) && Enabled(s, a) && GapFree(s, a)
    ensures var t := Apply(s, a);
            match a
            case Add(b) => View(t) == Queue(s.written, s.Unwritten() + [b]) && t.added == s.added + [b]
            case Write(_) => s.Unwritten() != [] && View(t) == WriteOne(View(s)) && t.added == s.added
            case DrainOne => s.Unwritten() != [] && View(t) == WriteOne(View(s)) && t.added == s.added
            case _ => View(t) == View(s) && t.added == s.added
    ensures Apply(s, a).written + Apply(s, a).Unwritten() == Apply(s, a).added
  {
    hide Apply, Signals, SingleWorker, Buffers, Conserved, WriteOne;
    match a {
      case Add(b) => AddMoves(s, b);
      case Write(i) => WriteQueue(s, i);
      case DrainOne => DrainQueue(s);
      case _ => OthersMoveNothing(s, a);
    }
  }

  lemma HeadMoves<B>(w: seq<B>, q: seq<B>, x: B, rest: seq<B>)
    requires q == [x] + rest
    ensures q != [] && Queue(w + [x], rest) == WriteOne(Queue(w, q)) && (w + [x]) + rest == w + q
  {
  }

  lemma WriteQueue<B(!new)>(s: State<B>, i: nat)
    requires Inv(s) && Enabled(s, Write(i))
    ensures var t := Apply(s, Write(i));
            && s.Unwritten() != [] && View(t) == WriteOne(View(s)) && t.added == s.added
            && t.written + t.Unwritten() == s.written + s.Unwritten()
  {
    hide Apply, Signals, SingleWorker, Buffers, Conserved, Enabled, WriteOne;
    WriteMoves(s, i);
    var t := Apply(s, Write(i));
    var x := s.BackRest()[0];
    assert ([x] + t.BackRest()) + t.PendingRest() == [x] + (t.BackRest() + t.PendingRest());
    HeadMoves(s.written, s.Unwritten(), x, t.Unwritten());
  }

  lemma DrainQueue<B(!new)>(s: State<B>)
    requires Inv(s) && Ordered(s) && Enabled(s, DrainOne)
    ensures var t := Apply(s, DrainOne);
            && s.Unwritten() != [] && View(t) == WriteOne(View(s)) && t.added == s.added
            && t.written + t.Unwritten() == s.written + s.Unwritten()
  {
    hide Apply, Signals, SingleWorker, Buffers, Conserved, Enabled, WriteOne;
    DrainMoves(s);
    DrainingNow(s);
    NothingInBack(s);
    var t := Apply(s, DrainOne);
    var x := s.PendingRest()[0];
    assert [] + t.PendingRest() == t.PendingRest() && [] + s.PendingRest() == s.PendingRest();
    HeadMoves(s.written, s.Unwritten(), x, t.Unwritten());
  }

  lemma DrainingNow<B(!new)>(s: State<B>)
    requires Enabled(s, DrainOne)
    ensures s.control.Draining?
  {
  }

  lemma NothingInBack<B(!new)>(s: State<B>)
    requires Inv(s) && Ordered(s) && s.control.Draining?
    ensures s.BackRest() == []
  {
  }

  lemma {:induction false} OrderedRun<B(!new)>(s: State<B>, actions: seq<Action<B>>, t: State<B>)
    requires Inv(s) && Ordered(s) && IsGapFreeRun(s, actions, t)
    ensures Inv(t) && Ordered(t)
    decreases |actions|
  {
    hide Inv, Ordered, Apply, Enabled, GapFree;
    if actions != [] {
      InvStep(s, actions[0]);
      OrderedStep(s, actions[0]);
      OrderedRun(Apply(s, actions[0]), actions[1..], t);
    }
  }

  lemma InvStep<B(!new)>(s: State<B>, a: Action<B>)
    requires Inv(s) && Enabled(s, a)
    ensures Inv(Apply(s, a))
  {
    hide Apply, Enabled;
    ControlStep(s, a);
    ConservedStep(s, a);
  }

  lemma OrderedReachable<B(!new)>(s: State<B>)
    requires GapFreeReachable(s)
    ensures Inv(s) && Ordered(s)
  {
    var actions :| IsGapFreeRun(Initial<B>(), actions, s);
    assert Inv(Initial<B>());
    OrderedRun(Initial<B>(), actions, s);
  }

  /** Blocks are written in the order in which they were added, Adds during a Start or a join included. */
  lemma FirstInFirstOut<B(!new)>(s: State<B>)
    requires GapFreeReachable(s)
    ensures s.written + s.BackRest() + s.PendingRest() == s.added
  {
    OrderedReachable(s);
    assert s.written + s.BackRest() + s.PendingRest() == s.written + s.Unwritten();
  }

  predicate StopReturns<B(==,!new)>(s: State<B>, a: Action<B>) {
    a.FinishStop? || (a.BeginStop? && !s.joinable)
  }

  lemma StopEmpties<B(!new)>(s: State<B>, a: Action<B>)
    requires Inv(s) && Ordered(s) && Enabled(s, a) && GapFree(s, a) && StopReturns(s, a)
    ensures var t := Apply(s, a);
            t.control == Idle && t.written == t.added && t.pending == [] && t.back == [] && !t.joinable
  {
    QueueStep(s, a);
  }

  /** When Stop returns, everything that was added has been written, in order. */
  lemma StopIsBarrier<B(!new)>(s: State<B>, a: Action<B>)
    requires GapFreeReachable(s) && Enabled(s, a) && GapFree(s, a) && StopReturns(s, a)
    ensures var t := Apply(s, a);
            t.control == Idle && t.written == t.added && t.pending == [] && t.back == [] && !t.joinable
  {
    OrderedReachable(s);
    StopEmpties(s, a);
  }

  predicate IsAdd<B(==,!new)>(a: Action<B>) {
    a.Add?
  }

  lemma {:induction false} NothingAdded<B(!new)>(s: State<B>, actions: seq<Action<B>>, t: State<B>)
    requires Inv(s) && Ordered(s) && IsGapFreeRun(s, actions, t) && forall a <- actions :: !IsAdd(a)
    ensures t.added == s.added
    decreases |actions|
  {
    hide Inv, Ordered, Apply, Enabled, GapFree;
    if actions != [] {
      assert !IsAdd(actions[0]);
      InvStep(s, actions[0]);
      OrderedStep(s, actions[0]);
      QueueStep(s, actions[0]);
      NothingAdded(Apply(s, actions[0]), actions[1..], t);
    }
  }

  /**
   * From any state, a Stop that runs while nobody adds writes exactly what was
   * waiting, in order, after what had been written before, and leaves nothing.
   */
  lemma StopWritesWaiting<B(!new)>(s: State<B>, actions: seq<Action<B>>, t: State<B>, a: Action<B>)
    requires GapFreeReachable(s) && IsGapFreeRun(s, actions, t) && (forall x <- actions :: !IsAdd(x))
    requires Enabled(t, a) && GapFree(t, a) && StopReturns(t, a)
    ensures View(Apply(t, a)) == Queue(s.written + s.Unwritten(), [])
  {
    OrderedReachable(s);
    OrderedRun(s, actions, t);
    NothingAdded(s, actions, t);
    QueueStep(t, a);
    StopEmpties(t, a);
  }

  // Adds in the gap

  lemma RunFrom<B(!new)>(s: State<B>, a: Action<B>, next: State<B>, rest: seq<Action<B>>, t: State<B>)
    requires Enabled(s, a) && Apply(s, a) == next && IsRun(next, rest, t)
    ensures IsRun(s, [a] + rest, t)
  {
    hide Apply, Enabled;
    assert ([a] + rest)[1..] == rest;
  }

  lemma NoActions<B(!new)>(s: State<B>)
    ensures IsRun(s, [], s)
  {
  }

  lemma IsReachable<B(!new)>(actions: seq<Action<B>>, s: State<B>)
    requires IsRun(Initial<B>(), actions, s)
    ensures Reachable(s)
  {
  }

  /** What an Add in the gap and the restarted worker's first step make of the state. */
  function Restarted<B(==,!new)>(s: State<B>, b: B): State<B> {
    s.(requestStop := false, joinable := true, bodies := s.bodies + [Writing(0)], pending := [], back := s.pending + [b], added := s.added + [b])
  }

  lemma GapAddSteps<B(!new)>(s: State<B>, b: B)
    requires Inv(s) && s.control == StopJoined && !s.joinable
    ensures Enabled(s, Add(b)) && Enabled(Apply(s, Add(b)), Enter(|s.bodies|))
    ensures Apply(Apply(s, Add(b)), Enter(|s.bodies|)) == Restarted(s, b)
  {
    assert NotifyAll(s).bodies == s.bodies;
    var t := Apply(s, Add(b));
    assert t.bodies == s.bodies + [NotStarted];
    assert t.bodies[|s.bodies| := Writing(0)] == s.bodies + [Writing(0)];
  }

  /**
   * An Add in the gap restarts the worker, which can take all that is pending
   * into its back buffer; Stop then finds nothing to drain and returns.
   */
  lemma GapAdd<B(!new)>(s: State<B>, b: B) returns (actions: seq<Action<B>>, t: State<B>)
    requires Inv(s) && s.control == StopJoined && !s.joinable
    ensures Enabled(s, Add(b)) && actions == [Enter(|s.bodies|), BeginDrain, FinishStop] && IsRun(Apply(s, Add(b)), actions, t)
    ensures t.control == Idle && t.written == s.written && t.BackRest() == s.pending + [b]
  {
    hide IsRun, Inv;
    GapAddSteps(s, b);
    var swapped := Restarted(s, b);
    var draining := swapped.(control := Draining(0));
    t := swapped.(control := Idle);
    NoActions(t);
    RunFrom(draining, FinishStop, t, [], t);
    RunFrom(swapped, BeginDrain, draining, [FinishStop] + [], t);
    RunFrom(Apply(s, Add(b)), Enter(|s.bodies|), swapped, [BeginDrain] + ([FinishStop] + []), t);
    actions := [Enter(|s.bodies|)] + ([BeginDrain] + ([FinishStop] + []));
  }

  predicate EndsStop<B(==,!new)>(actions: seq<Action<B>>) {
    actions != [] && actions[|actions| - 1] == FinishStop
  }

  /** After an Add of `b`, a Stop can return while a block that was added before it is unwritten. */
  ghost predicate StopMayMiss<B(!new)>(s: State<B>, b: B)
    requires Enabled(s, Add(b))
  {
    exists actions, t :: EndsStop(actions) && IsRun(Apply(s, Add(b)), actions, t) && !(multiset(s.added) <= multiset(t.written))
  }

  lemma {:induction false} WrittenStays<B(!new)>(s: State<B>, actions: seq<Action<B>>, t: State<B>)
    requires Inv(s) && IsRun(s, actions, t)
    ensures s.written <= t.written
    decreases |actions|
  {
    hide Inv, Apply, Enabled;
    if actions != [] {
      InvStep(s, actions[0]);
      WrittenStep(s, actions[0]);
      WrittenStays(Apply(s, actions[0]), actions[1..], t);
    }
  }

  lemma WrittenStep<B(!new)>(s: State<B>, a: Action<B>)
    requires Inv(s) && Enabled(s, a)
    ensures s.written <= Apply(s, a).written
  {
    hide SingleWorker, Signals, Conserved;
  }

  /**
   * The gap is what breaks the barrier, and exactly when something is pending
   * there: an Add lets Stop return before a block added earlier is written if
   * and only if the join left blocks behind.
   */
  lemma GapExact<B(!new)>(s: State<B>, b: B)
    requires Reachable(s) && s.control == StopJoined && !s.joinable
    ensures Enabled(s, Add(b)) && (StopMayMiss(s, b) <==> s.pending != [])
  {
    hide Apply, IsRun, Reachable, SingleWorker, Buffers, Signals;
    InvReachable(s);
    GapUnwritten(s);
    assert Enabled(s, Add(b));
    if s.pending != [] {
      var actions, t := GapAdd(s, b);
      assert EndsStop(actions);
      MissedBlock(s);
    } else {
      forall actions, t | EndsStop(actions) && IsRun(Apply(s, Add(b)), actions, t)
        ensures multiset(s.added) <= multiset(t.written)
      {
        InvStep(s, Add(b));
        WrittenStep(s, Add(b));
        WrittenStays(Apply(s, Add(b)), actions, t);
        assert t.written == s.written + t.written[|s.written|..];
      }
    }
  }

  lemma GapUnwritten<B(!new)>(s: State<B>)
    requires Inv(s) && s.control == StopJoined && !s.joinable
    ensures multiset(s.added) == multiset(s.written) + multiset(s.pending)
  {
    assert s.BackRest() == [] && s.PendingRest() == s.pending && [] + s.pending == s.pending;
  }

  lemma MissedBlock<B(!new)>(s: State<B>)
    requires multiset(s.added) == multiset(s.written) + multiset(s.pending) && s.pending != []
    ensures !(multiset(s.added) <= multiset(s.written))
  {
    var x := s.pending[0];
    assert x in multiset(s.pending);
    assert multiset(s.added)[x] == multiset(s.written)[x] + multiset(s.pending)[x];
  }

  // Such a gap is reachable

  /** The worker has written nothing yet and is about to look for the first block. */
  const BeforeStop: State<nat> := State(false, true, [WantLock], [1], [], Idle, [], [1], false)

  lemma BeforeStopReachable()
    ensures Reachable(BeforeStop)
  {
    hide Reachable, IsRun;
    var s1: State<nat> := State(false, true, [NotStarted], [], [], Idle, [], [], false);
    var s2 := s1.(bodies := [Writing(0)]);
    var s3 := s1.(bodies := [WantLock]);
    NoActions(BeforeStop);
    RunFrom(s3, Add(1), BeforeStop, [], BeforeStop);
    RunFrom(s2, DoneWriting(0), s3, [Add(1)] + [], BeforeStop);
    RunFrom(s1, Enter(0), s2, [DoneWriting(0)] + ([Add(1)] + []), BeforeStop);
    RunFrom(Initial<nat>(), BeginStart, s1, [Enter(0)] + ([DoneWriting(0)] + ([Add(1)] + [])), BeforeStop);
    IsReachable([BeginStart] + ([Enter(0)] + ([DoneWriting(0)] + ([Add(1)] + []))), BeforeStop);
  }

  /** Stop has joined the worker, and block 1 is still pending. */
  const Joined: State<nat> := State(true, false, [Exited], [1], [], StopJoined, [], [1], false)

  lemma JoinedRun() returns (actions: seq<Action<nat>>, after: State<nat>)
    ensures |actions| == 4 && actions[3] == FinishStop && IsRun(Joined, actions, after)
    ensures after.control == Idle && after.written == []
  {
    hide IsRun, Apply;
    assert Inv(Joined);
    var rest;
    rest, after := GapAdd(Joined, 2);
    RunFrom(Joined, Add(2), Apply(Joined, Add(2)), rest, after);
    actions := [Add(2)] + rest;
  }

  /** A run from the call of Stop to its return that leaves the block unwritten that had been added before the call. */
  lemma StopIsNoBarrier() returns (actions: seq<Action<nat>>, after: State<nat>)
    ensures Reachable(BeforeStop) && BeforeStop.control == Idle && 1 in BeforeStop.added
    ensures |actions| == 7 && actions[0] == BeginStop && actions[6] == FinishStop && IsRun(BeforeStop, actions, after)
    ensures after.control == Idle && 1 !in after.written
  {
    hide Reachable, IsRun;
    BeforeStopReachable();
    var stopping := BeforeStop.(requestStop := true, control := StopJoining);
    var exited := stopping.(bodies := [Exited]);
    var rest;
    rest, after := JoinedRun();
    RunFrom(exited, Join, Joined, rest, after);
    RunFrom(stopping, Check(0), exited, [Join] + rest, after);
    RunFrom(BeforeStop, BeginStop, stopping, [Check(0)] + ([Join] + rest), after);
    actions := [BeginStop] + ([Check(0)] + ([Join] + rest));
  }
}
