// The background writer as a protocol: one controller that starts and stops
// it, any number of threads that add blocks, and the worker threads, each
// taking one lock section or one unlocked action at a time.
module WorkerProtocol {

  /** Where a worker thread is. */
  datatype Body =
    | NotStarted            // created, has not taken the lock yet
    | Writing(next: nat)    // writes the back buffer, without the lock
    | WantLock              // back buffer written and cleared
    | Waiting(notified: bool)
    | Exited

  /** Where the controller is inside Start or Stop. */
  datatype Control =
    | Idle
    | StartJoining | StartJoined
    | StopJoining | StopJoined
    | Draining(next: nat)   // Stop writes the pending blocks, holding the lock

  datatype State<B(==,!new)> = State(
    requestStop: bool,
    joinable: bool,
    bodies: seq<Body>,      // every worker thread ever created; `m_worker` refers to the last one
    pending: seq<B>,
    back: seq<B>,
    control: Control,
    written: seq<B>,
    added: seq<B>,
    terminated: bool)       // a joinable std::thread was overwritten
  {
    predicate LockFree() {
      !control.Draining?
    }

    predicate Joining() {
      control == StartJoining || control == StopJoining
    }

    function Last(): Body {
      if bodies == [] then Exited else bodies[|bodies| - 1]
    }

    /** What is left of the back buffer. */
    function BackRest(): seq<B> {
      if Last().Writing? && Last().next <= |back| then back[Last().next..] else []
    }

    /** What is left of the pending blocks while Stop writes them. */
    function PendingRest(): seq<B> {
      if control.Draining? && control.next <= |pending| then pending[control.next..] else pending
    }

    /** Blocks that were added and not written, in the order in which they will be. */
    function Unwritten(): seq<B> {
      BackRest() + PendingRest()
    }
  }

  function Initial<B(==,!new)>(): State<B> {
    State(true, false, [], [], [], Idle, [], [], false)
  }

  datatype Action<B(==,!new)> =
    | Add(block: B)
    | BeginStart | FinishStart
    | BeginStop | BeginDrain | DrainOne | FinishStop
    | Join
    | Enter(worker: nat) | Write(worker: nat) | DoneWriting(worker: nat) | Check(worker: nat)
  {
    predicate OfWorker() {
      Enter? || Write? || DoneWriting? || Check?
    }
  }

  function Notified(b: Body): Body {
    if b.Waiting? then Waiting(true) else b
  }

  /** notify_all */
  function NotifyAll<B(==,!new)>(s: State<B>): (r: State<B>)
    ensures |r.bodies| == |s.bodies|
  {
    s.(bodies := seq(|s.bodies|, i requires 0 <= i < |s.bodies| => Notified(s.bodies[i])))
  }

  /** DoStart; assigning to a joinable thread terminates the process. */
  function DoStart<B(==,!new)>(s: State<B>): State<B> {
    s.(requestStop := false, joinable := true, bodies := s.bodies + [NotStarted], terminated := s.terminated || s.joinable)
  }

  function SetBody<B(==,!new)>(s: State<B>, i: nat, b: Body): State<B>
    requires i < |s.bodies|
  {
    s.(bodies := s.bodies[i := b])
  }

  predicate Enabled<B(==,!new)>(s: State<B>, a: Action<B>) {
    match a
    case Add(_) => s.LockFree()
    case BeginStart => s.control == Idle
    case FinishStart => s.control == StartJoined
    case BeginStop => s.control == Idle
    case BeginDrain => s.control == StopJoined
    case DrainOne => s.control.Draining? && s.control.next < |s.pending|
    case FinishStop => s.control == Draining(|s.pending|)
    case Join => s.Joining() && s.Last() == Exited
    case Enter(i) => i < |s.bodies| && s.bodies[i] == NotStarted && s.LockFree()
    case Write(i) => i < |s.bodies| && s.bodies[i].Writing? && s.bodies[i].next < |s.back|
    case DoneWriting(i) => i < |s.bodies| && s.bodies[i] == Writing(|s.back|)
    // a waiting worker may also wake up without being notified
    case Check(i) => i < |s.bodies| && (s.bodies[i] == WantLock || s.bodies[i].Waiting?) && s.LockFree()
  }

  /** The swap of the two buffers, and on to writing. */
  function Swap<B(==,!new)>(s: State<B>, i: nat): State<B>
    requires i < |s.bodies|
  {
    SetBody(s, i, Writing(0)).(pending := s.back, back := s.pending)
  }

  function Apply<B(==,!new)>(s: State<B>, a: Action<B>): State<B>
    requires Enabled(s, a)
  {
    match a
    case Add(b) =>
      var s' := NotifyAll(s.(pending := s.pending + [b], added := s.added + [b]));
      if s'.requestStop && !s'.joinable then DoStart(s') else s'
    case BeginStart =>
      if s.joinable then NotifyAll(s.(requestStop := true)).(control := StartJoining) else DoStart(s)
    case FinishStart =>
      (if s.joinable then s else DoStart(s)).(control := Idle)
    case BeginStop =>
      if s.joinable then NotifyAll(s.(requestStop := true)).(control := StopJoining) else s
    case BeginDrain => s.(control := Draining(0))
    case DrainOne => s.(written := s.written + [s.pending[s.control.next]], control := Draining(s.control.next + 1))
    case FinishStop => s.(pending := [], control := Idle)
    case Join => s.(joinable := false, control := if s.control == StartJoining then StartJoined else StopJoined)
    case Enter(i) => Swap(s, i)
    case Write(i) => SetBody(s, i, Writing(s.bodies[i].next + 1)).(written := s.written + [s.back[s.bodies[i].next]])
    case DoneWriting(i) => SetBody(s, i, WantLock).(back := [])
    case Check(i) =>
      if s.requestStop then SetBody(s, i, Exited)
      else if s.pending == [] then SetBody(s, i, Waiting(false))
      else Swap(s, i)
  }

  // The invariant

  /** All worker threads but the last have exited, and the last one too once it was joined. */
  predicate SingleWorker<B(==,!new)>(s: State<B>) {
    && (forall i | 0 <= i < |s.bodies| - 1 :: s.bodies[i] == Exited)
    && (s.joinable ==> s.bodies != [])
    && (!s.joinable ==> s.Last() == Exited)
    && !s.terminated
  }

  /** The back buffer holds something only while the worker writes it. */
  predicate Buffers<B(==,!new)>(s: State<B>) {
    && (if s.Last().Writing? then s.Last().next <= |s.back| else s.back == [])
    && (s.control.Draining? ==> s.control.next <= |s.pending|)
  }

  /** When stop is requested, and that nobody sleeps through it or through a block. */
  predicate Signals<B(==,!new)>(s: State<B>) {
    && (s.Joining() <==> s.joinable && s.requestStop)
    && (!s.joinable ==> s.requestStop)
    && (s.joinable && s.Last() == Exited ==> s.requestStop)
    && (s.Last() == Waiting(false) ==> s.pending == [] && !s.requestStop)
    && (s.control == Idle && !s.joinable ==> s.pending == [])
  }

  predicate Conserved<B(==,!new)>(s: State<B>) {
    multiset(s.added) == multiset(s.written) + multiset(s.Unwritten())
  }

  predicate Inv<B(==,!new)>(s: State<B>) {
    SingleWorker(s) && Buffers(s) && Signals(s) && Conserved(s)
  }

  /** Only the last worker ever acts. */
  lemma OnlyLastActs<B(!new)>(s: State<B>, a: Action<B>)
    requires SingleWorker(s) && Enabled(s, a) && a.OfWorker()
    ensures s.bodies != [] && a.worker == |s.bodies| - 1 && s.joinable
  {
  }

  lemma CallerStep<B(!new)>(s: State<B>, a: Action<B>)
    requires SingleWorker(s) && Buffers(s) && Signals(s) && Enabled(s, a) && !a.OfWorker()
    ensures var t := Apply(s, a);
            SingleWorker(t) && Buffers(t) && Signals(t)
  {
  }

  lemma WorkerStep<B(!new)>(s: State<B>, a: Action<B>)
    requires SingleWorker(s) && Buffers(s) && Signals(s) && Enabled(s, a) && a.OfWorker()
    ensures var t := Apply(s, a);
            SingleWorker(t) && Buffers(t) && Signals(t)
  {
    OnlyLastActs(s, a);
  }

  lemma ControlStep<B(!new)>(s: State<B>, a: Action<B>)
    requires SingleWorker(s) && Buffers(s) && Signals(s) && Enabled(s, a)
    ensures var t := Apply(s, a);
            SingleWorker(t) && Buffers(t) && Signals(t)
  {
    hide Apply, Enabled, SingleWorker, Buffers, Signals;
    if a.OfWorker() {
      WorkerStep(s, a);
    } else {
      CallerStep(s, a);
    }
  }

  lemma AddMoves<B(!new)>(s: State<B>, b: B)
    requires SingleWorker(s) && Buffers(s) && Signals(s) && s.LockFree()
    ensures var t := Apply(s, Add(b));
            t.added == s.added + [b] && t.written == s.written && t.Unwritten() == s.Unwritten() + [b]
  {
  }

  lemma WriteMoves<B(!new)>(s: State<B>, i: nat)
    requires SingleWorker(s) && Buffers(s) && Signals(s) && Enabled(s, Write(i))
    ensures var t := Apply(s, Write(i));
            && t.added == s.added && s.BackRest() != [] && t.written == s.written + [s.BackRest()[0]]
            && s.BackRest() == [s.BackRest()[0]] + t.BackRest() && t.PendingRest() == s.PendingRest()
  {
    OnlyLastActs(s, Write(i));
  }

  lemma DrainMoves<B(!new)>(s: State<B>)
    requires SingleWorker(s) && Buffers(s) && Signals(s) && Enabled(s, DrainOne)
    ensures var t := Apply(s, DrainOne);
            && t.added == s.added && s.PendingRest() != [] && t.written == s.written + [s.PendingRest()[0]]
            && s.PendingRest() == [s.PendingRest()[0]] + t.PendingRest() && t.BackRest() == s.BackRest()
  {
  }

  /** Every other action leaves the blocks where they are, in the same order. */
  lemma OthersMoveNothing<B(!new)>(s: State<B>, a: Action<B>)
    requires SingleWorker(s) && Buffers(s) && Signals(s) && Enabled(s, a) && !a.Add? && !a.Write? && !a.DrainOne?
    ensures var t := Apply(s, a);
            t.added == s.added && t.written == s.written && t.Unwritten() == s.Unwritten()
  {
    hide Apply, Enabled, SingleWorker, Buffers, Signals;
    if a.OfWorker() {
      WorkerMovesNothing(s, a);
    } else {
      CallerMovesNothing(s, a);
    }
  }

  lemma CallerMovesNothing<B(!new)>(s: State<B>, a: Action<B>)
    requires SingleWorker(s) && Buffers(s) && Signals(s) && Enabled(s, a) && !a.OfWorker() && !a.Add? && !a.DrainOne?
    ensures var t := Apply(s, a);
            t.added == s.added && t.written == s.written && t.Unwritten() == s.Unwritten()
  {
    var t := Apply(s, a);
    assert t.PendingRest() == s.PendingRest();
    assert t.BackRest() == s.BackRest();
  }

  lemma WorkerMovesNothing<B(!new)>(s: State<B>, a: Action<B>)
    requires SingleWorker(s) && Buffers(s) && Signals(s) && Enabled(s, a) && (a.Enter? || a.Check? || a.DoneWriting?)
    ensures var t := Apply(s, a);
            t.added == s.added && t.written == s.written && t.Unwritten() == s.Unwritten()
  {
    OnlyLastActs(s, a);
    var t := Apply(s, a);
    if t.Last().Writing? {
      assert t.BackRest() == s.pending && t.PendingRest() == [] && s.BackRest() == [];
      assert [] + s.pending == s.pending + [];
    } else {
      assert s.BackRest() == [] && t.BackRest() == [];
    }
  }

  lemma ConservedStep<B(!new)>(s: State<B>, a: Action<B>)
    requires Inv(s) && Enabled(s, a)
    ensures Conserved(Apply(s, a))
  {
    hide Apply, SingleWorker, Buffers, Signals;
    match a {
      case Add(b) => AddMoves(s, b);
      case Write(i) => WriteMoves(s, i);
      case DrainOne => DrainMoves(s);
      case _ => OthersMoveNothing(s, a);
    }
  }

  // Runs

  ghost predicate IsRun<B(!new)>(s: State<B>, actions: seq<Action<B>>, t: State<B>)
    decreases |actions|
  {
    if actions == [] then t == s
    else Enabled(s, actions[0]) && IsRun(Apply(s, actions[0]), actions[1..], t)
  }

  ghost predicate Reachable<B(!new)>(s: State<B>) {
    exists actions :: IsRun(Initial<B>(), actions, s)
  }

  lemma {:induction false} InvRun<B(!new)>(s: State<B>, actions: seq<Action<B>>, t: State<B>)
    requires Inv(s) && IsRun(s, actions, t)
    ensures Inv(t)
    decreases |actions|
  {
    hide Apply, Enabled, SingleWorker, Buffers, Signals, Conserved;
    if actions != [] {
      ControlStep(s, actions[0]);
      ConservedStep(s, actions[0]);
      InvRun(Apply(s, actions[0]), actions[1..], t);
    }
  }

  lemma InvReachable<B(!new)>(s: State<B>)
    requires Reachable(s)
    ensures Inv(s)
  {
    var actions :| IsRun(Initial<B>(), actions, s);
    assert Inv(Initial<B>());
    InvRun(Initial<B>(), actions, s);
  }

  // What holds in every reachable state

  /** No block is lost and none is written twice. */
  lemma NothingLost<B(!new)>(s: State<B>)
    requires Reachable(s)
    ensures multiset(s.added) == multiset(s.written) + multiset(s.BackRest()) + multiset(s.PendingRest())
  {
    InvReachable(s);
    assert multiset(s.Unwritten()) == multiset(s.BackRest()) + multiset(s.PendingRest());
  }

  /**
   * At most one worker thread is alive, a joinable thread is never overwritten,
   * and the back buffer is empty whenever the buffers are swapped.
   */
  lemma OneWorker<B(!new)>(s: State<B>)
    requires Reachable(s)
    ensures forall i, j | 0 <= i < |s.bodies| && 0 <= j < |s.bodies| :: s.bodies[i] != Exited && s.bodies[j] != Exited ==> i == j
    ensures !s.terminated
    ensures forall i | 0 <= i < |s.bodies| :: s.bodies[i] != Exited && !s.bodies[i].Writing? ==> s.back == []
  {
    InvReachable(s);
  }

  /**
   * A worker that waits without having been notified has nothing to do; and
   * outside Start and Stop a pending block has a live worker to write it.
   */
  lemma NothingStranded<B(!new)>(s: State<B>)
    requires Reachable(s)
    ensures forall i | 0 <= i < |s.bodies| :: s.bodies[i] == Waiting(false) ==> s.pending == [] && !s.requestStop
    ensures s.control == Idle && s.pending != [] ==> s.joinable && !s.requestStop && s.Last() != Exited && s.Last() != Waiting(false)
  {
    InvReachable(s);
  }

  /** When Start returns there is a live joinable worker and stop is not requested. */
  lemma StartStarts<B(!new)>(s: State<B>, a: Action<B>)
    requires Reachable(s) && Enabled(s, a) && (a.BeginStart? || a.FinishStart?) && Apply(s, a).control == Idle
    ensures var t := Apply(s, a);
            t.joinable && !t.requestStop && t.Last() != Exited
  {
    InvReachable(s);
    ControlStep(s, a);
  }

  // Joining

  /** How far the worker is from its exit, once stop is requested. */
  function Phase(b: Body): nat {
    match b
    case NotStarted => 3
    case Writing(_) => 2
    case WantLock => 1
    case Waiting(_) => 1
    case Exited => 0
  }

  /** How much of its batch the worker has still to write. */
  function Remaining<B(==,!new)>(s: State<B>): nat {
    |s.BackRest()|
  }

  /** `t` is nearer to the worker's exit than `s`: in a later phase, or with less of the batch remaining. */
  predicate Nearer<B(==,!new)>(t: State<B>, s: State<B>) {
    Phase(t.Last()) < Phase(s.Last()) || (Phase(t.Last()) == Phase(s.Last()) && Remaining(t) < Remaining(s))
  }

  /** The worker takes the pending blocks as its batch. */
  predicate Swaps<B(==,!new)>(s: State<B>, a: Action<B>) {
    Enabled(s, a) && a.OfWorker() && !s.Last().Writing? && Apply(s, a).Last().Writing?
  }

  lemma JoiningWorker<B(!new)>(s: State<B>, a: Action<B>)
    requires SingleWorker(s) && Buffers(s) && s.Joining() && s.requestStop && Enabled(s, a) && a.OfWorker()
    ensures var t := Apply(s, a);
            && t.control == s.control && t.joinable && t.requestStop && t.Last() != NotStarted
            && Nearer(t, s) && (Swaps(s, a) <==> s.Last() == NotStarted)
            && (s.Last() != NotStarted ==> Potential(t) == Potential(s) - 1)
            && (s.Last() == NotStarted ==> Potential(t) == |s.pending| + 2)
  {
    OnlyLastActs(s, a);
  }

  lemma JoiningAdd<B(!new)>(s: State<B>, b: B)
    requires SingleWorker(s) && Buffers(s) && s.Joining() && s.joinable && s.requestStop
    ensures var t := Apply(s, Add(b));
            && t.control == s.control && t.joinable && t.requestStop && (t.Last() == NotStarted <==> s.Last() == NotStarted)
            && Phase(t.Last()) == Phase(s.Last()) && t.BackRest() == s.BackRest()
            && Potential(t) == if s.Last() == NotStarted then Potential(s) + 1 else Potential(s)
  {
  }

  /**
   * While Start or Stop waits for the worker, only it and the adders act: each
   * worker step brings the exit nearer, and an Add neither takes it further
   * away nor withdraws the request.
   */
  lemma JoiningStep<B(!new)>(s: State<B>, a: Action<B>)
    requires Inv(s) && s.Joining() && Enabled(s, a) && a != Join
    ensures a.OfWorker() || a.Add?
    ensures Apply(s, a).control == s.control && Apply(s, a).joinable && Apply(s, a).requestStop
    ensures a.OfWorker() ==> Nearer(Apply(s, a), s)
    ensures a.Add? ==> Phase(Apply(s, a).Last()) == Phase(s.Last()) && Remaining(Apply(s, a)) == Remaining(s)
  {
    hide Apply, SingleWorker, Buffers, Conserved;
    if a.OfWorker() {
      JoiningWorker(s, a);
    } else if a.Add? {
      JoiningAdd(s, a.block);
    }
  }

  /** The worker can always take its next step, until it has exited and the join returns. */
  lemma JoinNotStuck<B(!new)>(s: State<B>) returns (a: Action<B>)
    requires Inv(s) && s.Joining()
    ensures Enabled(s, a) && if s.Last() == Exited then a == Join else a.OfWorker()
  {
    var i := |s.bodies| - 1;
    a := match s.Last()
      case NotStarted => Enter(i)
      case Writing(next) => if next < |s.back| then Write(i) else DoneWriting(i)
      case WantLock => Check(i)
      case Waiting(_) => Check(i)
      case Exited => Join;
  }

  /** The number of steps the worker still takes, if nothing is added before it begins its batch. */
  function Potential<B(==,!new)>(s: State<B>): nat {
    match s.Last()
    case NotStarted => |s.pending| + 3
    case Writing(_) => Remaining(s) + 2
    case WantLock => 1
    case Waiting(_) => 1
    case Exited => 0
  }

  function WorkerSteps<B(==,!new)>(actions: seq<Action<B>>): nat {
    if actions == [] then 0 else (if actions[0].OfWorker() then 1 else 0) + WorkerSteps(actions[1..])
  }

  /** Blocks added before the worker's first step. */
  function EarlyAdds<B(==,!new)>(actions: seq<Action<B>>): nat {
    if actions == [] || actions[0].OfWorker() then 0 else (if actions[0].Add? then 1 else 0) + EarlyAdds(actions[1..])
  }

  /** How many batches the worker takes. */
  ghost function Batches<B(!new)>(s: State<B>, actions: seq<Action<B>>, t: State<B>): nat
    requires IsRun(s, actions, t)
    decreases |actions|
  {
    if actions == [] then 0 else (if Swaps(s, actions[0]) then 1 else 0) + Batches(Apply(s, actions[0]), actions[1..], t)
  }

  /**
   * The join always finishes, whatever is added while it waits: a worker that
   * has begun takes exactly as many steps as `Potential` says and no new batch.
   */
  lemma {:induction false} JoinFinishes<B(!new)>(s: State<B>, actions: seq<Action<B>>, t: State<B>)
    requires Inv(s) && s.Joining() && s.Last() != NotStarted && IsRun(s, actions, t) && Join !in actions
    ensures t.Joining() && t.Last() != NotStarted && WorkerSteps(actions) + Potential(t) == Potential(s)
    ensures Batches(s, actions, t) == 0
    decreases |actions|
  {
    hide Apply, Enabled, SingleWorker, Buffers, Conserved, Potential;
    if actions != [] {
      JoiningStep(s, actions[0]);
      ControlStep(s, actions[0]);
      ConservedStep(s, actions[0]);
      if actions[0].OfWorker() {
        JoiningWorker(s, actions[0]);
      } else {
        JoiningAdd(s, actions[0].block);
      }
      JoinFinishes(Apply(s, actions[0]), actions[1..], t);
    }
  }

  /**
   * A worker that has not begun yet takes one batch at most: what is pending
   * when it begins.  So only Adds before its first step add to its work.
   */
  lemma {:induction false} JoinFromStart<B(!new)>(s: State<B>, actions: seq<Action<B>>, t: State<B>)
    requires Inv(s) && s.Joining() && s.Last() == NotStarted && IsRun(s, actions, t) && Join !in actions
    ensures t.Joining() && WorkerSteps(actions) + Potential(t) == Potential(s) + EarlyAdds(actions)
    ensures Batches(s, actions, t) == if WorkerSteps(actions) > 0 then 1 else 0
    decreases |actions|
  {
    hide Apply, Enabled, SingleWorker, Buffers, Conserved, Potential;
    if actions != [] {
      JoiningStep(s, actions[0]);
      ControlStep(s, actions[0]);
      ConservedStep(s, actions[0]);
      if actions[0].OfWorker() {
        JoiningWorker(s, actions[0]);
        PotentialAtStart(s);
        JoinFinishes(Apply(s, actions[0]), actions[1..], t);
      } else {
        JoiningAdd(s, actions[0].block);
        JoinFromStart(Apply(s, actions[0]), actions[1..], t);
      }
    }
  }

  lemma PotentialAtStart<B(!new)>(s: State<B>)
    requires s.Last() == NotStarted
    ensures Potential(s) == |s.pending| + 3
  {
  }
}
