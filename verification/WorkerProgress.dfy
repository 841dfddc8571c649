// A running worker writes what it is given: outside Stop and Start, the steps
// of the worker itself get every block written, whatever is added meanwhile.
module WorkerProgress {
  import opened WorkerProtocol
  import opened WorkerOrder

  /** A worker runs, nobody asks it to stop, and nobody holds the lock for long. */
  predicate Running<B(==,!new)>(s: State<B>) {
    s.joinable && !s.requestStop && s.LockFree()
  }

  /** How many steps of the worker it takes until `n` more of the unwritten blocks are written. */
  function Work<B(==,!new)>(s: State<B>, n: nat): nat {
    if n == 0 then 0
    else if s.Last().Writing? then if n <= |s.BackRest()| then n else n + 2
    else n + 1
  }

  /** The worker looks at the pending blocks exactly as it should: it takes them all, sleeps, or exits. */
  lemma CheckExact<B(!new)>(s: State<B>, i: nat)
    requires Inv(s) && Enabled(s, Check(i))
    ensures var t := Apply(s, Check(i));
            && (s.requestStop ==> t.Last() == Exited && t.pending == s.pending && t.back == [])
            && (!s.requestStop && s.pending == [] ==> t.Last() == Waiting(false) && t.pending == [] && t.back == [])
            && (!s.requestStop && s.pending != [] ==> t.Last() == Writing(0) && t.BackRest() == s.pending && t.pending == [])
  {
    OnlyLastActs(s, Check(i));
  }

  /** What a new worker does first. */
  lemma EnterExact<B(!new)>(s: State<B>, i: nat)
    requires Inv(s) && Enabled(s, Enter(i))
    ensures var t := Apply(s, Enter(i));
            t.Last() == Writing(0) && t.BackRest() == s.pending && t.pending == []
  {
    OnlyLastActs(s, Enter(i));
  }

  predicate OfWorkerOrAdd<B(==,!new)>(a: Action<B>) {
    a.OfWorker() || a.Add?
  }

  /** The worker is not asleep or gone while blocks wait, and has a step to take. */
  lemma NotStuck<B(!new)>(s: State<B>) returns (a: Action<B>)
    requires Inv(s) && Running(s) && s.Unwritten() != []
    ensures a.OfWorker() && Enabled(s, a)
  {
    var i := |s.bodies| - 1;
    a := match s.Last()
      case NotStarted => Enter(i)
      case Writing(next) => if next < |s.back| then Write(i) else DoneWriting(i)
      case WantLock => Check(i)
      case Waiting(_) => Check(i);
  }

  lemma AddProgress<B(!new)>(s: State<B>, b: B, n: nat)
    requires Inv(s) && Running(s) && n <= |s.Unwritten()|
    ensures var t := Apply(s, Add(b));
            && Running(t) && n <= |t.Unwritten()| && t.written == s.written && Work(t, n) == Work(s, n)
            && t.Unwritten() == s.Unwritten() + [b]
  {
    hide Apply, SingleWorker, Buffers, Signals, Conserved;
    AddMoves(s, b);
    AddShape(s, b);
  }

  lemma AddShape<B(!new)>(s: State<B>, b: B)
    requires Inv(s) && Running(s)
    ensures var t := Apply(s, Add(b));
            Running(t) && t.BackRest() == s.BackRest() && (t.Last().Writing? <==> s.Last().Writing?)
  {
    hide Buffers, Signals, Conserved, Notified, NotifyAll;
    NotifiedShape(s.(pending := s.pending + [b], added := s.added + [b]));
  }

  lemma NotifiedShape<B(!new)>(s: State<B>)
    ensures var t := NotifyAll(s);
            t == s.(bodies := t.bodies) && t.BackRest() == s.BackRest() && (t.Last().Writing? <==> s.Last().Writing?)
  {
    var t := NotifyAll(s);
    assert t.Last() == Notified(s.Last());
  }

  lemma WriteProgress<B(!new)>(s: State<B>, i: nat, n: nat)
    requires Inv(s) && Running(s) && 0 < n <= |s.Unwritten()| && Enabled(s, Write(i))
    ensures var t := Apply(s, Write(i));
            && Running(t) && t.written + t.Unwritten() == s.written + s.Unwritten() && |t.written| == |s.written| + 1
            && Work(t, n - 1) == Work(s, n) - 1
  {
    hide SingleWorker, Buffers, Signals, Conserved, Apply, Enabled;
    WriteMoves(s, i);
    WriteQueue(s, i);
    WriteShape(s, i);
  }

  lemma WriteShape<B(!new)>(s: State<B>, i: nat)
    requires Inv(s) && Running(s) && Enabled(s, Write(i))
    ensures s.Last().Writing? && Apply(s, Write(i)).Last().Writing? && Running(Apply(s, Write(i)))
  {
    OnlyLastActs(s, Write(i));
  }

  lemma OtherProgress<B(!new)>(s: State<B>, a: Action<B>, n: nat)
    requires Inv(s) && Running(s) && 0 < n <= |s.Unwritten()| && Enabled(s, a) && a.OfWorker() && !a.Write?
    ensures var t := Apply(s, a);
            Running(t) && t.written == s.written && t.Unwritten() == s.Unwritten() && Work(t, n) == Work(s, n) - 1
  {
    hide Apply, Enabled, SingleWorker, Buffers, Signals, Conserved;
    WorkerMovesNothing(s, a);
    OtherShape(s, a);
  }

  /** Entering and looking take the pending blocks as the batch; a finished batch is put away. */
  lemma OtherShape<B(!new)>(s: State<B>, a: Action<B>)
    requires Inv(s) && Running(s) && Enabled(s, a) && a.OfWorker() && !a.Write? && s.Unwritten() != []
    ensures var t := Apply(s, a);
            && Running(t) && s.BackRest() == []
            && (if a.DoneWriting? then s.Last().Writing? && !t.Last().Writing? && t.Last() == WantLock
                else !s.Last().Writing? && t.Last().Writing? && t.BackRest() == s.Unwritten())
  {
    hide Conserved;
    OnlyLastActs(s, a);
    if a.Check? {
      CheckExact(s, a.worker);
    } else if a.Enter? {
      EnterExact(s, a.worker);
    }
    assert s.BackRest() + s.PendingRest() == s.PendingRest();
  }

  /** Each step of the worker is one of those that are needed. */
  lemma WorkerProgress<B(!new)>(s: State<B>, a: Action<B>, n: nat)
    requires Inv(s) && Running(s) && 0 < n <= |s.Unwritten()| && Enabled(s, a) && a.OfWorker()
    ensures var t := Apply(s, a);
            && Running(t)
            && (if a.Write? then t.written + t.Unwritten() == s.written + s.Unwritten() && |t.written| == |s.written| + 1
                                 && Work(t, n - 1) == Work(s, n) - 1
                else t.written == s.written && t.Unwritten() == s.Unwritten() && Work(t, n) == Work(s, n) - 1)
  {
    hide SingleWorker, Buffers, Signals, Conserved, Apply, Enabled, Running, Work;
    if a.Write? {
      WriteProgress(s, a.worker, n);
    } else {
      OtherProgress(s, a, n);
    }
  }

  /**
   * Progress: let only the worker and the adders act, for as many steps of the
   * worker as `Work` says, two more than there are unwritten blocks at most.
   * Then all that was unwritten at the start has been written, in order.
   */
  lemma {:induction false} AllGetWritten<B(!new)>(s: State<B>, actions: seq<Action<B>>, t: State<B>, n: nat)
    requires Inv(s) && Running(s) && n <= |s.Unwritten()|
    requires IsRun(s, actions, t) && (forall a <- actions :: OfWorkerOrAdd(a)) && WorkerSteps(actions) >= Work(s, n)
    ensures Running(t) && |t.written| >= |s.written| + n
    ensures s.written + s.Unwritten() <= t.written + t.Unwritten()
    decreases |actions|
  {
    hide Apply, Enabled, SingleWorker, Buffers, Signals, Conserved, Work;
    if actions == [] {
      WorkIsNeeded(s, n);
    } else {
      var a, next := actions[0], Apply(s, actions[0]);
      assert OfWorkerOrAdd(a);
      InvStep(s, a);
      if a.Add? {
        AddProgress(s, a.block, n);
        AllGetWritten(next, actions[1..], t, n);
        assert next.written + next.Unwritten() == s.written + s.Unwritten() + [a.block];
      } else if n == 0 {
        AnyStep(s, a);
        NoWork(next);
        AllGetWritten(next, actions[1..], t, 0);
      } else {
        WorkerProgress(s, a, n);
        AllGetWritten(next, actions[1..], t, if a.Write? then n - 1 else n);
      }
    }
  }

  lemma WorkIsNeeded<B(!new)>(s: State<B>, n: nat)
    requires Work(s, n) == 0
    ensures n == 0
  {
  }

  lemma NoWork<B(!new)>(s: State<B>)
    ensures Work(s, 0) == 0
  {
  }

  lemma AnyStep<B(!new)>(s: State<B>, a: Action<B>)
    requires Inv(s) && Running(s) && Enabled(s, a) && a.OfWorker()
    ensures var t := Apply(s, a);
            Running(t) && |t.written| >= |s.written| && t.written + t.Unwritten() == s.written + s.Unwritten()
  {
    hide Conserved;
    OnlyLastActs(s, a);
    match a {
      case Write(i) =>
        WriteQueue(s, i);
      case _ =>
        WorkerMovesNothing(s, a);
    }
  }

  lemma WorkBound<B(!new)>(s: State<B>)
    ensures Work(s, |s.Unwritten()|) <= |s.Unwritten()| + 2
  {
  }

  /** In every reachable state with a running worker: what is unwritten gets written by the worker's own steps. */
  lemma EverythingWritten<B(!new)>(s: State<B>, actions: seq<Action<B>>, t: State<B>)
    requires Reachable(s) && Running(s)
    requires IsRun(s, actions, t) && (forall a <- actions :: OfWorkerOrAdd(a)) && WorkerSteps(actions) >= |s.Unwritten()| + 2
    ensures s.written + s.Unwritten() <= t.written
  {
    hide Inv, IsRun, Reachable, Running, Work;
    InvReachable(s);
    WorkBound(s);
    AllGetWritten(s, actions, t, |s.Unwritten()|);
    var w, all := s.written + s.Unwritten(), t.written + t.Unwritten();
    assert w == all[..|w|] == t.written[..|w|];
  }

  // Start with a worker that runs

  /** Between the call of Start and its return, when `n` workers had been created before. */
  predicate Renewing<B(==,!new)>(s: State<B>, n: nat) {
    match s.control
    case StartJoining => |s.bodies| == n
    case StartJoined => |s.bodies| >= n && (s.joinable ==> |s.bodies| > n)
    case _ => false
  }

  lemma RenewingStep<B(!new)>(s: State<B>, a: Action<B>, n: nat)
    requires Inv(s) && Renewing(s, n) && Enabled(s, a)
    ensures var t := Apply(s, a);
            if t.control == Idle then a == FinishStart && |t.bodies| > n && t.joinable && !t.requestStop else Renewing(t, n)
  {
    hide Conserved, Buffers;
  }

  predicate Returns<B(==,!new)>(a: Action<B>) {
    a.FinishStart?
  }

  /**
   * A Start that finds a worker replaces it: when it returns, the old one has
   * exited and a new one runs, however the calls of Add and the workers' steps
   * come in between.
   */
  lemma {:induction false} StartRenews<B(!new)>(s: State<B>, actions: seq<Action<B>>, t: State<B>, n: nat)
    requires Inv(s) && Renewing(s, n) && IsRun(s, actions, t)
    requires actions != [] && actions[|actions| - 1] == FinishStart && forall k | 0 <= k < |actions| - 1 :: !Returns(actions[k])
    ensures |t.bodies| > n && t.joinable && !t.requestStop && Inv(t)
    ensures forall i | 0 <= i < n :: t.bodies[i] == Exited
    decreases |actions|
  {
    hide Apply, Enabled, Conserved, Buffers, Renewing, Signals;
    var next := Apply(s, actions[0]);
    InvStep(s, actions[0]);
    RenewingStep(s, actions[0], n);
    if |actions| == 1 {
      assert t == next;
      assert actions[0] == FinishStart;
      FinishReturns(s);
    } else {
      assert !Returns(actions[0]);
      assert forall k | 0 <= k < |actions[1..]| - 1 :: actions[1..][k] == actions[k + 1];
      StartRenews(next, actions[1..], t, n);
    }
  }

  lemma FinishReturns<B(!new)>(s: State<B>)
    requires Enabled(s, FinishStart)
    ensures Apply(s, FinishStart).control == Idle
  {
  }

  /** That is how a Start begins if there is a worker. */
  lemma StartBegins<B(!new)>(s: State<B>)
    requires Inv(s) && s.control == Idle
    ensures Enabled(s, BeginStart)
    ensures s.joinable ==> Renewing(Apply(s, BeginStart), |s.bodies|)
    ensures !s.joinable ==> Apply(s, BeginStart).control == Idle && |Apply(s, BeginStart).bodies| == |s.bodies| + 1
  {
  }
}
