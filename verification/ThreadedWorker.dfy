// The object behind the protocol: each method is one lock section, or one
// stretch without the lock, of the source's functions.
module ThreadedWorker {
  import opened WorkerProtocol

  ghost function Repeat<B(!new)>(a: Action<B>, n: nat): (r: seq<Action<B>>)
    ensures |r| == n
    decreases n
  {
    if n == 0 then [] else [a] + Repeat(a, n - 1)
  }

  lemma {:induction false} RunJoin<B(!new)>(s: State<B>, first: seq<Action<B>>, t: State<B>, rest: seq<Action<B>>, u: State<B>)
    requires IsRun(s, first, t) && IsRun(t, rest, u)
    ensures IsRun(s, first + rest, u)
    decreases |first|
  {
    hide Apply, Enabled;
    if first == [] {
      assert first + rest == rest;
    } else {
      assert (first + rest)[1..] == first[1..] + rest;
      RunJoin(Apply(s, first[0]), first[1..], t, rest, u);
    }
  }

  lemma OneStep<B(!new)>(s: State<B>, a: Action<B>)
    requires Enabled(s, a)
    ensures IsRun(s, [a], Apply(s, a))
  {
    hide Apply, Enabled;
    assert IsRun(Apply(s, a), [a][1..], Apply(s, a));
  }

  lemma {:induction false} RepeatSnoc<B(!new)>(a: Action<B>, n: nat)
    ensures Repeat(a, n + 1) == Repeat(a, n) + [a]
    decreases n
  {
    if n > 0 {
      RepeatSnoc(a, n - 1);
    }
  }

  class Worker<B(==,!new)> {
    var requestStop: bool
    var joinable: bool
    var pendingBlocks: seq<B>
    var pendingBlocksBackBuffer: seq<B>
    var bodies: seq<Body>
    var written: seq<B>
    ghost var added: seq<B>
    ghost var control: Control
    ghost var terminated: bool

    ghost function Now(): State<B>
      reads this
    {
      State(requestStop, joinable, bodies, pendingBlocks, pendingBlocksBackBuffer, control, written, added, terminated)
    }

    constructor ()
      ensures Now() == Initial()
    {
      requestStop, joinable, bodies := true, false, [];
      pendingBlocks, pendingBlocksBackBuffer, written := [], [], [];
      added, control, terminated := [], Idle, false;
    }

    method NotifyAll()
      modifies this`bodies
      ensures Now() == WorkerProtocol.NotifyAll(old(Now()))
    {
      var was := bodies;
      bodies := seq(|was|, i requires 0 <= i < |was| => Notified(was[i]));
      assert bodies == WorkerProtocol.NotifyAll(old(Now())).bodies;
    }

    method DoStart()
      modifies this
      ensures Now() == WorkerProtocol.DoStart(old(Now()))
    {
      requestStop := false;
      terminated := terminated || joinable;
      joinable, bodies := true, bodies + [NotStarted];
    }

    method Add(block: B)
      requires Enabled(Now(), Action.Add(block))
      modifies this
      ensures Now() == Apply(old(Now()), Action.Add(block))
    {
      pendingBlocks := pendingBlocks + [block];
      added := added + [block];
      NotifyAll();
      if requestStop && !joinable {
        DoStart();
      }
    }

    /** Start up to the join, or all of it if there is no worker to join. */
    method StartFirst() returns (mustJoin: bool)
      requires Enabled(Now(), BeginStart)
      modifies this
      ensures Now() == Apply(old(Now()), BeginStart) && (mustJoin <==> Now().Joining())
    {
      mustJoin := joinable;
      if joinable {
        requestStop := true;
        NotifyAll();
        control := StartJoining;
      } else {
        DoStart();
      }
    }

    /** The join of Start and of Stop, which returns once the worker has exited. */
    method JoinWorker()
      requires Enabled(Now(), Join)
      modifies this
      ensures Now() == Apply(old(Now()), Join)
    {
      joinable := false;
      control := if control == StartJoining then StartJoined else StopJoined;
    }

    method StartSecond()
      requires Enabled(Now(), FinishStart)
      modifies this
      ensures Now() == Apply(old(Now()), FinishStart)
    {
      if !joinable {
        DoStart();
      }
      control := Idle;
    }

    method StopFirst() returns (mustJoin: bool)
      requires Enabled(Now(), BeginStop)
      modifies this
      ensures Now() == Apply(old(Now()), BeginStop) && (mustJoin <==> Now().Joining())
    {
      mustJoin := joinable;
      if joinable {
        requestStop := true;
        NotifyAll();
        control := StopJoining;
      }
    }

    /** Stop after the join: writes what is pending, under the lock. */
    method StopSecond()
      requires Enabled(Now(), BeginDrain)
      modifies this
      ensures IsRun(old(Now()), [BeginDrain] + Repeat(DrainOne, |old(pendingBlocks)|) + [FinishStop], Now())
      ensures written == old(written) + old(pendingBlocks) && pendingBlocks == []
    {
      hide IsRun, Apply, Enabled;
      ghost var s0 := Now();
      control := Draining(0);
      Begun(s0, Now());
      var k := 0;
      while k < |pendingBlocks|
        invariant k <= |pendingBlocks| && control == Draining(k) && pendingBlocks == s0.pending && written == s0.written + s0.pending[..k]
        invariant IsRun(s0, [BeginDrain] + Repeat(DrainOne, k), Now())
      {
        ghost var t := Now();
        written := written + [pendingBlocks[k]];
        control := Draining(k + 1);
        k := k + 1;
        Drained(s0, k - 1, t, Now());
      }
      ghost var t := Now();
      pendingBlocks := [];
      control := Idle;
      Finished(s0, k, t, Now());
    }

    /** The worker's first look at the pending blocks. */
    method WorkerEnter(i: nat)
      requires Enabled(Now(), Enter(i))
      modifies this
      ensures Now() == Apply(old(Now()), Enter(i))
    {
      pendingBlocks, pendingBlocksBackBuffer := pendingBlocksBackBuffer, pendingBlocks;
      bodies := bodies[i := Writing(0)];
    }

    /** The worker's loop without the lock, here with nobody acting in between. */
    method WorkerWrite(i: nat)
      requires i < |bodies| && bodies[i] == Writing(0)
      modifies this
      ensures IsRun(old(Now()), Repeat(Write(i), |old(pendingBlocksBackBuffer)|) + [DoneWriting(i)], Now())
      ensures written == old(written) + old(pendingBlocksBackBuffer) && pendingBlocksBackBuffer == []
    {
      hide IsRun, Apply, Enabled;
      ghost var s0 := Now();
      var k := 0;
      NothingRun(s0);
      while k < |pendingBlocksBackBuffer|
        invariant k <= |pendingBlocksBackBuffer| && i < |bodies| && bodies[i] == Writing(k)
        invariant pendingBlocksBackBuffer == s0.back && written == s0.written + s0.back[..k]
        invariant IsRun(s0, Repeat(Write(i), k), Now())
      {
        ghost var t := Now();
        written := written + [pendingBlocksBackBuffer[k]];
        bodies := bodies[i := Writing(k + 1)];
        k := k + 1;
        WroteOne(s0, i, k - 1, t, Now());
      }
      ghost var t := Now();
      pendingBlocksBackBuffer := [];
      bodies := bodies[i := WantLock];
      WroteAll(s0, i, k, t, Now());
    }

    /** The worker with the lock again: waits, goes round, or exits. */
    method WorkerCheck(i: nat)
      requires Enabled(Now(), Check(i))
      modifies this
      ensures Now() == Apply(old(Now()), Check(i))
    {
      if !requestStop && pendingBlocks == [] {
        bodies := bodies[i := Waiting(false)];
      } else if !requestStop {
        pendingBlocks, pendingBlocksBackBuffer := pendingBlocksBackBuffer, pendingBlocks;
        bodies := bodies[i := Writing(0)];
      } else {
        bodies := bodies[i := Exited];
      }
    }
  }

  lemma NothingRun<B(!new)>(s: State<B>)
    ensures IsRun(s, [], s)
  {
  }

  lemma Begun<B(!new)>(s: State<B>, t: State<B>)
    requires Enabled(s, BeginDrain) && t == s.(control := Draining(0))
    ensures IsRun(s, [BeginDrain] + Repeat(DrainOne, 0), t)
  {
    OneStep(s, BeginDrain);
    assert [BeginDrain] + Repeat<B>(DrainOne, 0) == [BeginDrain];
  }

  lemma Drained<B(!new)>(s0: State<B>, k: nat, t: State<B>, u: State<B>)
    requires IsRun(s0, [BeginDrain] + Repeat(DrainOne, k), t) && t.control == Draining(k) && k < |t.pending|
    requires u == t.(written := t.written + [t.pending[k]], control := Draining(k + 1))
    ensures IsRun(s0, [BeginDrain] + Repeat(DrainOne, k + 1), u)
  {
    hide IsRun;
    OneStep(t, DrainOne);
    RunJoin(s0, [BeginDrain] + Repeat(DrainOne, k), t, [DrainOne], u);
    RepeatSnoc<B>(DrainOne, k);
    assert [BeginDrain] + Repeat<B>(DrainOne, k) + [DrainOne] == [BeginDrain] + Repeat<B>(DrainOne, k + 1);
  }

  lemma Finished<B(!new)>(s0: State<B>, k: nat, t: State<B>, u: State<B>)
    requires IsRun(s0, [BeginDrain] + Repeat(DrainOne, k), t) && t.control == Draining(|t.pending|)
    requires u == t.(pending := [], control := Idle)
    ensures IsRun(s0, [BeginDrain] + Repeat(DrainOne, k) + [FinishStop], u)
  {
    hide IsRun;
    OneStep(t, FinishStop);
    RunJoin(s0, [BeginDrain] + Repeat(DrainOne, k), t, [FinishStop], u);
  }

  lemma WroteOne<B(!new)>(s0: State<B>, i: nat, k: nat, t: State<B>, u: State<B>)
    requires IsRun(s0, Repeat(Write(i), k), t) && i < |t.bodies| && t.bodies[i] == Writing(k) && k < |t.back|
    requires u == t.(written := t.written + [t.back[k]], bodies := t.bodies[i := Writing(k + 1)])
    ensures IsRun(s0, Repeat(Write(i), k + 1), u)
  {
    hide IsRun;
    OneStep(t, Write(i));
    RunJoin(s0, Repeat(Write(i), k), t, [Write(i)], u);
    RepeatSnoc<B>(Write(i), k);
  }

  lemma WroteAll<B(!new)>(s0: State<B>, i: nat, k: nat, t: State<B>, u: State<B>)
    requires IsRun(s0, Repeat(Write(i), k), t) && i < |t.bodies| && t.bodies[i] == Writing(|t.back|)
    requires u == t.(back := [], bodies := t.bodies[i := WantLock])
    ensures IsRun(s0, Repeat(Write(i), k) + [DoneWriting(i)], u)
  {
    hide IsRun;
    OneStep(t, DoneWriting(i));
    RunJoin(s0, Repeat(Write(i), k), t, [DoneWriting(i)], u);
  }
}
