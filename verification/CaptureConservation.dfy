// No block and no event is lost or doubled, in any run.
module CaptureConservation {
  import opened Wrappers
  import opened Qwords
  import opened EventWriter
  import opened BlockLayout
  import opened CaptureState
  import opened CaptureInvariants

  // Blocks

  function One(b: bool): nat {
    if b then 1 else 0
  }

  /** How often a block of that id is among `blocks`. */
  function Count(blocks: seq<Block>, id: nat): nat {
    if blocks == [] then 0 else Count(blocks[..|blocks| - 1], id) + One(blocks[|blocks| - 1].id == id)
  }

  function Holds(t: Thread, id: nat): nat {
    One(t.current.Some? && t.current.value.id == id)
  }

  function Holders(threads: seq<Thread>, id: nat): nat {
    if threads == [] then 0 else Holds(threads[0], id) + Holders(threads[1..], id)
  }

  /** How often block `id` is written, waiting for the worker, discarded, or with a thread. */
  function Places(s: State, id: nat): nat {
    Count(s.written, id) + Count(s.waiting, id) + Count(s.discarded, id) + Holders(s.threads, id)
  }

  /** Every block that was allocated is in exactly one place, and no other block is anywhere. */
  ghost predicate Owned(s: State) {
    forall id: nat :: Places(s, id) == One(id < s.nextBlock)
  }

  lemma CountSnoc(blocks: seq<Block>, b: Block, id: nat)
    ensures Count(blocks + [b], id) == Count(blocks, id) + One(b.id == id)
  {
    assert (blocks + [b])[..|blocks|] == blocks;
  }

  lemma {:induction false} CountJoin(s: seq<Block>, t: seq<Block>, id: nat)
    ensures Count(s + t, id) == Count(s, id) + Count(t, id)
    decreases |t|
  {
    if t == [] {
      assert s + t == s;
    } else {
      var n := |t| - 1;
      assert s + t == s + t[..n] + [t[n]];
      CountSnoc(s + t[..n], t[n], id);
      CountJoin(s, t[..n], id);
    }
  }

  lemma {:induction false} HoldersUpdate(threads: seq<Thread>, i: nat, t: Thread, id: nat)
    requires i < |threads|
    ensures Holders(threads[i := t], id) + Holds(threads[i], id) == Holders(threads, id) + Holds(t, id)
    decreases i
  {
    if i == 0 {
      assert threads[i := t][1..] == threads[1..];
    } else {
      assert threads[i := t][1..] == threads[1..][i - 1 := t];
      HoldersUpdate(threads[1..], i - 1, t, id);
    }
  }

  lemma {:induction false} HoldersRemove(threads: seq<Thread>, i: nat, id: nat)
    requires i < |threads|
    ensures Holders(threads[..i] + threads[i + 1..], id) + Holds(threads[i], id) == Holders(threads, id)
    decreases i
  {
    var rest := threads[..i] + threads[i + 1..];
    if i == 0 {
      assert rest == threads[1..];
    } else {
      assert rest[1..] == threads[1..][..i - 1] + threads[1..][i..];
      HoldersRemove(threads[1..], i - 1, id);
    }
  }

  lemma {:induction false} HoldersSnoc(threads: seq<Thread>, t: Thread, id: nat)
    ensures Holders(threads + [t], id) == Holders(threads, id) + Holds(t, id)
  {
    if threads == [] {
      assert (threads + [t])[1..] == [];
    } else {
      assert (threads + [t])[1..] == threads[1..] + [t];
      HoldersSnoc(threads[1..], t, id);
    }
  }

  lemma {:induction false} HoldersEnabled(threads: seq<Thread>, enabled: bool, id: nat)
    ensures Holders(SetEnabled(threads, enabled), id) == Holders(threads, id)
  {
    if threads != [] {
      assert SetEnabled(threads, enabled)[1..] == SetEnabled(threads[1..], enabled);
      HoldersEnabled(threads[1..], enabled, id);
    }
  }

  lemma ClosePlaces(s: State, i: nat, time: Qword, write: bool, id: nat)
    requires i < |s.threads|
    ensures var t := Close(s, i, time, write);
            Places(t, id) == Places(s, id) && t.nextBlock == s.nextBlock && |t.threads| == |s.threads| && t.threads[i].current.None?
  {
    hide Count, Holders;
    HoldersUpdate(s.threads, i, FlushThread(s.threads[i]), id);
    if s.threads[i].current.Some? {
      var b := FlushedBlock(s.threads[i], time).value;
      CountSnoc(s.written, b, id);
      CountSnoc(s.waiting, b, id);
    }
  }

  lemma LookPlaces(s: State, i: nat, id: nat)
    requires i < |s.threads|
    ensures var t := Look(s, i);
            Places(t, id) == Places(s, id) && t.nextBlock == s.nextBlock && |t.threads| == |s.threads|
  {
    HoldersUpdate(s.threads, i, Refresh(s.threads[i]), id);
    if !s.threads[i].enabled && s.threads[i].current.Some? {
      CountSnoc(s.discarded, s.threads[i].current.value, id);
    }
  }

  lemma AppendPlaces(s: State, i: nat, event: Timed, id: nat)
    requires i < |s.threads| && s.threads[i].current.Some?
    ensures var t := Append(s, i, event);
            Places(t, id) == Places(s, id) && t.nextBlock == s.nextBlock && |t.threads| == |s.threads|
  {
    HoldersUpdate(s.threads, i, Append(s, i, event).threads[i], id);
  }

  lemma OpenPlaces(s: State, i: nat, begin: Qword, id: nat)
    requires i < |s.threads| && s.threads[i].current.None?
    ensures var t := Open(s, i, begin);
            && Places(t, id) == Places(s, id) + One(id == s.nextBlock) && t.nextBlock == s.nextBlock + 1
            && |t.threads| == |s.threads| && t.threads[i].current.Some?
  {
    HoldersUpdate(s.threads, i, Open(s, i, begin).threads[i], id);
  }

  lemma TickPlaces(s: State, time: Qword, id: nat)
    ensures Places(Tick(s, time), id) == Places(s, id)
  {
  }

  lemma ReplacePlaces(s: State, i: nat, event: Event, first: Qword, second: Qword, allocates: bool, id: nat)
    requires i < |s.threads| && Places(s, id) == One(id < s.nextBlock)
    ensures var t := Replace(s, i, event, first, second, allocates);
            Places(t, id) == One(id < t.nextBlock)
  {
    hide Places, Append, Close, Open;
    TickPlaces(s, first, id);
    ClosePlaces(Tick(s, first), i, first, false, id);
    var s1 := Close(Tick(s, first), i, first, false);
    if allocates {
      var time := if event.EndSpan? then first else second;
      TickPlaces(s1, time, id);
      OpenPlaces(Tick(s1, time), i, time, id);
      if time != 0 {
        AppendPlaces(Open(Tick(s1, time), i, time), i, Timed(time, event), id);
      }
    }
  }

  lemma RecordPlaces(s: State, i: nat, event: Event, first: Qword, second: Qword, allocates: bool, id: nat)
    requires i < |s.threads| && Places(s, id) == One(id < s.nextBlock)
    ensures var t := RecordEvent(s, i, event, first, second, allocates);
            Places(t, id) == One(id < t.nextBlock)
  {
    hide Places, Look, Append, Replace;
    LookPlaces(s, i, id);
    var s1 := Look(s, i);
    if s1.threads[i].info != Null && MustReplace(s1.threads[i]) {
      ReplacePlaces(s1, i, event, first, second, allocates, id);
    } else if s1.threads[i].info != Null && s1.threads[i].current.Some? {
      TickPlaces(s1, first, id);
      AppendPlaces(Tick(s1, first), i, Timed(first, event), id);
    }
  }

  lemma {:induction false} FlushPlaces(s: State, n: nat, time: Qword, id: nat)
    requires n <= |s.threads|
    ensures Places(FlushThreads(s, n, time), id) == Places(s, id) && FlushThreads(s, n, time).nextBlock == s.nextBlock
  {
    hide Places, Close;
    if n > 0 {
      FlushPlaces(s, n - 1, time, id);
      ClosePlaces(FlushThreads(s, n - 1, time), n - 1, time, true, id);
    }
  }

  lemma StopPlaces(s: State, id: nat)
    ensures Places(StopWorker(s), id) == Places(s, id)
  {
    CountJoin(s.written, s.waiting, id);
  }

  lemma WriteOnePlaces(s: State, id: nat)
    requires s.waiting != []
    ensures Places(Apply(s, WriteOne), id) == Places(s, id)
  {
    var b := s.waiting[0];
    CountSnoc(s.written, b, id);
    assert s.waiting == [b] + s.waiting[1..] && [b] == [] + [b];
    CountJoin([b], s.waiting[1..], id);
    CountSnoc([], b, id);
  }

  lemma StepPlaces(s: State, a: Step, id: nat)
    requires Enabled(s, a) && Places(s, id) == One(id < s.nextBlock)
    ensures Places(Apply(s, a), id) == One(id < Apply(s, a).nextBlock)
  {
    hide RecordEvent, Close, FlushThreads;
    match a {
      case Register => HoldersSnoc(s.threads, NewThread(s.nextThread, s.isEnabled), id);
      case Record(i, event, first, second, allocates) => RecordPlaces(s, i, event, first, second, allocates, id);
      case Exit(i, time) =>
        var s1 := Close(Tick(s, time), i, time, false);
        ClosePlaces(Tick(s, time), i, time, false, id);
        HoldersRemove(s1.threads, i, id);
      case Enable => HoldersEnabled(s.threads, true, id);
      case Disable =>
        HoldersEnabled(s.threads, false, id);
        StopPlaces(s.(isEnabled := false, threads := SetEnabled(s.threads, false)), id);
      case Flush(time) =>
        StopPlaces(Tick(s, time), id);
        FlushPlaces(StopWorker(Tick(s, time)), |s.threads|, time, id);
      case WriteOne => WriteOnePlaces(s, id);
    }
  }

  lemma StepOwned(s: State, a: Step)
    requires Owned(s) && Enabled(s, a)
    ensures Owned(Apply(s, a))
  {
    hide Apply, Places, Enabled;
    forall id: nat
      ensures Places(Apply(s, a), id) == One(id < Apply(s, a).nextBlock)
    {
      StepPlaces(s, a, id);
    }
  }
}
