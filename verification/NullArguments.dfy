// Null string arguments: the writers store one zero qword, of which the
// decoder consumes nothing, so that everything behind it is out of step.
module NullArguments {
  import opened Wrappers
  import opened Qwords
  import opened Memory
  import opened EventFormat
  import opened EventStrings
  import opened EventWriter
  import opened StringReading
  import opened EventReading
  import opened StringRoundTrip
  import opened ArgumentRoundTrip

  function Repeated(slot: Slot, n: nat): (r: seq<Slot>)
    ensures |r| == n && forall i | 0 <= i < n :: r[i] == slot
  {
    seq(n, _ => slot)
  }

  function Blanks(n: nat): (r: seq<DecodedArg>)
    ensures |r| == n && forall i | 0 <= i < n :: r[i] == Text(false, [])
  {
    seq(n, _ => Text(false, []))
  }

  function AsNumbers(values: seq<Qword>): (r: seq<DecodedArg>)
    ensures |r| == |values| && forall i | 0 <= i < |r| :: r[i] == Number(values[i])
  {
    seq(|values|, i requires 0 <= i < |values| => Number(values[i]))
  }

  function Values(values: seq<Qword>): (r: seq<Arg>)
    ensures |r| == |values| && forall i | 0 <= i < |r| :: r[i] == Value(values[i])
  {
    seq(|values|, i requires 0 <= i < |values| => Value(values[i]))
  }

  function Strings(strings: seq<CString>): (r: seq<Arg>)
    ensures |r| == |strings| && forall i | 0 <= i < |r| :: r[i] == Str(strings[i])
  {
    seq(|strings|, i requires 0 <= i < |strings| => Str(strings[i]))
  }

  function AllDecoded(args: seq<Arg>): (r: seq<DecodedArg>)
    ensures |r| == |args| && forall i | 0 <= i < |r| :: r[i] == AsDecoded(args[i])
  {
    seq(|args|, i requires 0 <= i < |args| => AsDecoded(args[i]))
  }

  // What lies before the null is read as it is

  lemma {:induction false} TakeGood(slots: seq<Slot>, args: seq<Arg>, a: ArgState, limit: int)
    requires (forall x <- args :: GoodArg(x)) && Agree(slots, args) && |slots| == |args|
    requires WordsLie(ArgsWords(args), a.mem, a.source) && a.source + |ArgsWords(args)| <= limit && |a.args| + |args| <= MAX_ARGUMENTS
    ensures TakeSlots(slots, a, limit)
         == ArgState(a.args + AllDecoded(args), a.source + |ArgsWords(args)|, a.bytesUsed + 8 * |ArgsWords(args)|, a.mem)
  {
    hide TakeSlots, WordsLie, ArgsWords, Agree;
    TakeStoredAll(slots, args, a, limit);
    ConsumedBound(slots, args);
    ExpectedAll(slots, args);
    PushAllFits(a.args, AllDecoded(args));
  }

  lemma {:induction false} ExpectedAll(slots: seq<Slot>, args: seq<Arg>)
    requires |slots| == |args|
    ensures Expected(slots, args) == AllDecoded(args)
  {
    if slots != [] {
      ExpectedAll(slots[1..], args[1..]);
    }
  }

  lemma {:induction false} WordsJoin(s: seq<Arg>, t: seq<Arg>)
    ensures ArgsWords(s + t) == ArgsWords(s) + ArgsWords(t)
    decreases |s|
  {
    if s == [] {
      assert s + t == t;
    } else {
      assert (s + t)[1..] == s[1..] + t;
      WordsJoin(s[1..], t);
    }
  }

  // Behind the null

  /** A text slot that stands at a zero qword reads as empty and stays there. */
  lemma {:induction false} StuckAtZero(k: nat, a: ArgState, limit: int)
    requires Get(a.mem, a.source) == 0 && |a.args| + k <= MAX_ARGUMENTS
    ensures TakeSlots(Repeated(TextSlot, k), a, limit) == a.(args := a.args + Blanks(k))
    decreases k
  {
    hide TakeQword;
    if k == 0 {
      assert a.args + Blanks(0) == a.args;
    } else {
      assert TakeSlot(TextSlot, a, limit) == a.(args := a.args + [Text(false, [])]);
      assert Repeated(TextSlot, k)[1..] == Repeated(TextSlot, k - 1);
      StuckAtZero(k - 1, a.(args := a.args + [Text(false, [])]), limit);
      assert a.args + [Text(false, [])] + Blanks(k - 1) == a.args + Blanks(k);
    }
  }

  lemma TakeNumber(q: Words, a: ArgState, limit: int)
    requires q != [] && WordsLie(q, a.mem, a.source) && a.source + |q| <= limit && |a.args| < MAX_ARGUMENTS
    ensures TakeSlot(NumberSlot, a, limit) == ArgState(a.args + [Number(q[0])], a.source + 1, a.bytesUsed + 8, a.mem)
    ensures WordsLie(q[1..], a.mem, a.source + 1)
  {
    hide TakeString;
    assert a.mem[a.source + 0] == q[0];
    assert [q[0]] + q[1..] == q;
    WordsLieParts([q[0]], q[1..], a.mem, a.source);
  }

  /** Number slots read whatever qwords come next. */
  lemma {:induction false} TakeNumbers(n: nat, q: Words, a: ArgState, limit: int)
    requires WordsLie(q, a.mem, a.source) && a.source + |q| <= limit && n <= |q| && |a.args| + n <= MAX_ARGUMENTS
    ensures TakeSlots(Repeated(NumberSlot, n), a, limit)
         == ArgState(a.args + AsNumbers(q[..n]), a.source + n, a.bytesUsed + 8 * n, a.mem)
    decreases n
  {
    hide TakeSlot, WordsLie;
    if n == 0 {
      assert a.args + AsNumbers([]) == a.args;
    } else {
      TakeNumber(q, a, limit);
      assert Repeated(NumberSlot, n)[1..] == Repeated(NumberSlot, n - 1);
      TakeNumbers(n - 1, q[1..], TakeSlot(NumberSlot, a, limit), limit);
      assert q[1..][..n - 1] == q[..n][1..];
      assert a.args + AsNumbers(q[..n]) == a.args + [Number(q[0])] + AsNumbers(q[..n][1..]);
    }
  }

  /** The slots for good arguments, the null, `k` strings and `n` numbers. */
  function AllSlots(slots: seq<Slot>, k: nat, n: nat): seq<Slot> {
    slots + (Repeated(TextSlot, 1 + k) + Repeated(NumberSlot, n))
  }

  /**
   * Behind good arguments of any kind a null string reads as empty; so does
   * every string up to the first number; and the numbers are read from the null
   * on, qword by qword: zero, and then whatever was stored behind the null.
   */
  lemma NullShifts(good: seq<Arg>, slots: seq<Slot>, rest: seq<Arg>, k: nat, n: nat, a: ArgState, limit: int)
    requires (forall x <- good :: GoodArg(x)) && Agree(slots, good) && |slots| == |good|
    requires WordsLie(ArgsWords(good + [NullStr] + rest), a.mem, a.source) && a.source + |ArgsWords(good + [NullStr] + rest)| <= limit
    requires n <= 1 + |ArgsWords(rest)| && |a.args| + |good| + 1 + k + n <= MAX_ARGUMENTS
    ensures var r := TakeSlots(AllSlots(slots, k, n), a, limit);
            && r.args == a.args + AllDecoded(good) + Blanks(1 + k) + AsNumbers(([0] + ArgsWords(rest))[..n])
            && r.mem == a.mem
  {
    hide TakeSlots, WordsLie, ArgsWords;
    var q := [0] + ArgsWords(rest);
    NullWords(good, rest);
    WordsLieParts(ArgsWords(good), q, a.mem, a.source);
    TakeSlotsAppend(slots, Repeated(TextSlot, 1 + k) + Repeated(NumberSlot, n), a, limit);
    TakeGood(slots, good, a, limit);
    var b := TakeSlots(slots, a, limit);
    ZeroFirst(q, b.mem, b.source);
    TakeSlotsAppend(Repeated(TextSlot, 1 + k), Repeated(NumberSlot, n), b, limit);
    StuckAtZero(1 + k, b, limit);
    TakeNumbers(n, q, b.(args := b.args + Blanks(1 + k)), limit);
  }

  lemma NullWords(good: seq<Arg>, rest: seq<Arg>)
    ensures ArgsWords(good + [NullStr] + rest) == ArgsWords(good) + ([0] + ArgsWords(rest))
  {
    hide ArgsWords;
    assert good + [NullStr] + rest == good + ([NullStr] + rest);
    WordsJoin(good, [NullStr] + rest);
    NullFirst(rest);
  }

  lemma NullFirst(rest: seq<Arg>)
    ensures ArgsWords([NullStr] + rest) == [0] + ArgsWords(rest)
  {
    assert ([NullStr] + rest)[1..] == rest;
  }

  lemma ZeroFirst(q: Words, mem: Words, p: nat)
    requires q != [] && q[0] == 0 && WordsLie(q, mem, p)
    ensures Get(mem, p) == 0
  {
    assert mem[p + 0] == q[0];
  }

  /**
   * So arguments with a null, and strings and then numbers behind it, come back
   * exactly when the strings are empty wide ones and the numbers happen to be
   * the qwords that stand one place before them.
   */
  lemma NullExact(good: seq<Arg>, slots: seq<Slot>, strings: seq<CString>, values: seq<Qword>, a: ArgState, limit: int)
    requires (forall x <- good :: GoodArg(x)) && Agree(slots, good) && |slots| == |good|
    requires var args := good + [NullStr] + (Strings(strings) + Values(values));
             && WordsLie(ArgsWords(args), a.mem, a.source) && a.source + |ArgsWords(args)| <= limit
             && |a.args| + |args| <= MAX_ARGUMENTS
    ensures var args := good + [NullStr] + (Strings(strings) + Values(values));
            && |values| <= |ArgsWords(Strings(strings) + Values(values))|
            && (TakeSlots(AllSlots(slots, |strings|, |values|), a, limit).args == a.args + AllDecoded(args)
                <==> (forall i | 0 <= i < |strings| :: !strings[i].ansi && strings[i].chars == [])
                     && ([0] + ArgsWords(Strings(strings) + Values(values)))[..|values|] == values)
  {
    hide TakeSlots, WordsLie, ArgsWords, Agree;
    var rest := Strings(strings) + Values(values);
    EnoughWords(Strings(strings), values);
    NullShifts(good, slots, rest, |strings|, |values|, a, limit);
    var q := ([0] + ArgsWords(rest))[..|values|];
    var front := a.args + AllDecoded(good);
    assert front + Blanks(1 + |strings|) + AsNumbers(q) == front + (Blanks(1 + |strings|) + AsNumbers(q));
    assert a.args + AllDecoded(good + [NullStr] + rest) == front + AllDecoded([NullStr] + rest);
    SamePart(front, Blanks(1 + |strings|) + AsNumbers(q), AllDecoded([NullStr] + rest));
    TailsEqual(strings, values, q);
  }

  lemma SamePart(s: seq<DecodedArg>, t: seq<DecodedArg>, u: seq<DecodedArg>)
    ensures s + t == s + u <==> t == u
  {
    assert (s + t)[|s|..] == t && (s + u)[|s|..] == u;
  }

  lemma EnoughWords(args: seq<Arg>, values: seq<Qword>)
    ensures |values| <= |ArgsWords(args + Values(values))|
  {
    WordsJoin(args, Values(values));
    ValuesWords(values);
  }

  lemma {:induction false} ValuesWords(values: seq<Qword>)
    ensures ArgsWords(Values(values)) == values
    decreases |values|
  {
    if values != [] {
      assert Values(values)[1..] == Values(values[1..]);
      ValuesWords(values[1..]);
      assert [values[0]] + values[1..] == values;
    }
  }

  lemma TailsEqual(strings: seq<CString>, values: seq<Qword>, q: seq<Qword>)
    requires |q| == |values|
    ensures Blanks(1 + |strings|) + AsNumbers(q) == AllDecoded([NullStr] + (Strings(strings) + Values(values)))
       <==> (forall i | 0 <= i < |strings| :: !strings[i].ansi && strings[i].chars == []) && q == values
  {
    assert AllDecoded([NullStr] + (Strings(strings) + Values(values))) == AllDecoded([NullStr] + Strings(strings)) + AllDecoded(Values(values));
    StringsBlank(strings);
    NumbersSame(q, values);
    BothParts(Blanks(1 + |strings|), AsNumbers(q), AllDecoded([NullStr] + Strings(strings)), AllDecoded(Values(values)));
  }

  lemma BothParts(s: seq<DecodedArg>, t: seq<DecodedArg>, u: seq<DecodedArg>, v: seq<DecodedArg>)
    requires |s| == |u|
    ensures s + t == u + v <==> s == u && t == v
  {
    assert (s + t)[..|s|] == s && (u + v)[..|s|] == u && (s + t)[|s|..] == t && (u + v)[|s|..] == v;
  }

  lemma StringsBlank(strings: seq<CString>)
    ensures Blanks(1 + |strings|) == AllDecoded([NullStr] + Strings(strings))
       <==> forall i | 0 <= i < |strings| :: !strings[i].ansi && strings[i].chars == []
  {
    var got, want := Blanks(1 + |strings|), AllDecoded([NullStr] + Strings(strings));
    if got == want {
      forall i | 0 <= i < |strings|
        ensures !strings[i].ansi && strings[i].chars == []
      {
        assert got[1 + i] == want[1 + i] == AsDecoded(Str(strings[i]));
      }
    }
  }

  lemma NumbersSame(q: seq<Qword>, values: seq<Qword>)
    requires |q| == |values|
    ensures AsNumbers(q) == AllDecoded(Values(values)) <==> q == values
  {
    if AsNumbers(q) == AllDecoded(Values(values)) {
      forall i | 0 <= i < |q|
        ensures q[i] == values[i]
      {
        assert AsNumbers(q)[i] == AllDecoded(Values(values))[i];
      }
    }
  }

  /** With only numbers behind the null, these are the ones that are all zero. */
  lemma {:induction false} ShiftedByOne(values: seq<Qword>)
    ensures |values| <= |ArgsWords(Values(values))|
    ensures ([0] + ArgsWords(Values(values)))[..|values|] == values <==> forall i | 0 <= i < |values| :: values[i] == 0
  {
    ValuesWords(values);
    if ([0] + values)[..|values|] == values {
      AllZero(values, |values|);
    }
  }

  lemma {:induction false} AllZero(values: seq<Qword>, n: nat)
    requires n <= |values| && ([0] + values)[..|values|] == values
    ensures forall i | 0 <= i < n :: values[i] == 0
  {
    if n > 0 {
      AllZero(values, n - 1);
      assert ([0] + values)[..|values|][n - 1] == values[n - 1];
    }
  }
}
