// Which arguments a format string asks for, and what it gets from the
// arguments a writer stored.
module ArgumentRoundTrip {
  import opened Wrappers
  import opened Qwords
  import opened Memory
  import opened EventFormat
  import opened EventStrings
  import opened EventWriter
  import opened StringReading
  import opened EventReading
  import opened StringRoundTrip

  datatype Slot = NumberSlot | TextSlot

  function SlotsOf(specifier: Specifier): seq<Slot> {
    match specifier
    case NonStringSpecifier => [NumberSlot]
    case StringSpecifier => [TextSlot]
    case StringSpecifierWithSize => [NumberSlot, TextSlot]
    case _ => []
  }

  function Capped(n: nat): nat {
    if n < MAX_ARGUMENTS then n else MAX_ARGUMENTS
  }

  /** The slots a format string asks for from character `symbol` on, when `count` of the sixteen are taken. */
  function Slots(format: seq<Char>, symbol: nat, count: nat): seq<Slot>
    requires (forall c <- format :: c != 0) && symbol <= |format|
    decreases |format| - symbol
  {
    if symbol == |format| || count >= MAX_ARGUMENTS then []
    else if format[symbol] != PERCENT then Slots(format, symbol + 1, count)
    else
      var d := DetectFrom(format, symbol, 1);
      var slots := SlotsOf(d.specifier);
      slots + Slots(format, symbol + d.advance, Capped(count + |slots|))
  }

  function TakeSlot(slot: Slot, a: ArgState, limit: int): (r: ArgState)
    ensures |r.mem| == |a.mem|
    ensures |a.args| <= MAX_ARGUMENTS ==> |r.args| == Capped(|a.args| + 1)
  {
    if slot == NumberSlot then TakeQword(a, limit) else TakeString(a, limit)
  }

  function TakeSlots(slots: seq<Slot>, a: ArgState, limit: int): ArgState
    decreases |slots|
  {
    if slots == [] then a else TakeSlots(slots[1..], TakeSlot(slots[0], a, limit), limit)
  }

  lemma {:induction false} TakeSlotsAppend(s: seq<Slot>, t: seq<Slot>, a: ArgState, limit: int)
    ensures TakeSlots(s + t, a, limit) == TakeSlots(t, TakeSlots(s, a, limit), limit)
    decreases |s|
  {
    if s == [] {
      assert s + t == t;
    } else {
      assert (s + t)[1..] == s[1..] + t;
      TakeSlotsAppend(s[1..], t, TakeSlot(s[0], a, limit), limit);
    }
  }

  lemma TakeForIsSlots(specifier: Specifier, a: ArgState, limit: int)
    requires |a.args| <= MAX_ARGUMENTS
    ensures TakeFor(specifier, a, limit) == TakeSlots(SlotsOf(specifier), a, limit)
    ensures |TakeFor(specifier, a, limit).args| == Capped(|a.args| + |SlotsOf(specifier)|)
  {
    hide TakeQword, TakeString;
    if specifier == StringSpecifierWithSize {
      assert SlotsOf(specifier)[1..] == [TextSlot] && [TextSlot][1..] == [];
    }
  }

  /** The argument loop takes exactly the slots of the format string. */
  lemma {:induction false} PopulateIsSlots(format: seq<Char>, symbol: nat, a: ArgState, limit: int)
    requires (forall c <- format :: c != 0) && symbol <= |format| && |a.args| <= MAX_ARGUMENTS
    ensures Populate(format, symbol, a, limit) == TakeSlots(Slots(format, symbol, |a.args|), a, limit)
    decreases |format| - symbol
  {
    hide TakeFor, TakeSlot, DetectFrom, SlotsOf;
    if symbol < |format| && |a.args| < MAX_ARGUMENTS {
      if format[symbol] != PERCENT {
        PopulateIsSlots(format, symbol + 1, a, limit);
      } else {
        var d := DetectFrom(format, symbol, 1);
        var a' := TakeFor(d.specifier, a, limit);
        TakeForIsSlots(d.specifier, a, limit);
        PopulateIsSlots(format, symbol + d.advance, a', limit);
        TakeSlotsAppend(SlotsOf(d.specifier), Slots(format, symbol + d.advance, |a'.args|), a, limit);
      }
    }
  }

  // Stored arguments

  function AsDecoded(a: Arg): DecodedArg {
    match a
    case Value(q) => Number(q)
    case Str(s) => Text(s.ansi, s.chars)
    case NullStr => Text(false, [])
  }

  function Blank(slot: Slot): DecodedArg {
    if slot == NumberSlot then Number(0) else Text(false, [])
  }

  /** What the slots should receive: the arguments in order, blanks when they run out. */
  function Expected(slots: seq<Slot>, args: seq<Arg>): (r: seq<DecodedArg>)
    ensures |r| == |slots|
  {
    if slots == [] then []
    else if args == [] then [Blank(slots[0])] + Expected(slots[1..], [])
    else [AsDecoded(args[0])] + Expected(slots[1..], args[1..])
  }

  /** Each argument that is asked for has the kind that the format string says. */
  predicate Agree(slots: seq<Slot>, args: seq<Arg>) {
    forall i | 0 <= i < |slots| && i < |args| :: if slots[i] == NumberSlot then args[i].Value? else args[i].Str?
  }

  function PushAll(args: seq<DecodedArg>, more: seq<DecodedArg>): seq<DecodedArg>
    decreases |more|
  {
    if more == [] then args else PushAll(Push(args, more[0]), more[1..])
  }

  predicate GoodString(s: CString) {
    s.Valid() && s.NoMarker()
  }

  predicate GoodArg(a: Arg) {
    a.Str? ==> GoodString(a.str)
  }

  ghost predicate WordsLie(w: Words, mem: Words, p: nat) {
    p + |w| <= |mem| && forall i | 0 <= i < |w| :: mem[p + i] == w[i]
  }

  lemma WordsLieParts(v: Words, w: Words, mem: Words, p: nat)
    requires WordsLie(v + w, mem, p)
    ensures WordsLie(v, mem, p) && WordsLie(w, mem, p + |v|)
  {
    forall i | 0 <= i < |v|
      ensures mem[p + i] == v[i]
    {
      assert (v + w)[i] == v[i];
    }
    forall i | 0 <= i < |w|
      ensures mem[p + |v| + i] == w[i]
    {
      assert (v + w)[|v| + i] == w[i] && mem[p + (|v| + i)] == (v + w)[|v| + i];
    }
  }

  /** Qwords of the arguments that the slots consume. */
  function Consumed(slots: seq<Slot>, args: seq<Arg>): nat {
    if slots == [] || args == [] then 0 else |ArgWords(args[0])| + Consumed(slots[1..], args[1..])
  }

  lemma TakeStored(slot: Slot, arg: Arg, a: ArgState, limit: int)
    requires GoodArg(arg) && (if slot == NumberSlot then arg.Value? else arg.Str?)
    requires WordsLie(ArgWords(arg), a.mem, a.source) && a.source + |ArgWords(arg)| <= limit
    ensures TakeSlot(slot, a, limit)
         == ArgState(Push(a.args, AsDecoded(arg)), a.source + |ArgWords(arg)|, a.bytesUsed + 8 * |ArgWords(arg)|, a.mem)
  {
    if slot == NumberSlot {
      assert ArgWords(arg)[0] == arg.q;
    } else {
      ReadStoredArg(arg.str, a.mem, a.source, limit);
    }
  }

  lemma StringLies(s: CString, mem: Words, p: nat)
    requires WordsLie(StringWords(s), mem, p)
    ensures s.StoredAt(mem, p, s.ChunkCount())
  {
    forall i | 0 <= i < s.ChunkCount()
      ensures mem[p + i] == s.Chunk(i)
    {
      assert StringWords(s)[i] == s.Chunk(i);
    }
  }

  lemma ReadStoredArg(s: CString, mem: Words, p: nat, limit: int)
    requires GoodString(s) && WordsLie(ArgWords(Str(s)), mem, p) && p + |ArgWords(Str(s))| <= limit
    ensures var read := ReadStringSpec(mem, p, limit, None);
            && read.mem == mem && read.info.isAnsi == s.ansi && read.info.bytesUsed == 8 * |ArgWords(Str(s))|
            && SavedText(read.info, read.mem) == s.chars
  {
    hide CharsReadSpec, CStringAt, DecodeStringInfo, EncodeStringInfo, PackQword;
    var n := s.ChunkCount();
    WordsLieParts([EncodeStringInfo(8, s.ansi)], StringWords(s), mem, p);
    assert [EncodeStringInfo(8, s.ansi)][0] == EncodeStringInfo(8, s.ansi);
    StringLies(s, mem, p + 1);
    StringInfoRoundTrip(8, s.ansi);
    ReadWhole(s, mem, p, p + 1, n, limit, 8);
    assert LocateString(mem, p, limit, None) == Starts(s.ansi, 8, 8 * (p + 1));
  }

  lemma TakeMissing(slot: Slot, a: ArgState, limit: int)
    requires a.source >= limit
    ensures TakeSlot(slot, a, limit) == a.(args := Push(a.args, Blank(slot)))
  {
  }

  /** Slots get the stored arguments; nothing in the block is changed. */
  lemma {:induction false} TakeStoredAll(slots: seq<Slot>, args: seq<Arg>, a: ArgState, limit: int)
    requires (forall x <- args :: GoodArg(x)) && Agree(slots, args)
    requires WordsLie(ArgsWords(args), a.mem, a.source) && a.source + |ArgsWords(args)| <= limit
    requires |slots| <= |args| || limit == a.source + |ArgsWords(args)|
    ensures TakeSlots(slots, a, limit)
         == ArgState(PushAll(a.args, Expected(slots, args)), a.source + Consumed(slots, args), a.bytesUsed + 8 * Consumed(slots, args), a.mem)
    decreases |slots|
  {
    hide TakeSlot, WordsLie, ArgWords, Push;
    if slots != [] {
      if args == [] {
        TakeMissing(slots[0], a, limit);
        assert Agree(slots[1..], []);
        TakeStoredAll(slots[1..], [], a.(args := Push(a.args, Blank(slots[0]))), limit);
      } else {
        var w := ArgWords(args[0]);
        WordsLieParts(w, ArgsWords(args[1..]), a.mem, a.source);
        assert if slots[0] == NumberSlot then args[0].Value? else args[0].Str?;
        TakeStored(slots[0], args[0], a, limit);
        AgreeTail(slots, args);
        TakeStoredAll(slots[1..], args[1..], TakeSlot(slots[0], a, limit), limit);
      }
    }
  }

  lemma AgreeTail(slots: seq<Slot>, args: seq<Arg>)
    requires slots != [] && args != [] && Agree(slots, args)
    ensures Agree(slots[1..], args[1..])
  {
    forall i | 0 <= i < |slots[1..]| && i < |args[1..]|
      ensures if slots[1..][i] == NumberSlot then args[1..][i].Value? else args[1..][i].Str?
    {
      assert if slots[i + 1] == NumberSlot then args[i + 1].Value? else args[i + 1].Str?;
    }
  }

  lemma {:induction false} ConsumedBound(slots: seq<Slot>, args: seq<Arg>)
    ensures Consumed(slots, args) <= |ArgsWords(args)|
    ensures |slots| >= |args| ==> Consumed(slots, args) == |ArgsWords(args)|
    decreases |slots|
  {
    if slots != [] && args != [] {
      ConsumedBound(slots[1..], args[1..]);
    }
  }

  /** Up to sixteen arguments are all kept. */
  lemma {:induction false} PushAllFits(args: seq<DecodedArg>, more: seq<DecodedArg>)
    requires |args| + |more| <= MAX_ARGUMENTS
    ensures PushAll(args, more) == args + more
    decreases |more|
  {
    if more == [] {
      assert args + more == args;
    } else {
      PushAllFits(Push(args, more[0]), more[1..]);
      assert args + more == args + [more[0]] + more[1..];
    }
  }
}
