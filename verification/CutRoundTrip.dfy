// Decoding the last event of a block when there was no room for all of it.
module CutRoundTrip {
  import opened Wrappers
  import opened Qwords
  import opened Memory
  import opened EventFormat
  import opened Timestamps
  import opened EventStrings
  import opened EventWriter
  import opened StringReading
  import opened EventReading
  import opened StringRoundTrip
  import opened ArgumentRoundTrip
  import opened EventRoundTrip

  // Strings

  /** What is left of a string of which `m` chunks were stored. */
  function Shorter(s: CString, m: nat): (r: CString)
    requires 0 < m && m * s.Lanes() <= |s.chars|
    ensures r.ansi == s.ansi && r.chars < s.chars && r.ChunkCount() == m
  {
    CString(s.ansi, s.chars[..m * s.Lanes() - 1], [], s.address)
  }

  lemma ShorterGood(s: CString, m: nat)
    requires 0 < m && m * s.Lanes() <= |s.chars| && s.Valid()
    ensures GoodString(Shorter(s, m))
  {
    hide PackQword;
    var r := Shorter(s, m);
    forall c | c in r.chars
      ensures c in s.chars
    {
    }
    NoMarkerExact(r);
    ShorterIsNoMarker(s, m);
  }

  lemma ShorterIsNoMarker(s: CString, m: nat)
    requires 0 < m && m * s.Lanes() <= |s.chars| && s.Valid() && Shorter(s, m).Valid()
    ensures !ReadsAsMarker(Shorter(s, m))
  {
    var r := Shorter(s, m);
    var k := m * s.Lanes() - 2;
    assert s.chars[k] in s.chars && r.MemChar(k) == s.chars[k];
    if s.ansi {
      AnsiChar(r, k);
      assert r.MemByte(8 * (m - 1) + 6) != MARKER_BYTES[6];
    } else {
      assert (8 * (m - 1) + 4) / 2 == k && (8 * (m - 1) + 5) / 2 == k;
      assert r.MemByte(8 * (m - 1) + 4) != MARKER_BYTES[4] || r.MemByte(8 * (m - 1) + 5) != MARKER_BYTES[5];
    }
  }

  lemma ShorterByte(s: CString, m: nat, b: nat)
    requires 0 < m && m * s.Lanes() <= |s.chars| && b < 8 * m
    ensures Shorter(s, m).MemByte(b) == if b < Memory.Span(s.ansi, m * s.Lanes() - 1) then s.MemByte(b) else 0
  {
  }

  /** The repaired qwords are those of the shorter string. */
  lemma RepairedIsShorter(s: CString, mem: Words, p: nat, m: nat)
    requires 0 < m && m * s.Lanes() <= |s.chars| && s.StoredAt(mem, p, m)
    ensures Shorter(s, m).StoredAt(Repaired(s, mem, p, m), p, m)
  {
    hide Repaired, PackQword;
    var r := Repaired(s, mem, p, m);
    RepairKeeps(s, mem, p, m);
    forall i | 0 <= i < m
      ensures r[p + i] == Shorter(s, m).Chunk(i)
    {
      forall j: nat | j < 8
        ensures Byte(r[p + i], j) == Byte(Shorter(s, m).Chunk(i), j)
      {
        RepairedByte(s, mem, p, m, 8 * i + j);
        ChunkByte(Shorter(s, m), i, j);
        assert (8 * p + (8 * i + j)) / 8 == p + i && (8 * p + (8 * i + j)) % 8 == j;
      }
      Pow256Of8();
      SameBytes(r[p + i], Shorter(s, m).Chunk(i), 8);
    }
  }

  lemma RepairedByte(s: CString, mem: Words, p: nat, m: nat, b: nat)
    requires 0 < m && m * s.Lanes() <= |s.chars| && s.StoredAt(mem, p, m) && b < 8 * m
    ensures ByteAt(Repaired(s, mem, p, m), 8 * p + b) == Shorter(s, m).MemByte(b)
  {
    hide ByteAt;
    StoreNulBytes(mem, LastChar(s, p, m), s.ansi, 8 * p + b);
    StoredByte(s, mem, p, m, b);
    ShorterByte(s, m, b);
  }

  // Arguments

  /** What is left of the arguments when `room` qwords of them were stored. */
  function CutArgs(args: seq<Arg>, room: nat): seq<Arg> {
    if args == [] || room == 0 then []
    else
      var n := |ArgWords(args[0])|;
      if n <= room then [args[0]] + CutArgs(args[1..], room - n)
      else if room == 1 then []
      else [Str(Shorter(args[0].str, room - 1))]
  }

  /** The room ends right behind a string argument's header, of which nothing is left then. */
  predicate Dangling(args: seq<Arg>, room: nat) {
    if args == [] || room == 0 then false
    else
      var n := |ArgWords(args[0])|;
      if n <= room then Dangling(args[1..], room - n) else room == 1
  }

  /**
   * What the slots receive when the arguments have run out: numbers read the
   * qwords `tail` that the decoder still allows them, and then zero; text slots
   * find no string in these and stay where they are.
   */
  function Beyond(slots: seq<Slot>, tail: Words): seq<DecodedArg> {
    if slots == [] then []
    else if slots[0] == TextSlot then [Blank(TextSlot)] + Beyond(slots[1..], tail)
    else if tail == [] then [Number(0)] + Beyond(slots[1..], [])
    else [Number(tail[0])] + Beyond(slots[1..], tail[1..])
  }

  /** How many of these qwords are read. */
  function BeyondTaken(slots: seq<Slot>, tail: Words): (n: nat)
    ensures n <= |tail|
    ensures (forall i | 0 <= i < |slots| :: slots[i] == TextSlot) ==> n == 0
    decreases |slots|
  {
    if slots == [] || tail == [] then 0
    else if slots[0] == TextSlot then BeyondTaken(slots[1..], tail)
    else 1 + BeyondTaken(slots[1..], tail[1..])
  }

  /**
   * What the slots receive from arguments of which `room` qwords were stored,
   * with `tail` behind them: nothing if the header tells where the event ends.
   */
  function CutExpected(slots: seq<Slot>, args: seq<Arg>, room: nat, tail: Words): seq<DecodedArg> {
    if slots == [] || args == [] || room == 0 then Beyond(slots, tail)
    else
      var n := |ArgWords(args[0])|;
      if n <= room then [AsDecoded(args[0])] + CutExpected(slots[1..], args[1..], room - n, tail)
      else if room == 1 then Beyond(slots, [EncodeStringInfo(8, args[0].str.ansi)] + tail)
      else [AsDecoded(Str(Shorter(args[0].str, room - 1)))] + Beyond(slots[1..], tail)
  }

  /** How many qwords the slots consume. */
  function CutTaken(slots: seq<Slot>, args: seq<Arg>, room: nat, tail: Words): (n: nat)
    ensures n <= room + |tail|
    decreases |args|
  {
    if slots == [] || args == [] || room == 0 then BeyondTaken(slots, tail)
    else
      var n := |ArgWords(args[0])|;
      if n <= room then n + CutTaken(slots[1..], args[1..], room - n, tail)
      else if room == 1 then BeyondTaken(slots, [EncodeStringInfo(8, args[0].str.ansi)] + tail)
      else room + BeyondTaken(slots[1..], tail)
  }

  /** The memory after the arguments that are asked for have been read. */
  function CutMemory(slots: seq<Slot>, args: seq<Arg>, mem: Words, p: nat, room: nat): (r: Words)
    decreases |args|
  {
    if slots == [] || args == [] || room == 0 then mem
    else
      var n := |ArgWords(args[0])|;
      if n <= room then CutMemory(slots[1..], args[1..], mem, p + n, room - n)
      else if room == 1 then mem
      else Repaired(args[0].str, mem, p + 1, room - 1)
  }

  predicate AsksNumberFrom(slots: seq<Slot>, n: nat) {
    exists i | n <= i < |slots| :: slots[i] == NumberSlot
  }

  /**
   * The decoder makes of cut arguments what it would make of `CutArgs`: whole
   * arguments, at most one shortened string, then blanks.  This holds if and
   * only if no number is asked for beyond them that could read a dangling string
   * header or what lies behind the event.
   */
  lemma {:induction false} CutExpectedExact(slots: seq<Slot>, args: seq<Arg>, room: nat, tail: Words)
    requires Agree(slots, args) && (tail != [] ==> tail[0] != 0)
    ensures CutExpected(slots, args, room, tail) == Expected(slots, CutArgs(args, room))
       <==> !((tail != [] || Dangling(args, room)) && AsksNumberFrom(slots, |CutArgs(args, room)|))
    decreases |args|
  {
    hide EncodeStringInfo, ArgWords, Shorter, AsksNumberFrom;
    if slots == [] || args == [] || room == 0 {
      BeyondExact(slots, tail);
      NoSlots(|CutArgs(args, room)|);
    } else {
      var n := |ArgWords(args[0])|;
      SuffixHasNumber(slots, 0);
      if n <= room {
        AgreeTail(slots, args);
        CutExpectedExact(slots[1..], args[1..], room - n, tail);
        SameTails(AsDecoded(args[0]), CutExpected(slots[1..], args[1..], room - n, tail), Expected(slots[1..], CutArgs(args[1..], room - n)));
        SuffixHasNumber(slots, |CutArgs(args[1..], room - n)|);
        assert CutArgs(args, room)[1..] == CutArgs(args[1..], room - n);
      } else if room == 1 {
        OnlyStringsAreLong(args[0]);
        StringInfoRoundTrip(8, args[0].str.ansi);
        BeyondExact(slots, [EncodeStringInfo(8, args[0].str.ansi)] + tail);
      } else {
        OnlyStringsAreLong(args[0]);
        CutStringExact(slots, args, room, tail);
      }
    }
  }

  lemma CutStringExact(slots: seq<Slot>, args: seq<Arg>, room: nat, tail: Words)
    requires slots != [] && args != [] && 1 < room < |ArgWords(args[0])| && (tail != [] ==> tail[0] != 0)
    ensures CutExpected(slots, args, room, tail) == Expected(slots, CutArgs(args, room))
       <==> !(tail != [] && AsksNumberFrom(slots, |CutArgs(args, room)|))
  {
    hide EncodeStringInfo, ArgWords, Shorter, AsksNumberFrom, Beyond;
    OnlyStringsAreLong(args[0]);
    StringRoom(args[0].str, room);
    var cut := Str(Shorter(args[0].str, room - 1));
    assert CutArgs(args, room) == [cut] && [cut][1..] == [];
    BeyondExact(slots[1..], tail);
    SameTails(AsDecoded(cut), Beyond(slots[1..], tail), Expected(slots[1..], []));
    SuffixHasNumber(slots, 0);
  }

  lemma OnlyStringsAreLong(a: Arg)
    ensures |ArgWords(a)| > 1 ==> a.Str?
  {
  }

  lemma SameTails(a: DecodedArg, s: seq<DecodedArg>, t: seq<DecodedArg>)
    ensures [a] + s == [a] + t <==> s == t
  {
    assert ([a] + s)[1..] == s && ([a] + t)[1..] == t;
  }

  lemma SuffixHasNumber(slots: seq<Slot>, n: nat)
    requires slots != []
    ensures AsksNumberFrom(slots, n + 1) <==> AsksNumberFrom(slots[1..], n)
    ensures AsksNumberFrom(slots, 0) <==> slots[0] == NumberSlot || AsksNumberFrom(slots[1..], 0)
  {
    if i :| n + 1 <= i < |slots| && slots[i] == NumberSlot {
      assert slots[1..][i - 1] == NumberSlot;
    }
    if i :| n <= i < |slots[1..]| && slots[1..][i] == NumberSlot {
      assert slots[i + 1] == NumberSlot;
    }
    if i :| 0 < i < |slots| && slots[i] == NumberSlot {
      assert slots[1..][i - 1] == NumberSlot;
    }
    if i :| 0 <= i < |slots[1..]| && slots[1..][i] == NumberSlot {
      assert slots[i + 1] == NumberSlot;
    }
  }

  lemma {:induction false} BeyondExact(slots: seq<Slot>, tail: Words)
    requires tail != [] ==> tail[0] != 0
    ensures Beyond(slots, tail) == Expected(slots, []) <==> tail == [] || !AsksNumberFrom(slots, 0)
    decreases |slots|
  {
    hide AsksNumberFrom;
    if slots == [] {
      NoSlots(0);
    } else {
      SuffixHasNumber(slots, 0);
      if slots[0] == NumberSlot && tail != [] {
        assert Beyond(slots, tail)[0] != Expected(slots, [])[0];
      } else {
        BeyondExact(slots[1..], tail);
        SameTails(Blank(slots[0]), Beyond(slots[1..], tail), Expected(slots[1..], []));
      }
    }
  }

  lemma NoSlots(n: nat)
    ensures !AsksNumberFrom([], n)
  {
  }

  // What lies behind the stored part of an event that was cut at the end of the block

  /** The event was cut at `e`; the decoder stops there or, if it does not know, at the end of the block. */
  predicate TailOk(mem: Words, e: nat, limit: int) {
    e < |mem| && mem[e] == BLOCK_END_MARKER && (limit == e || (limit == e + 2 && |mem| == e + 2))
  }

  /** The qwords behind the event that the decoder would read. */
  function Tail(mem: Words, e: nat, limit: int): Words
    requires TailOk(mem, e, limit)
  {
    mem[e..limit]
  }

  lemma MarkerIsNoHeader()
    ensures !DecodeStringInfo(BLOCK_END_MARKER).wellFormed && BLOCK_END_MARKER != 0
  {
  }

  /** No string argument begins there. */
  lemma NoStringInTail(mem: Words, e: nat, limit: int, q: nat)
    requires TailOk(mem, e, limit) && e <= q
    ensures LocateString(mem, q, limit, None) == NoString
  {
    hide DecodeStringInfo;
    MarkerIsNoHeader();
  }

  /** Nor behind a header that the end follows. */
  lemma NoStringAtHeader(mem: Words, e: nat, limit: int, q: nat)
    requires TailOk(mem, e, limit) && q + 1 == e
    ensures LocateString(mem, q, limit, None) == NoString
  {
    hide DecodeStringInfo;
  }

  lemma TakeNoString(a: ArgState, limit: int)
    requires LocateString(a.mem, a.source, limit, None) == NoString
    ensures TakeSlot(TextSlot, a, limit) == a.(args := Push(a.args, Blank(TextSlot)))
  {
  }

  lemma TakeTailNumber(a: ArgState, limit: int, tail: Words)
    requires limit == a.source + |tail| && WordsLie(tail, a.mem, a.source)
    ensures tail == [] ==> TakeSlot(NumberSlot, a, limit) == a.(args := Push(a.args, Number(0)))
    ensures tail != [] ==>
              && TakeSlot(NumberSlot, a, limit) == ArgState(Push(a.args, Number(tail[0])), a.source + 1, a.bytesUsed + 8, a.mem)
              && WordsLie(tail[1..], a.mem, a.source + 1)
  {
    hide TakeString;
    if tail != [] {
      assert a.mem[a.source + 0] == tail[0];
      assert [tail[0]] + tail[1..] == tail;
      WordsLieParts([tail[0]], tail[1..], a.mem, a.source);
    }
  }

  /** No string begins at any position from `p` on. */
  ghost predicate NoStrings(mem: Words, p: nat, limit: int) {
    forall q: nat | p <= q :: LocateString(mem, q, limit, None) == NoString
  }

  lemma {:induction false} TakeBeyond(slots: seq<Slot>, tail: Words, a: ArgState, limit: int)
    requires limit == a.source + |tail| && WordsLie(tail, a.mem, a.source) && NoStrings(a.mem, a.source, limit)
    ensures TakeSlots(slots, a, limit)
         == ArgState(PushAll(a.args, Beyond(slots, tail)), a.source + BeyondTaken(slots, tail), a.bytesUsed + 8 * BeyondTaken(slots, tail), a.mem)
    decreases |slots|
  {
    hide TakeSlot, Push, LocateString, WordsLie;
    if slots != [] {
      if slots[0] == TextSlot {
        TakeNoString(a, limit);
        TakeBeyond(slots[1..], tail, TakeSlot(TextSlot, a, limit), limit);
      } else {
        TakeTailNumber(a, limit, tail);
        TakeBeyond(slots[1..], if tail == [] then [] else tail[1..], TakeSlot(NumberSlot, a, limit), limit);
      }
    }
  }

  /** The first `room` qwords of `w` are stored at `p`, then comes the end marker. */
  ghost predicate CutLies(w: Words, mem: Words, p: nat, room: nat) {
    room < |w| && WordsLie(w[..room], mem, p) && p + room < |mem| && mem[p + room] == BLOCK_END_MARKER
  }

  lemma CutLiesParts(v: Words, w: Words, mem: Words, p: nat, room: nat)
    requires CutLies(v + w, mem, p, room)
    ensures |v| <= room ==> WordsLie(v, mem, p) && CutLies(w, mem, p + |v|, room - |v|)
    ensures |v| > room ==> CutLies(v, mem, p, room)
  {
    if |v| <= room {
      assert (v + w)[..room] == v + w[..room - |v|];
      WordsLieParts(v, w[..room - |v|], mem, p);
    } else {
      assert (v + w)[..room] == v[..room];
    }
  }

  lemma CutLiesBound(w: Words, mem: Words, p: nat, room: nat)
    requires CutLies(w, mem, p, room)
    ensures w != [] && room < |w| && p + room < |mem| && mem[p + room] == BLOCK_END_MARKER
  {
  }

  /** A string of which only `m` chunks were stored. */
  lemma CutStringLies(s: CString, mem: Words, p: nat, m: nat, limit: int)
    requires GoodString(s) && CutLies(StringWords(s), mem, p, m) && 0 < m && p + m <= limit
    ensures CutShort(s, mem, p, m, limit)
  {
    hide ByteAt;
    forall i | 0 <= i < m
      ensures mem[p + i] == s.Chunk(i)
    {
      assert StringWords(s)[..m][i] == s.Chunk(i);
    }
    MarkerIsEnd(mem, p + m, limit);
    assert m <= s.ChunkCount() - 1;
    FullChunks(s, m);
  }

  lemma FullChunks(s: CString, m: nat)
    requires m <= s.ChunkCount() - 1
    ensures m * s.Lanes() <= |s.chars|
  {
  }

  lemma CutShortRoom(s: CString, mem: Words, p: nat, m: nat, limit: int)
    requires CutShort(s, mem, p, m, limit)
    ensures m * s.Lanes() <= |s.chars|
  {
  }

  lemma CutStringShort(s: CString, mem: Words, p: nat, limit: int, room: nat)
    requires GoodString(s) && CutLies(ArgWords(Str(s)), mem, p, room) && room > 1 && p + room <= limit
    ensures p < |mem| && mem[p] == EncodeStringInfo(8, s.ansi) && CutShort(s, mem, p + 1, room - 1, limit)
  {
    hide EncodeStringInfo, StringWords, CutShort;
    var header := [EncodeStringInfo(8, s.ansi)];
    CutLiesParts(header, StringWords(s), mem, p, room);
    assert mem[p + 0] == header[0];
    CutStringLies(s, mem, p + 1, room - 1, limit);
  }

  lemma CutStringStarts(s: CString, mem: Words, p: nat, limit: int, m: nat)
    requires p < |mem| && p < limit && mem[p] == EncodeStringInfo(8, s.ansi) && CutShort(s, mem, p + 1, m, limit)
    ensures LocateString(mem, p, limit, None) == Starts(s.ansi, 8, 8 * (p + 1))
  {
    hide DecodeStringInfo, EncodeStringInfo, CutShort, AtEnd, CharsReadSpec, Repaired, SavedText;
    StringInfoRoundTrip(8, s.ansi);
    CutShortRoom(s, mem, p + 1, m, limit);
    ReadCut(s, mem, p, p + 1, m, limit);
    assert 8 * (p + 1) / 8 == p + 1;
  }

  lemma CutStringRead(s: CString, mem: Words, p: nat, limit: int, room: nat)
    requires GoodString(s) && CutLies(ArgWords(Str(s)), mem, p, room) && room > 1 && p + room <= limit
    ensures (room - 1) * s.Lanes() <= |s.chars|
    ensures var read := ReadStringSpec(mem, p, limit, None);
            && read.mem == Repaired(s, mem, p + 1, room - 1) && read.info.isAnsi == s.ansi && read.info.bytesUsed == 8 * room
            && SavedText(read.info, read.mem) == Shorter(s, room - 1).chars
  {
    hide CharsReadSpec, LocateString, Repaired, SavedText, CutShort, CutLies, GoodString;
    CutStringShort(s, mem, p, limit, room);
    CutStringStarts(s, mem, p, limit, room - 1);
    CutShortRoom(s, mem, p + 1, room - 1, limit);
    ReadCut(s, mem, p, p + 1, room - 1, limit);
  }

  lemma TakeCutString(s: CString, a: ArgState, limit: int, room: nat)
    requires GoodString(s) && CutLies(ArgWords(Str(s)), a.mem, a.source, room) && room > 1 && a.source + room <= limit
    ensures (room - 1) * s.Lanes() <= |s.chars|
    ensures TakeSlot(TextSlot, a, limit)
         == ArgState(Push(a.args, AsDecoded(Str(Shorter(s, room - 1)))), a.source + room, a.bytesUsed + 8 * room,
                     Repaired(s, a.mem, a.source + 1, room - 1))
  {
    hide ReadStringSpec, Repaired, SavedText, CutLies, ArgWords, GoodString, Push;
    CutStringRead(s, a.mem, a.source, limit, room);
  }

  /** Slots that come when all that was stored has been consumed. */
  lemma TakeTail(slots: seq<Slot>, a: ArgState, limit: int)
    requires TailOk(a.mem, a.source, limit)
    ensures var tail := Tail(a.mem, a.source, limit);
            (TakeSlots(slots, a, limit)
             == ArgState(PushAll(a.args, Beyond(slots, tail)), a.source + BeyondTaken(slots, tail), a.bytesUsed + 8 * BeyondTaken(slots, tail), a.mem))
  {
    hide LocateString;
    var tail := Tail(a.mem, a.source, limit);
    forall q: nat | a.source <= q
      ensures LocateString(a.mem, q, limit, None) == NoString
    {
      NoStringInTail(a.mem, a.source, limit, q);
    }
    TakeBeyond(slots, tail, a, limit);
  }

  /** Slots that come when only a string's header is left. */
  lemma TakeHeader(slots: seq<Slot>, a: ArgState, limit: int)
    requires TailOk(a.mem, a.source + 1, limit)
    ensures var tail := [a.mem[a.source]] + Tail(a.mem, a.source + 1, limit);
            (TakeSlots(slots, a, limit)
             == ArgState(PushAll(a.args, Beyond(slots, tail)), a.source + BeyondTaken(slots, tail), a.bytesUsed + 8 * BeyondTaken(slots, tail), a.mem))
  {
    hide LocateString;
    var tail := [a.mem[a.source]] + Tail(a.mem, a.source + 1, limit);
    forall q: nat | a.source <= q
      ensures LocateString(a.mem, q, limit, None) == NoString
    {
      if q == a.source {
        NoStringAtHeader(a.mem, a.source + 1, limit, q);
      } else {
        NoStringInTail(a.mem, a.source + 1, limit, q);
      }
    }
    TakeBeyond(slots, tail, a, limit);
  }

  /** Reading cut arguments gives exactly `CutExpected`. */
  lemma {:induction false} TakeCut(slots: seq<Slot>, args: seq<Arg>, a: ArgState, limit: int, room: nat)
    requires (forall x <- args :: GoodArg(x)) && Agree(slots, args)
    requires CutLies(ArgsWords(args), a.mem, a.source, room) && TailOk(a.mem, a.source + room, limit)
    ensures var tail := Tail(a.mem, a.source + room, limit);
            var n := CutTaken(slots, args, room, tail);
            (TakeSlots(slots, a, limit)
             == ArgState(PushAll(a.args, CutExpected(slots, args, room, tail)), a.source + n, a.bytesUsed + 8 * n,
                         CutMemory(slots, args, a.mem, a.source, room)))
    decreases |slots|
  {
    hide TakeSlot, CutLies, ArgWords, Push, PushAll, EncodeStringInfo, Repaired, Shorter, Beyond, TailOk, CutExpected, CutTaken, CutMemory;
    CutLiesBound(ArgsWords(args), a.mem, a.source, room);
    if slots == [] || room == 0 {
      NothingTaken(slots, a, limit, room);
      NothingLeft(slots, args, a.mem, a.source, room, Tail(a.mem, a.source + room, limit));
    } else {
      var w := ArgWords(args[0]);
      CutLiesParts(w, ArgsWords(args[1..]), a.mem, a.source, room);
      assert (if slots[0] == NumberSlot then args[0].Value? else args[0].Str?) && GoodArg(args[0]);
      if |w| <= room {
        TailLimit(a.mem, a.source + room, limit);
        TakeStored(slots[0], args[0], a, limit);
        AgreeTail(slots, args);
        TakeCut(slots[1..], args[1..], TakeSlot(slots[0], a, limit), limit, room - |w|);
        WholeFirst(slots, args, a.mem, a.source, room, Tail(a.mem, a.source + room, limit));
        PushFirst(a.args, AsDecoded(args[0]), CutExpected(slots[1..], args[1..], room - |w|, Tail(a.mem, a.source + room, limit)));
      } else {
        TakeCutFirst(slots, args, a, limit, room, Tail(a.mem, a.source + room, limit));
      }
    }
  }

  lemma WholeFirst(slots: seq<Slot>, args: seq<Arg>, mem: Words, p: nat, room: nat, tail: Words)
    requires slots != [] && args != [] && room != 0 && |ArgWords(args[0])| <= room
    ensures var n := |ArgWords(args[0])|;
            && CutExpected(slots, args, room, tail) == [AsDecoded(args[0])] + CutExpected(slots[1..], args[1..], room - n, tail)
            && CutTaken(slots, args, room, tail) == n + CutTaken(slots[1..], args[1..], room - n, tail)
            && CutMemory(slots, args, mem, p, room) == CutMemory(slots[1..], args[1..], mem, p + n, room - n)
  {
    hide ArgWords, Shorter;
  }

  lemma NothingLeft(slots: seq<Slot>, args: seq<Arg>, mem: Words, p: nat, room: nat, tail: Words)
    requires slots == [] || args == [] || room == 0
    ensures CutExpected(slots, args, room, tail) == Beyond(slots, tail) && CutTaken(slots, args, room, tail) == BeyondTaken(slots, tail)
    ensures CutMemory(slots, args, mem, p, room) == mem
  {
  }

  lemma PushFirst(args: seq<DecodedArg>, a: DecodedArg, more: seq<DecodedArg>)
    ensures PushAll(args, [a] + more) == PushAll(Push(args, a), more)
  {
    assert ([a] + more)[1..] == more;
  }

  lemma TailLimit(mem: Words, e: nat, limit: int)
    requires TailOk(mem, e, limit)
    ensures e <= limit
  {
  }

  lemma NothingTaken(slots: seq<Slot>, a: ArgState, limit: int, room: nat)
    requires TailOk(a.mem, a.source + room, limit) && (slots == [] || room == 0)
    ensures var tail := Tail(a.mem, a.source + room, limit);
            (TakeSlots(slots, a, limit)
             == ArgState(PushAll(a.args, Beyond(slots, tail)), a.source + BeyondTaken(slots, tail), a.bytesUsed + 8 * BeyondTaken(slots, tail), a.mem))
  {
    hide TakeSlot, Push;
    if slots != [] {
      TakeTail(slots, a, limit);
    }
  }

  /** The first argument is the cut one. */
  lemma TakeCutFirst(slots: seq<Slot>, args: seq<Arg>, a: ArgState, limit: int, room: nat, tail: Words)
    requires slots != [] && args != [] && GoodArg(args[0]) && (args[0].Str? ==> slots[0] == TextSlot)
    requires 0 < room < |ArgWords(args[0])| && CutLies(ArgWords(args[0]), a.mem, a.source, room)
    requires TailOk(a.mem, a.source + room, limit) && tail == Tail(a.mem, a.source + room, limit)
    ensures var n := CutTaken(slots, args, room, tail);
            (TakeSlots(slots, a, limit)
             == ArgState(PushAll(a.args, CutExpected(slots, args, room, tail)), a.source + n, a.bytesUsed + 8 * n,
                         CutMemory(slots, args, a.mem, a.source, room)))
  {
    hide TakeSlot, CutLies, ArgWords, Push, PushAll, EncodeStringInfo, Repaired, Shorter, Beyond, BeyondTaken, TailOk, CutExpected, CutTaken, CutMemory;
    CutHead(args[0], a.mem, a.source, room);
    CutFirst(slots, args, a.mem, a.source, room, tail);
    TailLimit(a.mem, a.source + room, limit);
    CutLiesBound(ArgWords(args[0]), a.mem, a.source, room);
    if room == 1 {
      TakeHeader(slots, a, limit);
      assert a.mem[a.source] == EncodeStringInfo(8, args[0].str.ansi);
    } else {
      assert slots[0] == TextSlot;
      TakeCutString(args[0].str, a, limit, room);
      var b := TakeSlot(TextSlot, a, limit);
      CutTail(args[0].str, a.mem, a.source, room, limit);
      TakeTail(slots[1..], b, limit);
      PushFirst(a.args, AsDecoded(Str(Shorter(args[0].str, room - 1))), Beyond(slots[1..], tail));
    }
  }

  lemma CutFirst(slots: seq<Slot>, args: seq<Arg>, mem: Words, p: nat, room: nat, tail: Words)
    requires slots != [] && args != [] && 0 < room < |ArgWords(args[0])| && args[0].Str?
    ensures room > 1 ==> (room - 1) * args[0].str.Lanes() <= |args[0].str.chars|
    ensures room == 1 ==>
              var header := EncodeStringInfo(8, args[0].str.ansi);
              && CutExpected(slots, args, room, tail) == Beyond(slots, [header] + tail)
              && CutTaken(slots, args, room, tail) == BeyondTaken(slots, [header] + tail)
              && CutMemory(slots, args, mem, p, room) == mem
    ensures room > 1 ==>
              && CutExpected(slots, args, room, tail) == [AsDecoded(Str(Shorter(args[0].str, room - 1)))] + Beyond(slots[1..], tail)
              && CutTaken(slots, args, room, tail) == room + BeyondTaken(slots[1..], tail)
              && CutMemory(slots, args, mem, p, room) == Repaired(args[0].str, mem, p + 1, room - 1)
  {
    hide ArgWords, Beyond, BeyondTaken, EncodeStringInfo, Repaired;
    if room > 1 {
      StringRoom(args[0].str, room);
    }
  }

  /** The repair leaves what lies behind the event alone. */
  lemma CutTail(s: CString, mem: Words, p: nat, room: nat, limit: int)
    requires room > 1 && TailOk(mem, p + room, limit)
    ensures var r := Repaired(s, mem, p + 1, room - 1);
            TailOk(r, p + room, limit) && Tail(r, p + room, limit) == Tail(mem, p + room, limit)
  {
    hide Repaired;
    RepairKeeps(s, mem, p + 1, room - 1);
  }

  lemma CutHead(arg: Arg, mem: Words, p: nat, room: nat)
    requires CutLies(ArgWords(arg), mem, p, room) && 0 < room
    ensures arg.Str? && Get(mem, p) == EncodeStringInfo(8, arg.str.ansi)
  {
    hide EncodeStringInfo, StringWords;
    assert arg.Str?;
    assert mem[p + 0] == ArgWords(arg)[..room][0];
  }

  lemma {:induction false} CutArgsGood(slots: seq<Slot>, args: seq<Arg>, room: nat)
    requires (forall x <- args :: GoodArg(x)) && Agree(slots, args)
    ensures (forall x <- CutArgs(args, room) :: GoodArg(x)) && Agree(slots, CutArgs(args, room))
    decreases |args|
  {
    hide ArgWords, Shorter, PackQword;
    if args != [] && room != 0 {
      var n := |ArgWords(args[0])|;
      assert GoodArg(args[0]);
      if n <= room {
        var rest := if slots == [] then [] else slots[1..];
        if slots != [] {
          AgreeTail(slots, args);
        }
        CutArgsGood(rest, args[1..], room - n);
      } else if room > 1 {
        OnlyStringsAreLong(args[0]);
        StringRoom(args[0].str, room);
        ShorterGood(args[0].str, room - 1);
      }
    }
  }

  lemma StringRoom(s: CString, room: nat)
    requires 1 < room < |ArgWords(Str(s))|
    ensures (room - 1) * s.Lanes() <= |s.chars|
  {
    FullChunks(s, room - 1);
  }

  /** Which arguments survive: whole ones from the front, and perhaps a proper prefix of one string. */
  lemma {:induction false} CutArgsPrefix(args: seq<Arg>, room: nat)
    requires room < |ArgsWords(args)|
    ensures |CutArgs(args, room)| <= |args|
    ensures forall i | 0 <= i < |CutArgs(args, room)| ::
              CutArgs(args, room)[i] == args[i]
              || (i == |CutArgs(args, room)| - 1 && args[i].Str? && CutArgs(args, room)[i].Str?
                  && CutArgs(args, room)[i].str.chars < args[i].str.chars)
    ensures !Dangling(args, room) <==> |ArgsWords(CutArgs(args, room))| == room
    decreases |args|
  {
    hide ArgWords, PackQword;
    if args != [] && room != 0 {
      var n := |ArgWords(args[0])|;
      if n <= room {
        CutArgsPrefix(args[1..], room - n);
      } else {
        OnlyStringsAreLong(args[0]);
        if room > 1 {
          ShorterLength(args[0].str, room);
        }
      }
    }
  }

  lemma ShorterLength(s: CString, room: nat)
    requires 1 < room < |ArgWords(Str(s))|
    ensures |ArgsWords([Str(Shorter(s, room - 1))])| == room
  {
    OneArg(Str(Shorter(s, room - 1)));
  }

  /** Only the last stored qword can change, and then the memory holds the arguments that are left. */
  lemma {:induction false} CutMemoryHolds(slots: seq<Slot>, args: seq<Arg>, mem: Words, p: nat, room: nat)
    requires (forall x <- args :: GoodArg(x)) && CutLies(ArgsWords(args), mem, p, room)
    ensures var r := CutMemory(slots, args, mem, p, room);
            && |r| == |mem| && (forall i | 0 <= i < |mem| && i != p + room - 1 :: r[i] == mem[i])
            && (r == mem || (room > 0 && !Dangling(args, room) && WordsLie(ArgsWords(CutArgs(args, room)), r, p)))
    decreases |args|
  {
    hide ArgWords, CutLies, Repaired, Shorter, WordsLie;
    CutLiesBound(ArgsWords(args), mem, p, room);
    if slots != [] && room != 0 {
      var w := ArgWords(args[0]);
      CutLiesParts(w, ArgsWords(args[1..]), mem, p, room);
      assert GoodArg(args[0]);
      if |w| <= room {
        CutMemoryHolds(slots[1..], args[1..], mem, p + |w|, room - |w|);
        var r := CutMemory(slots, args, mem, p, room);
        if r != mem {
          LiesElsewhere(w, mem, r, p, p + room - 1);
          LiesJoined(w, ArgsWords(CutArgs(args[1..], room - |w|)), r, p);
          assert CutArgs(args, room)[1..] == CutArgs(args[1..], room - |w|);
        }
      } else if room > 1 {
        OnlyStringsAreLong(args[0]);
        RepairedArg(args[0].str, mem, p, room);
        OneArg(Str(Shorter(args[0].str, room - 1)));
      }
    }
  }

  lemma OneArg(a: Arg)
    ensures ArgsWords([a]) == ArgWords(a)
  {
    assert ArgWords(a) + ArgsWords([]) == ArgWords(a);
  }

  lemma LiesElsewhere(w: Words, mem: Words, r: Words, p: nat, q: nat)
    requires WordsLie(w, mem, p) && |r| == |mem| && (forall i | 0 <= i < |mem| && i != q :: r[i] == mem[i]) && p + |w| <= q
    ensures WordsLie(w, r, p)
  {
  }

  lemma LiesJoined(v: Words, w: Words, mem: Words, p: nat)
    requires WordsLie(v, mem, p) && WordsLie(w, mem, p + |v|)
    ensures WordsLie(v + w, mem, p)
  {
    forall i | 0 <= i < |v + w|
      ensures mem[p + i] == (v + w)[i]
    {
      if i >= |v| {
        assert mem[p + |v| + (i - |v|)] == w[i - |v|];
      }
    }
  }

  lemma RepairedArg(s: CString, mem: Words, p: nat, room: nat)
    requires GoodString(s) && CutLies(ArgWords(Str(s)), mem, p, room) && room > 1
    ensures (room - 1) * s.Lanes() <= |s.chars|
    ensures var r := Repaired(s, mem, p + 1, room - 1);
            && |r| == |mem| && (forall i | 0 <= i < |mem| && i != p + room - 1 :: r[i] == mem[i])
            && WordsLie(ArgWords(Str(Shorter(s, room - 1))), r, p)
  {
    hide EncodeStringInfo, Repaired, Shorter, WordsLie, CutLies, PackQword, StringWords;
    var header := [EncodeStringInfo(8, s.ansi)];
    CutLiesParts(header, StringWords(s), mem, p, room);
    CutLiesBound(StringWords(s), mem, p + 1, room - 1);
    StringRoom(s, room);
    CutChunks(s, mem, p + 1, room - 1);
    RepairKeeps(s, mem, p + 1, room - 1);
    RepairedIsShorter(s, mem, p + 1, room - 1);
    ShorterWords(s, Repaired(s, mem, p + 1, room - 1), p + 1, room - 1);
    var r := Repaired(s, mem, p + 1, room - 1);
    LiesElsewhere(header, mem, r, p, p + room - 1);
    LiesJoined(header, StringWords(Shorter(s, room - 1)), r, p);
    ShorterKind(s, room - 1);
  }

  lemma ShorterKind(s: CString, m: nat)
    requires 0 < m && m * s.Lanes() <= |s.chars|
    ensures Shorter(s, m).ansi == s.ansi
  {
  }

  lemma ShorterWords(s: CString, mem: Words, p: nat, m: nat)
    requires 0 < m && m * s.Lanes() <= |s.chars| && Shorter(s, m).StoredAt(mem, p, m)
    ensures WordsLie(StringWords(Shorter(s, m)), mem, p)
  {
  }

  lemma CutChunks(s: CString, mem: Words, p: nat, m: nat)
    requires CutLies(StringWords(s), mem, p, m)
    ensures s.StoredAt(mem, p, m)
  {
    forall i | 0 <= i < m
      ensures mem[p + i] == s.Chunk(i)
    {
      assert StringWords(s)[..m][i] == s.Chunk(i);
    }
  }

  /** Arguments that fill the room exactly, and one more of which nothing is stored. */
  lemma {:induction false} Filled(slots: seq<Slot>, args: seq<Arg>, more: Arg, mem: Words, p: nat, room: nat)
    requires |ArgsWords(args)| == room
    ensures CutArgs(args + [more], room) == args && CutMemory(slots, args + [more], mem, p, room) == mem
    decreases |args|
  {
    hide ArgWords;
    if args != [] {
      var n := |ArgWords(args[0])|;
      assert (args + [more])[1..] == args[1..] + [more];
      SomeWords(args[0]);
      Filled(if slots == [] then [] else slots[1..], args[1..], more, mem, p + n, room - n);
    }
  }

  lemma SomeWords(a: Arg)
    ensures |ArgWords(a)| > 0
  {
  }

  /** What is left of cut arguments reads, with nothing stored behind it, as they do. */
  lemma {:induction false} SameExpected(slots: seq<Slot>, args: seq<Arg>, more: Arg, room: nat, tail: Words)
    requires |ArgsWords(CutArgs(args, room))| == room
    ensures CutExpected(slots, CutArgs(args, room) + [more], room, tail) == CutExpected(slots, args, room, tail)
    ensures CutTaken(slots, CutArgs(args, room) + [more], room, tail) == CutTaken(slots, args, room, tail)
    decreases |args|
  {
    hide ArgWords, Beyond, BeyondTaken, EncodeStringInfo, Shorter;
    var cut := CutArgs(args, room);
    if slots != [] && args != [] && room != 0 {
      var n := |ArgWords(args[0])|;
      assert cut != [];
      assert (cut + [more])[1..] == cut[1..] + [more];
      SomeWords(args[0]);
      if n <= room {
        assert cut[1..] == CutArgs(args[1..], room - n);
        SameExpected(slots[1..], args[1..], more, room - n, tail);
      } else {
        OneArg(cut[0]);
        assert cut == [cut[0]] && cut[1..] == [];
      }
    }
  }
}
