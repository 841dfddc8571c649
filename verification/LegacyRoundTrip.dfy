// Decoding what the legacy encoders wrote.
module LegacyRoundTrip {
  import opened Wrappers
  import opened Qwords
  import opened Memory
  import opened EventFormat
  import opened EventStrings
  import opened StringCopy
  import opened EventWriter
  import opened StringReading
  import opened EventReading
  import opened BlockParser
  import opened StringRoundTrip
  import opened ArgumentRoundTrip
  import opened EventRoundTrip
  import opened ReportedNames
  import opened LegacyWriter
  import opened PixEventDecoder

  function FullChars(s: CString, build: Build): Words {
    var c := Copied(s, build.blockCopy);
    c.Chunks(CopiedQwords(c, ChunkSize(s, build)))
  }

  /** An argument with as much room as it needs. */
  function FullArg(a: Arg, build: Build): Words {
    match a
    case Value(q) => [q]
    case NullStr => [0]
    case Str(s) => [EncodeStringInfo(ChunkSize(s, build), s.ansi)] + FullChars(s, build)
  }

  function FullArgs(args: seq<Arg>, build: Build): Words {
    if args == [] then [] else FullArg(args[0], build) + FullArgs(args[1..], build)
  }

  lemma ArgPrefix(a: Arg, build: Build, room: nat)
    ensures LegacyArg(a, build, room) <= FullArg(a, build)
    ensures |LegacyArg(a, build, room)| < room ==> LegacyArg(a, build, room) == FullArg(a, build)
  {
    hide PackQword, EncodeStringInfo;
  }

  /** What is written is what an unlimited buffer would hold, cut. */
  lemma {:induction false} ArgsPrefix(args: seq<Arg>, build: Build, room: nat)
    ensures LegacyArgs(args, build, room) <= FullArgs(args, build)
    decreases |args|
  {
    hide LegacyArg, FullArg;
    if args != [] {
      var w := LegacyArg(args[0], build, room);
      ArgPrefix(args[0], build, room);
      if |w| < room {
        ArgsPrefix(args[1..], build, room - |w|);
      }
    }
  }

  /** Nothing was cut. */
  predicate BlobUncut(format: Format, args: seq<Arg>, build: Build) {
    |LegacyArgs([FormatArg(format)] + args, build, GRAPHICS_LIMIT - 2)| == |FullArgs([FormatArg(format)] + args, build)|
  }

  predicate LegacyGood(a: Arg, build: Build) {
    a.Str? ==> GoodString(Copied(a.str, build.blockCopy))
  }

  lemma ReadLegacyString(s: CString, build: Build, mem: Words, p: nat, limit: int)
    requires LegacyGood(Str(s), build) && WordsLie(FullArg(Str(s), build), mem, p) && p + |FullArg(Str(s), build)| <= limit
    ensures var read := ReadStringSpec(mem, p, limit, None);
            && read.mem == mem && read.info.isAnsi == s.ansi && read.info.bytesUsed == 8 * |FullArg(Str(s), build)|
            && SavedText(read.info, read.mem) == s.chars && (s.ansi ==> read.info.length == |s.chars|)
  {
    hide CharsReadSpec, CStringAt, DecodeStringInfo, EncodeStringInfo, PackQword;
    var c, size := Copied(s, build.blockCopy), ChunkSize(s, build);
    var n := CopiedQwords(c, size);
    var header := [EncodeStringInfo(size, s.ansi)];
    WordsLieParts(header, c.Chunks(n), mem, p);
    assert mem[p + 0] == header[0];
    ChunksStored(c, mem, p + 1, n);
    StringInfoRoundTrip(size, s.ansi);
    ReadWhole(c, mem, p, p + 1, n, limit, size);
    assert LocateString(mem, p, limit, None) == Starts(s.ansi, size, 8 * (p + 1));
  }

  lemma ChunksStored(s: CString, mem: Words, p: nat, n: nat)
    requires WordsLie(s.Chunks(n), mem, p)
    ensures s.StoredAt(mem, p, n)
  {
    forall i | 0 <= i < n
      ensures mem[p + i] == s.Chunk(i)
    {
      assert s.Chunks(n)[i] == s.Chunk(i);
    }
  }

  lemma TakeLegacy(slot: Slot, arg: Arg, build: Build, a: ArgState, limit: int)
    requires LegacyGood(arg, build) && (if slot == NumberSlot then arg.Value? else arg.Str?)
    requires WordsLie(FullArg(arg, build), a.mem, a.source) && a.source + |FullArg(arg, build)| <= limit
    ensures TakeSlot(slot, a, limit)
         == ArgState(Push(a.args, AsDecoded(arg)), a.source + |FullArg(arg, build)|, a.bytesUsed + 8 * |FullArg(arg, build)|, a.mem)
  {
    hide FullChars, ReadStringSpec, SavedText, EncodeStringInfo;
    if slot == NumberSlot {
      assert FullArg(arg, build)[0] == arg.q;
      assert a.mem[a.source + 0] == arg.q;
    } else {
      ReadLegacyString(arg.str, build, a.mem, a.source, limit);
    }
  }

  lemma {:induction false} TakeLegacyAll(slots: seq<Slot>, args: seq<Arg>, build: Build, a: ArgState, limit: int)
    requires (forall x <- args :: LegacyGood(x, build)) && Agree(slots, args) && |slots| <= |args|
    requires WordsLie(FullArgs(args, build), a.mem, a.source) && a.source + |FullArgs(args, build)| <= limit
    ensures var r := TakeSlots(slots, a, limit);
            && r.args == PushAll(a.args, Expected(slots, args)) && r.mem == a.mem
            && a.bytesUsed <= r.bytesUsed <= a.bytesUsed + 8 * |FullArgs(args, build)|
    decreases |slots|
  {
    hide TakeSlot, WordsLie, FullArg, Push, LegacyGood;
    if slots != [] {
      var w := FullArg(args[0], build);
      WordsLieParts(w, FullArgs(args[1..], build), a.mem, a.source);
      assert if slots[0] == NumberSlot then args[0].Value? else args[0].Str?;
      assert LegacyGood(args[0], build);
      TakeLegacy(slots[0], args[0], build, a, limit);
      AgreeTail(slots, args);
      TakeLegacyAll(slots[1..], args[1..], build, TakeSlot(slots[0], a, limit), limit);
    }
  }

  /** The slots of the format string; a null one asks for nothing. */
  function FormatSlots(f: Format): seq<Slot>
    requires ValidArg(FormatArg(f))
  {
    Slots(FormatString(f).chars, 0, 0)
  }

  /** The kind a name of a null format string has is never looked at by the decoder. */
  function ReportedAnsi(f: Format): bool {
    f.Format? && f.str.ansi
  }

  function BlobName(f: Format, args: seq<Arg>): Name
    requires ValidArg(FormatArg(f))
  {
    if args == [] then Plain(ReportedAnsi(f), FormatString(f).chars)
    else Formatted(ReportedAnsi(f), FormatString(f).chars, PushAll([], Expected(FormatSlots(f), args)))
  }

  /** The strings spell no end marker and each specifier has its argument. */
  predicate BlobReadable(f: Format, args: seq<Arg>, build: Build) {
    && LegacyGood(FormatArg(f), build) && ValidArg(FormatArg(f)) && (forall a <- args :: LegacyGood(a, build))
    && Agree(FormatSlots(f), args) && |FormatSlots(f)| <= |args|
  }

  lemma BlobInfo(mem: Words, marker: bool, args: seq<Arg>)
    requires mem != [] && mem[0] == EncodeLegacyEventInfo(0, LegacyType(marker, args))
    ensures var info := DecodeEventInfo(Get(mem, 0));
            && info.size == 0 && info.legacyOp == LegacyType(marker, args) && info.op == (if marker then OP_MARKER else OP_BEGIN)
            && info.HasColor() && !info.OnContext() && (info.NoVarArgs() <==> args == [])
  {
    hide DecodeEventInfo;
    LegacyHeaderRoundTrip(0, LegacyType(marker, args));
  }

  /** The format string of a blob is read whole. */
  lemma ReadLegacyFormat(f: Format, build: Build, mem: Words, p: nat, limit: int)
    requires LegacyGood(FormatArg(f), build)
    requires WordsLie(FullArg(FormatArg(f), build), mem, p) && p + |FullArg(FormatArg(f), build)| <= limit
    ensures var read := ReadStringSpec(mem, p, limit, None);
            && read.mem == mem && read.info.isAnsi == ReportedAnsi(f)
            && (f.Format? ==> read.info.bytesUsed == 8 * |FullArg(FormatArg(f), build)|)
            && SavedText(read.info, read.mem) == FormatString(f).chars
            && (read.info.isAnsi ==> read.info.length == |FormatString(f).chars|)
  {
    hide CharsReadSpec, CStringAt, DecodeStringInfo, EncodeStringInfo, FullChars;
    if f.Format? {
      ReadLegacyString(f.str, build, mem, p, limit);
    } else {
      assert FullArg(NullStr, build) == [0];
      assert mem[p + 0] == [0][0];
    }
  }

  /**
   * Blob round trip: of a blob that was not cut the decoder returns the format
   * string, the arguments and the colour modulo 2^32, however its strings were
   * copied, for every limit that the blob does not exceed.
   */
  lemma BlobDecodes(marker: bool, color: Qword, f: Format, args: seq<Arg>, build: Build, mem: Words, limit: int)
    requires BlobUncut(f, args, build) && BlobReadable(f, args, build)
    requires WordsLie(Blob(marker, color, f, args, build), mem, 0) && |Blob(marker, color, f, args, build)| <= limit
    ensures DecodeBlob(mem, 0, limit) == BlobRead(Some(NameAndColor(Some(BlobName(f, args)), color % 0x1_0000_0000)), mem)
  {
    hide WordsLie, LegacyArgs, FullArgs, FullArg, EncodeLegacyEventInfo, DecodeEventInfo, ReadStringSpec, SavedText, PlainName,
         Agree, LegacyGood, Slots, Populate, PushAll, Expected, FormatString, FormatArg, LegacyType;
    var whole := [FormatArg(f)] + args;
    ArgsPrefix(whole, build, GRAPHICS_LIMIT - 2);
    assert LegacyArgs(whole, build, GRAPHICS_LIMIT - 2) == FullArgs(whole, build);
    BlobParts(EncodeLegacyEventInfo(0, LegacyType(marker, args)), color, f, args, build, mem);
    BlobInfo(mem, marker, args);
    ReadLegacyFormat(f, build, mem, 2, limit);
    if args == [] {
      PlainBlob(f, build, mem, 2, limit);
    } else {
      BlobArguments(f, args, build, mem, 2, limit);
    }
  }

  lemma PlainBlob(f: Format, build: Build, mem: Words, p: nat, limit: int)
    requires LegacyGood(FormatArg(f), build)
    requires WordsLie(FullArg(FormatArg(f), build), mem, p) && p + |FullArg(FormatArg(f), build)| <= limit
    ensures var read := ReadStringSpec(mem, p, limit, None);
            PlainName(read.info, read.mem) == Plain(ReportedAnsi(f), FormatString(f).chars)
  {
    hide ReadStringSpec, SavedText, FullArg, WordsLie;
    ReadLegacyFormat(f, build, mem, p, limit);
  }

  lemma BlobParts(header: Qword, color: Qword, f: Format, args: seq<Arg>, build: Build, mem: Words)
    requires WordsLie([header, color] + FullArgs([FormatArg(f)] + args, build), mem, 0)
    ensures |mem| >= 2 && mem[0] == header && mem[1] == color
    ensures WordsLie(FullArg(FormatArg(f), build), mem, 2)
    ensures WordsLie(FullArgs(args, build), mem, 2 + |FullArg(FormatArg(f), build)|)
    ensures |FullArgs([FormatArg(f)] + args, build)| == |FullArg(FormatArg(f), build)| + |FullArgs(args, build)|
  {
    hide FullArg, FormatArg;
    var w := [header, color];
    WordsLieParts(w, FullArgs([FormatArg(f)] + args, build), mem, 0);
    assert mem[0 + 0] == w[0] && mem[0 + 1] == w[1];
    assert ([FormatArg(f)] + args)[1..] == args;
    WordsLieParts(FullArg(FormatArg(f), build), FullArgs(args, build), mem, 2);
  }

  lemma BlobArguments(f: Format, args: seq<Arg>, build: Build, mem: Words, p: nat, limit: int)
    requires BlobReadable(f, args, build)
    requires WordsLie(FullArg(FormatArg(f), build), mem, p) && WordsLie(FullArgs(args, build), mem, p + |FullArg(FormatArg(f), build)|)
    requires p + |FullArg(FormatArg(f), build)| + |FullArgs(args, build)| <= limit
    ensures var read := ReadStringSpec(mem, p, limit, None);
            var a := Populate(FormatString(f).chars, 0, ArgState([], p + read.info.bytesUsed / 8, 0, mem), limit);
            && a.args == PushAll([], Expected(FormatSlots(f), args)) && a.mem == mem
            && a.bytesUsed <= 8 * |FullArgs(args, build)|
  {
    hide WordsLie, FullArg, ReadStringSpec, SavedText, Populate, Slots;
    ReadLegacyFormat(f, build, mem, p, limit);
    var read := ReadStringSpec(mem, p, limit, None);
    var start := ArgState([], p + read.info.bytesUsed / 8, 0, mem);
    PopulateIsSlots(FormatString(f).chars, 0, start, limit);
    if f.Format? {
      TakeLegacyAll(FormatSlots(f), args, build, start, limit);
    } else {
      NullAsksNothing(f);
      assert Expected(FormatSlots(f), args) == [];
    }
  }

  lemma NullAsksNothing(f: Format)
    requires f.NullFormat?
    ensures FormatSlots(f) == []
  {
  }

  /** Which blobs are decoded at all: begin and marker headers of either format. */
  lemma BlobAccepted(mem: Words, source: nat, limit: int)
    requires source < |mem|
    ensures var q := mem[source];
            (DecodeBlob(mem, source, limit).result.Some?
             <==> if q % 128 > 0 then (q / 0x80) % 32 in {1, 2}
                  else (q / 0x400) % 1024 in {0x001, 0x002, 0x007, 0x008, 0x011, 0x012, 0x017, 0x018})
  {
    hide ReadFormatted, ReadUnformatted;
  }

  /** A blob whose qwords fit into 62 is not cut. */
  lemma BlobFits(format: Format, args: seq<Arg>, build: Build)
    requires 2 + |FullArgs([FormatArg(format)] + args, build)| <= 62
    ensures BlobUncut(format, args, build)
  {
    ArgsFit([FormatArg(format)] + args, build, 60);
  }

  lemma {:induction false} ArgsFit(args: seq<Arg>, build: Build, room: nat)
    requires |FullArgs(args, build)| <= room
    ensures LegacyArgs(args, build, room) == FullArgs(args, build)
    decreases |args|
  {
    hide LegacyArg, FullArg;
    if args != [] {
      ArgFits(args[0], build, room);
      var w := FullArg(args[0], build);
      if |w| < room {
        ArgsFit(args[1..], build, room - |w|);
      } else {
        assert FullArgs(args[1..], build) == [];
      }
    }
  }

  lemma ArgFits(a: Arg, build: Build, room: nat)
    requires |FullArg(a, build)| <= room
    ensures LegacyArg(a, build, room) == FullArg(a, build) && FullArg(a, build) != []
  {
    hide PackQword, EncodeStringInfo;
  }

  /** An event of the current format that was not cut and has fewer than 127 qwords is decoded from a blob, too. */
  lemma CurrentBlobDecodes(e: Event, time: Qword, mem: Words, limit: int)
    requires e.Span? && Readable(e) && 1 + |Body(e)| < 127 && 1 + |Body(e)| <= limit
    requires mem != [] && mem[0] == Header(e, time, 1 + |Body(e)|) && WordsLie(Body(e), mem, 1)
    ensures DecodeBlob(mem, 0, limit)
         == BlobRead(Some(NameAndColor(Some(if e.args == [] then PlainOf(e) else FormattedOf(e)), ColorValue(e.color) % 0x1_0000_0000)), mem)
  {
    hide Body, EncodeEventInfo, DecodeEventInfo, ReadFormatted, WordsLie, Metadata, NameOf, Agree, FormattedOf, PlainOf, GoodFormat, EventSlots;
    HeaderRoundTrip(time, TypeCode(e), EventSize(1 + |Body(e)|), Metadata(e));
    var info := DecodeEventInfo(mem[0]);
    ReadFormattedStored(e, info, mem, 1, limit);
    NameBySize(e, info);
  }

  lemma NameBySize(e: Event, info: EventInfo)
    requires e.Span? && GoodFormat(e.format) && info.size as int == 1 + |Body(e)|
    ensures NameOf(e, info) == if e.args == [] then PlainOf(e) else FormattedOf(e)
  {
    hide Prefix, FormatWords, GoodFormat, Body;
    BodyLength(e);
    NoArgsWords(e.args);
  }

  /** Which copy a legacy string took can be told from its header: 16 bytes at a time only from addresses that are multiples of 16. */
  lemma ChunkSizeTold(s: CString, build: Build, room: nat)
    requires room > 0
    ensures LegacyArg(Str(s), build, room) != []
    ensures DecodeStringInfo(LegacyArg(Str(s), build, room)[0])
         == StringInfo(0, if build.blockCopy && build.wideCopy && s.address % 16 == 0 then 16 else 8, s.ansi, true)
  {
    hide DecodeStringInfo, EncodeStringInfo, LegacyChars;
    StringInfoRoundTrip(ChunkSize(s, build), s.ansi);
  }
}
