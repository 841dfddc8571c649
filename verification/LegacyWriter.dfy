// The legacy encoders, which describe one event to a graphics context in a
// buffer of 64 qwords.
module LegacyWriter {
  import opened Wrappers
  import opened Qwords
  import opened Memory
  import opened EventFormat
  import opened EventStrings
  import opened StringCopy
  import opened EventWriter
  import opened StringRoundTrip

  const GRAPHICS_RECORD_QWORDS: nat := 64
  const GRAPHICS_LIMIT: nat := GRAPHICS_RECORD_QWORDS - RESERVED_TAIL_QWORDS

  /** Which of the copy loops the build has: qword copies, and 16-byte copies besides. */
  datatype Build = Build(blockCopy: bool, wideCopy: bool)

  /** Bytes copied at a time from the string's address. */
  function ChunkSize(s: CString, build: Build): (r: nat)
    ensures r in {8, 16}
  {
    if build.blockCopy && build.wideCopy && s.address % 16 == 0 then 16 else 8
  }

  /** The qwords of a string's characters with `room` qwords left; 16-byte copies may take one more. */
  function LegacyChars(s: CString, build: Build, room: nat): (r: Words)
    ensures |r| <= room + 1 && (ChunkSize(s, build) == 8 ==> |r| <= room)
  {
    var c := Copied(s, build.blockCopy);
    var n := CopiedQwords(c, ChunkSize(s, build));
    var available := if ChunkSize(s, build) == 16 then 2 * ((room + 1) / 2) else room;
    c.Chunks(if n < available then n else available)
  }

  /** The qwords of one argument; the format string is encoded like any other. */
  function LegacyArg(a: Arg, build: Build, room: nat): (r: Words)
    ensures |r| <= room + 1
  {
    if room == 0 then []
    else
      match a
      case Value(q) => [q]
      case NullStr => [0]
      case Str(s) => [EncodeStringInfo(ChunkSize(s, build), s.ansi)] + LegacyChars(s, build, room - 1)
  }

  function LegacyArgs(args: seq<Arg>, build: Build, room: nat): (r: Words)
    ensures |r| <= room + 1
    decreases |args|
  {
    if args == [] then []
    else
      var w := LegacyArg(args[0], build, room);
      if |w| >= room then w else w + LegacyArgs(args[1..], build, room - |w|)
  }

  function FormatArg(f: Format): Arg {
    if f.Format? then Str(f.str) else NullStr
  }

  /** GpuBeginOnContext and GpuSetMarkerOnContext */
  function LegacyType(marker: bool, args: seq<Arg>): nat {
    if marker then if args == [] then LEGACY_MARKER_NOVARARGS else LEGACY_MARKER_VARARGS
    else if args == [] then LEGACY_BEGIN_NOVARARGS else LEGACY_BEGIN_VARARGS
  }

  /** What the encoders write, without the zero that follows; it stays inside the buffer. */
  function Blob(marker: bool, color: Qword, format: Format, args: seq<Arg>, build: Build): (r: Words)
    ensures |r| < GRAPHICS_RECORD_QWORDS
  {
    [EncodeLegacyEventInfo(0, LegacyType(marker, args)), color] + LegacyArgs([FormatArg(format)] + args, build, GRAPHICS_LIMIT - 2)
  }

  // The encoders

  /** `payload` was written at `d`, the cursor is now behind it, and nothing else changed. */
  ghost predicate Put(before: Words, after: Words, d: nat, payload: Words, d': nat) {
    && |after| == |before| && d' == d + |payload|
    && forall i | 0 <= i < |before| :: after[i] == if d <= i < d' then payload[i - d] else before[i]
  }

  lemma PutThen(m0: Words, m1: Words, m2: Words, d0: nat, d1: nat, d2: nat, p: Words, q: Words)
    requires Put(m0, m1, d0, p, d1) && Put(m1, m2, d1, q, d2)
    ensures Put(m0, m2, d0, p + q, d2)
  {
  }

  lemma EmittedIsPut(before: Words, after: Words, d: nat, limit: nat, s: CString, n: nat, d': nat)
    requires d <= limit && Emitted(before, after, d, limit, s.Chunks(n), d')
    ensures Put(before, after, d, s.Chunks(if n < limit - d then n else limit - d), d')
  {
  }

  lemma PutTwo(m0: Words, m: Words, m': Words, d0: nat, i: nat, s: CString)
    requires Put(m0, m, d0, s.Chunks(i), d0 + i) && d0 + i + 1 < |m|
    requires m' == m[d0 + i := s.Chunk(i)][d0 + i + 1 := s.Chunk(i + 1)]
    ensures Put(m0, m', d0, s.Chunks(i + 2), d0 + i + 2)
  {
    hide PackQword;
  }

  /** One of the two qwords holds the terminator exactly when they are the last two. */
  lemma TerminatedPair(s: CString, i: nat)
    requires s.Valid() && i < s.ChunkCount() && i % 2 == 0
    ensures IsTerminated(s.Chunk(i), s.ansi) || IsTerminated(s.Chunk(i + 1), s.ansi) ==> CopiedQwords(s, 16) == i + 2
    ensures !(IsTerminated(s.Chunk(i), s.ansi) || IsTerminated(s.Chunk(i + 1), s.ansi)) ==> i + 2 < s.ChunkCount()
    ensures CopiedQwords(s, 16) >= i + 2
  {
    hide IsTerminated, PackQword;
    TerminatedExact(s, i);
    if i + 1 < s.ChunkCount() {
      TerminatedExact(s, i + 1);
    }
  }

  /** The loops over 16 bytes at a time. */
  method CopyChars16(buffer: array<Qword>, destination: nat, limit: nat, s: CString) returns (d: nat)
    requires s.Valid() && destination <= limit < buffer.Length
    modifies buffer
    ensures var n, available := CopiedQwords(s, 16), 2 * ((limit - destination + 1) / 2);
            Put(old(buffer[..]), buffer[..], destination, s.Chunks(if n < available then n else available), d)
  {
    hide IsTerminated, PackQword, Put, CopiedQwords;
    d := destination;
    var i := 0;
    PutNothing(buffer[..], d, s);
    while d < limit
      invariant d == destination + i && i % 2 == 0 && i < s.ChunkCount() && i <= CopiedQwords(s, 16)
      invariant i > 0 ==> d <= limit + 1
      invariant Put(old(buffer[..]), buffer[..], destination, s.Chunks(i), d)
    {
      ghost var before := buffer[..];
      var q0, q1 := s.Chunk(i), s.Chunk(i + 1);
      buffer[d] := q0;
      buffer[d + 1] := q1;
      PutTwo(old(buffer[..]), before, buffer[..], destination, i, s);
      TerminatedPair(s, i);
      d := d + 2;
      i := i + 2;
      if IsTerminated(q0, s.ansi) || IsTerminated(q1, s.ansi) {
        break;
      }
    }
  }

  lemma PutNothing(m: Words, d: nat, s: CString)
    ensures Put(m, m, d, s.Chunks(0), d)
  {
  }

  /** What is copied, in which number of qwords, by each of the copies. */
  lemma CharsByCopy(s: CString, build: Build, room: nat)
    ensures ChunkSize(s, build) == 16 ==>
              var n, available := CopiedQwords(s, 16), 2 * ((room + 1) / 2);
              LegacyChars(s, build, room) == s.Chunks(if n < available then n else available)
    ensures ChunkSize(s, build) == 8 ==>
              var c := if build.blockCopy && s.address % 8 == 0 then s else s.Clean();
              LegacyChars(s, build, room) == c.Chunks(if c.ChunkCount() < room then c.ChunkCount() else room)
  {
    hide PackQword;
    assert s.address % 16 == 0 ==> s.address % 8 == 0;
  }

  method CopyLegacyChars(buffer: array<Qword>, destination: nat, limit: nat, s: CString, build: Build) returns (d: nat)
    requires s.Valid() && destination <= limit < buffer.Length
    modifies buffer
    ensures Put(old(buffer[..]), buffer[..], destination, LegacyChars(s, build, limit - destination), d)
  {
    hide Emitted, Put, LegacyChars, PackQword, CopiedQwords;
    CharsByCopy(s, build, limit - destination);
    ghost var before := buffer[..];
    if ChunkSize(s, build) == 16 {
      d := CopyChars16(buffer, destination, limit, s);
    } else if build.blockCopy && s.address % 8 == 0 {
      d := CopyEventStringArgumentFast(buffer, destination, limit, s);
      EmittedIsPut(before, buffer[..], destination, limit, s, s.ChunkCount(), d);
    } else {
      d := CopyEventStringArgumentSlow(buffer, destination, limit, s);
      EmittedIsPut(before, buffer[..], destination, limit, s.Clean(), s.Clean().ChunkCount(), d);
    }
  }

  /** PIXCopyEventArgument */
  method CopyLegacyArgument(buffer: array<Qword>, destination: nat, limit: nat, a: Arg, build: Build) returns (d: nat)
    requires ValidArg(a) && limit < buffer.Length
    modifies buffer
    ensures destination <= limit ==> Put(old(buffer[..]), buffer[..], destination, LegacyArg(a, build, limit - destination), d)
    ensures destination > limit ==> d == destination && buffer[..] == old(buffer[..])
  {
    hide EncodeStringInfo, LegacyChars;
    d := destination;
    if destination < limit {
      match a {
        case Value(q) =>
          buffer[d] := q;
          d := d + 1;
        case NullStr =>
          buffer[d] := 0;
          d := d + 1;
        case Str(s) =>
          ghost var before, header := buffer[..], [EncodeStringInfo(ChunkSize(s, build), s.ansi)];
          buffer[d] := EncodeStringInfo(ChunkSize(s, build), s.ansi);
          d := d + 1;
          ghost var middle := buffer[..];
          d := CopyLegacyChars(buffer, d, limit, s, build);
          PutThen(before, middle, buffer[..], destination, destination + 1, d, header, LegacyChars(s, build, limit - destination - 1));
      }
    }
  }

  /** PIXCopyEventArguments */
  method CopyLegacyArguments(buffer: array<Qword>, destination: nat, limit: nat, args: seq<Arg>, build: Build) returns (d: nat)
    requires (forall a <- args :: ValidArg(a)) && limit < buffer.Length
    modifies buffer
    ensures destination <= limit ==> Put(old(buffer[..]), buffer[..], destination, LegacyArgs(args, build, limit - destination), d)
    ensures destination > limit ==> d == destination && buffer[..] == old(buffer[..])
    decreases |args|
  {
    hide LegacyArg;
    d := destination;
    if args != [] {
      ghost var before := buffer[..];
      d := CopyLegacyArgument(buffer, d, limit, args[0], build);
      ghost var middle, d1 := buffer[..], d;
      d := CopyLegacyArguments(buffer, d, limit, args[1..], build);
      if d1 < limit {
        PutThen(before, middle, buffer[..], destination, d1, d, LegacyArg(args[0], build, limit - destination), LegacyArgs(args[1..], build, limit - d1));
      } else if d1 == limit {
        LegacyNoRoom(args[1..], build);
      }
    }
  }

  lemma {:induction false} LegacyNoRoom(args: seq<Arg>, build: Build)
    ensures LegacyArgs(args, build, 0) == []
  {
  }

  /** EncodeBeginEventForContext and EncodeSetMarkerForContext */
  method EncodeForContext(buffer: array<Qword>, marker: bool, color: Qword, format: Format, args: seq<Arg>, build: Build)
    returns (destination: nat)
    requires buffer.Length == GRAPHICS_RECORD_QWORDS && ValidArg(FormatArg(format)) && forall a <- args :: ValidArg(a)
    modifies buffer
    ensures var blob := Blob(marker, color, format, args, build);
            && destination == |blob| && buffer[..destination + 1] == blob + [0]
            && buffer[destination + 1..] == old(buffer[destination + 1..])
  {
    hide LegacyArgs, EncodeLegacyEventInfo;
    ghost var before := buffer[..];
    buffer[0] := EncodeLegacyEventInfo(0, LegacyType(marker, args));
    buffer[1] := color;
    ghost var middle := buffer[..];
    destination := CopyLegacyArguments(buffer, 2, GRAPHICS_LIMIT, [FormatArg(format)] + args, build);
    buffer[destination] := 0;
  }
}
