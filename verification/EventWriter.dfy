// What the recording calls put into a block.
module EventWriter {
  import opened Wrappers
  import opened Qwords
  import opened Memory
  import opened EventFormat
  import opened EventStrings
  import opened StringCopy

  // A block is 16 KB; its header takes six of the 2048 qwords.
  const BLOCK_QWORDS: nat := 2048
  const HEADER_QWORDS: nat := 6
  const DATA_QWORDS: nat := BLOCK_QWORDS - HEADER_QWORDS

  const RESERVED_RECORD_QWORDS: nat := 64
  const RESERVED_TAIL_QWORDS: nat := 2
  const SAFE_COPY_QWORDS: nat := RESERVED_RECORD_QWORDS - RESERVED_TAIL_QWORDS

  /** `biasedLimit`, counted from the start of the data: a new event must begin before it. */
  const BIASED_LIMIT: nat := DATA_QWORDS - RESERVED_RECORD_QWORDS

  /** The limit for what an event writes. */
  const EVENT_LIMIT: nat := BIASED_LIMIT + SAFE_COPY_QWORDS

  datatype Color = Full(argb: Qword) | Index(index: Octet)

  datatype Format = NullFormat(isAnsi: bool) | Format(str: CString)

  datatype Arg = Value(q: Qword) | Str(str: CString) | NullStr

  datatype Event =
    | Span(marker: bool, color: Color, context: Option<Qword>, format: Format, args: seq<Arg>)
    | EndSpan(context: Option<Qword>)

  predicate ValidArg(a: Arg) {
    a.Str? ==> a.str.Valid()
  }

  predicate ValidEvent(e: Event) {
    e.Span? ==> (e.format.Format? ==> e.format.str.Valid()) && forall a <- e.args :: ValidArg(a)
  }

  function StringWords(s: CString): Words {
    s.Chunks(s.ChunkCount())
  }

  function ArgWords(a: Arg): (r: Words)
    ensures r != []
  {
    match a
    case Value(q) => [q]
    case Str(s) => [EncodeStringInfo(8, s.ansi)] + StringWords(s)
    case NullStr => [0]
  }

  function ArgsWords(args: seq<Arg>): Words {
    if args == [] then [] else ArgWords(args[0]) + ArgsWords(args[1..])
  }

  function FormatWords(f: Format): (r: Words)
    ensures r != []
  {
    match f
    case NullFormat(_) => [0]
    case Format(s) => StringWords(s)
  }

  function ColorWords(c: Color): Words {
    if c.Full? then [c.argb] else []
  }

  function ContextWords(c: Option<Qword>): Words {
    if c.Some? then [c.value] else []
  }

  /** Everything an event has to say after its header. */
  function Body(e: Event): Words {
    match e
    case Span(_, color, context, format, args) =>
      ColorWords(color) + ContextWords(context) + FormatWords(format) + ArgsWords(args)
    case EndSpan(context) => ContextWords(context)
  }

  function TypeCode(e: Event): Octet {
    if e.EndSpan? then OP_END else if e.marker then OP_MARKER else OP_BEGIN
  }

  function IsAnsi(f: Format): bool {
    if f.Format? then f.str.ansi else f.isAnsi
  }

  function Metadata(e: Event): Octet {
    match e
    case Span(_, color, context, format, _) =>
      (if context.Some? then ON_CONTEXT else 0)
      + (if IsAnsi(format) then STRING_IS_ANSI else 0)
      + (if color.Full? then HAS_COLOR else EncodeIndexColor(color.index))
    case EndSpan(context) => if context.Some? then ON_CONTEXT else 0
  }

  /** The part of the body that fits when `room` qwords are left for the event. */
  function FittingBody(e: Event, room: nat): (r: Words)
    requires room > 0
    ensures |r| < room && r <= Body(e)
  {
    var body := Body(e);
    if |body| < room then body else body[..room - 1]
  }

  function Header(e: Event, time: Qword, size: nat): Qword {
    EncodeEventInfo(time, TypeCode(e), EventSize(size), Metadata(e))
  }

  /** The qwords of an event written with `room` qwords left. */
  function Written(e: Event, time: Qword, room: nat): (r: Words)
    requires room > 0
    ensures 0 < |r| <= room
  {
    var body := FittingBody(e, room);
    [Header(e, time, 1 + |body|)] + body
  }

  /** The event fits without being cut. */
  predicate Uncut(e: Event, room: nat) {
    |Body(e)| < room
  }

  // The writers

  /** The event as emitted: what lies behind a string's terminator matters only to the fast copy. */
  function EmittedArg(a: Arg, blockCopy: bool): Arg {
    if a.Str? then Str(Copied(a.str, blockCopy)) else a
  }

  function EmittedArgs(args: seq<Arg>, blockCopy: bool): (r: seq<Arg>)
    ensures |r| == |args|
  {
    if args == [] then [] else [EmittedArg(args[0], blockCopy)] + EmittedArgs(args[1..], blockCopy)
  }

  function EmittedFormat(f: Format, blockCopy: bool): Format {
    if f.Format? then Format(Copied(f.str, blockCopy)) else f
  }

  function EmittedEvent(e: Event, blockCopy: bool): Event {
    if e.Span? then e.(format := EmittedFormat(e.format, blockCopy), args := EmittedArgs(e.args, blockCopy)) else e
  }

  /** PIXCopyEventArgument for a single qword. */
  method CopyQword(words: array<Qword>, destination: nat, limit: nat, q: Qword) returns (d: nat)
    requires limit <= words.Length
    modifies words
    ensures Emitted(old(words[..]), words[..], destination, limit, [q], d)
  {
    d := destination;
    if destination < limit {
      words[d] := q;
      d := d + 1;
    }
  }

  /** An unconditional `*destination++ = q`. */
  method StoreQword(words: array<Qword>, destination: nat, limit: nat, q: Qword) returns (d: nat)
    requires destination < limit <= words.Length
    modifies words
    ensures Emitted(old(words[..]), words[..], destination, limit, [q], d)
  {
    words[destination] := q;
    d := destination + 1;
  }

  /** The characters of a string, by the copy its address allows. */
  method CopyChars(words: array<Qword>, destination: nat, limit: nat, s: CString, blockCopy: bool) returns (d: nat)
    requires s.Valid() && limit <= words.Length
    modifies words
    ensures Emitted(old(words[..]), words[..], destination, limit, StringWords(Copied(s, blockCopy)), d)
  {
    if blockCopy && s.address % 8 == 0 {
      d := CopyEventStringArgumentFast(words, destination, limit, s);
    } else {
      d := CopyEventStringArgumentSlow(words, destination, limit, s);
    }
  }

  /** PIXCopyEventArgument */
  method CopyEventArgument(words: array<Qword>, destination: nat, limit: nat, a: Arg, blockCopy: bool) returns (d: nat)
    requires ValidArg(a) && destination <= limit <= words.Length
    modifies words
    ensures Emitted(old(words[..]), words[..], destination, limit, ArgWords(EmittedArg(a, blockCopy)), d)
  {
    hide StringWords, EncodeStringInfo;
    match a {
      case Value(q) =>
        d := CopyQword(words, destination, limit, q);
      case NullStr =>
        d := CopyQword(words, destination, limit, 0);
      case Str(s) =>
        ghost var before := words[..];
        ghost var info, chars := [EncodeStringInfo(8, s.ansi)], StringWords(Copied(s, blockCopy));
        d := CopyQword(words, destination, limit, EncodeStringInfo(8, s.ansi));
        ghost var middle, d1 := words[..], d;
        d := CopyChars(words, d, limit, s, blockCopy);
        EmittedThen(before, middle, words[..], destination, d1, d, limit, info, chars);
    }
  }

  /** PIXCopyEventArguments */
  method CopyEventArguments(words: array<Qword>, destination: nat, limit: nat, args: seq<Arg>, blockCopy: bool) returns (d: nat)
    requires (forall a <- args :: ValidArg(a)) && destination <= limit <= words.Length
    modifies words
    ensures Emitted(old(words[..]), words[..], destination, limit, ArgsWords(EmittedArgs(args, blockCopy)), d)
    decreases |args|
  {
    hide Emitted, ArgWords;
    ghost var before := words[..];
    if args == [] {
      d := destination;
      EmittedNothing(before, destination, limit);
    } else {
      d := CopyEventArgument(words, destination, limit, args[0], blockCopy);
      ghost var middle, d1 := words[..], d;
      EmittedBound(before, middle, destination, limit, ArgWords(EmittedArg(args[0], blockCopy)), d);
      d := CopyEventArguments(words, d, limit, args[1..], blockCopy);
      EmittedThen(before, middle, words[..], destination, d1, d, limit,
                  ArgWords(EmittedArg(args[0], blockCopy)), ArgsWords(EmittedArgs(args[1..], blockCopy)));
      assert EmittedArgs(args, blockCopy)[1..] == EmittedArgs(args[1..], blockCopy);
    }
  }

  lemma EmittedNothing(m: Words, d: nat, limit: nat)
    ensures Emitted(m, m, d, limit, [], d)
  {
  }

  lemma EmittedBound(before: Words, after: Words, d: nat, limit: nat, p: Words, d': nat)
    requires Emitted(before, after, d, limit, p, d') && d <= limit
    ensures d <= d' <= limit && |after| == |before| && (d' < limit ==> d' == d + |p|)
  {
  }

  /**
   * One recording call with the event's place already found: PIXBeginEvent,
   * PIXSetMarker and PIXEndEvent with or without context, and the part of
   * their Allocate forms that follows the block's replacement.
   */
  method WriteEvent(words: array<Qword>, start: nat, time: Qword, e: Event, blockCopy: bool) returns (destination: nat)
    requires words.Length == DATA_QWORDS && start < BIASED_LIMIT && ValidEvent(e)
    modifies words
    ensures var w := Written(EmittedEvent(e, blockCopy), time, EVENT_LIMIT - start);
            && destination == start + |w| <= EVENT_LIMIT
            && words[..destination + 1] == old(words[..start]) + w + [BLOCK_END_MARKER]
            && words[destination + 1..] == old(words[destination + 1..])
  {
    hide Body, Header, EmittedEvent, Emitted;
    ghost var before := words[..];
    ghost var body := Body(EmittedEvent(e, blockCopy));
    var limit := BIASED_LIMIT + SAFE_COPY_QWORDS;
    destination := CopyBody(words, start + 1, limit, e, blockCopy);
    ghost var middle := words[..];
    EmittedBound(before, middle, start + 1, limit, body, destination);
    HeaderSame(e, blockCopy, time, destination - start);
    words[destination] := BLOCK_END_MARKER;
    words[start] := Header(e, time, destination - start);
    Placed(before, middle, words[..], start, limit, body, destination, words[start]);
  }

  lemma HeaderSame(e: Event, blockCopy: bool, time: Qword, size: nat)
    ensures Header(EmittedEvent(e, blockCopy), time, size) == Header(e, time, size)
  {
  }

  lemma Placed(before: Words, middle: Words, after: Words, start: nat, limit: nat, body: Words, d: nat, header: Qword)
    requires start + 1 <= limit < |before| && Emitted(before, middle, start + 1, limit, body, d)
    requires after == middle[d := BLOCK_END_MARKER][start := header]
    ensures start < d <= limit
    ensures d - start - 1 == if |body| < limit - start then |body| else limit - start - 1
    ensures after[..d + 1] == before[..start] + ([header] + body[..d - start - 1]) + [BLOCK_END_MARKER]
    ensures after[d + 1..] == before[d + 1..]
  {
  }

  /** Colour, context, format string and arguments. */
  method CopyBody(words: array<Qword>, start: nat, limit: nat, e: Event, blockCopy: bool) returns (destination: nat)
    requires ValidEvent(e) && start + 3 <= limit <= words.Length
    modifies words
    ensures Emitted(old(words[..]), words[..], start, limit, Body(EmittedEvent(e, blockCopy)), destination)
  {
    hide Emitted, ArgsWords, StringWords, EmittedArgs;
    ghost var before := words[..];
    var d := CopyPrefix(words, start, limit, e);
    ghost var m1, prefix := words[..], Prefix(e);
    destination := d;
    if e.Span? {
      ghost var f := FormatWords(EmittedFormat(e.format, blockCopy));
      match e.format {
        case NullFormat(_) => destination := StoreQword(words, destination, limit, 0);
        case Format(s) => destination := CopyChars(words, destination, limit, s, blockCopy);
      }
      EmittedBound(m1, words[..], d, limit, f, destination);
      EmittedThen(before, m1, words[..], start, d, destination, limit, prefix, f);
      ghost var m2, d2 := words[..], destination;
      destination := CopyEventArguments(words, destination, limit, e.args, blockCopy);
      EmittedThen(before, m2, words[..], start, d2, destination, limit, prefix + f, ArgsWords(EmittedArgs(e.args, blockCopy)));
    }
  }

  function Prefix(e: Event): Words {
    match e
    case Span(_, color, context, _, _) => ColorWords(color) + ContextWords(context)
    case EndSpan(context) => ContextWords(context)
  }

  method CopyPrefix(words: array<Qword>, start: nat, limit: nat, e: Event) returns (d: nat)
    requires start + 3 <= limit <= words.Length
    modifies words
    ensures Emitted(old(words[..]), words[..], start, limit, Prefix(e), d) && d <= start + 2
  {
    d := start;
    if e.Span? && e.color.Full? {
      d := StoreQword(words, d, limit, e.color.argb);
    }
    ghost var middle := words[..];
    if e.context.Some? {
      d := CopyQword(words, d, limit, e.context.value);
    }
  }
}
