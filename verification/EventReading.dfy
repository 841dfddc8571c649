// Reading the body of one event: format specifiers, arguments, colour,
// context and name.
module EventReading {
  import opened Wrappers
  import opened Qwords
  import opened Memory
  import opened EventFormat
  import opened StringReading

  const MAX_ARGUMENTS: nat := 16

  const PERCENT: Char := 0x25
  const STAR: Char := 0x2A

  /** An argument as the decoder passes it to the formatting routine: a qword, or a pointer to a string. */
  datatype DecodedArg = Number(value: Qword) | Text(isAnsi: bool, chars: seq<Char>)

  /**
   * A decoded name before any conversion of characters: the format string
   * copied as it is, or a format string and the arguments to format it with.
   */
  datatype Name = Plain(isAnsi: bool, chars: seq<Char>) | Formatted(isAnsi: bool, format: seq<Char>, args: seq<DecodedArg>)

  datatype EventData = EventData(metadata: Qword, context: Qword, formatBytes: nat, totalBytes: nat)

  const NO_DATA := EventData(0, 0, 0, 0)

  // Format specifiers

  datatype Specifier = DoublePercent | NotSpecifier | NonStringSpecifier | StringSpecifier | StringSpecifierWithSize

  /** The conversion letters that take one argument that is not a string. */
  predicate IsNonStringLetter(c: Char) {
    c == 'A' as int || c == 'C' as int || c == 'E' as int || c == 'F' as int || c == 'G' as int || c == 'X' as int
    || c == 'a' as int || c == 'c' as int || c == 'd' as int || c == 'e' as int || c == 'f' as int || c == 'g' as int
    || c == 'i' as int || c == 'n' as int || c == 'o' as int || c == 'p' as int || c == 'u' as int || c == 'x' as int
  }

  predicate IsStringLetter(c: Char) {
    c == 'S' as int || c == 's' as int
  }

  /** Character `k` of a NUL-terminated string. */
  function SymbolAt(s: seq<Char>, k: nat): Char {
    if k < |s| then s[k] else 0
  }

  datatype Detected = Detected(specifier: Specifier, advance: nat)

  /** What the scan that has reached character `i` after the percent sign at `at` will detect. */
  function DetectFrom(s: seq<Char>, at: nat, i: nat): (d: Detected)
    requires (forall c <- s :: c != 0) && at + i <= |s| && i >= 1
    ensures 1 <= d.advance && at + d.advance <= |s|
    decreases |s| - at - i
  {
    var c := SymbolAt(s, at + i);
    if c == 0 then Detected(NotSpecifier, i)
    else if c == PERCENT then
      if i == 1 then Detected(DoublePercent, i + 1) else Detected(NotSpecifier, i)
    else if IsNonStringLetter(c) then Detected(NonStringSpecifier, i + 1)
    else if IsStringLetter(c) then
      Detected(if s[at + i - 1] == STAR then StringSpecifierWithSize else StringSpecifier, i + 1)
    else
      assert at + i < |s|;
      DetectFrom(s, at, i + 1)
  }

  /** The characters at which the scan behind a percent sign stops. */
  predicate Stopper(c: Char) {
    c == 0 || c == PERCENT || IsNonStringLetter(c) || IsStringLetter(c)
  }

  /**
   * What a percent sign starts is decided by the first stopper behind it: flags,
   * widths and anything else in between do not matter, except for a star right
   * before a string letter.
   */
  lemma {:induction false} DetectExact(s: seq<Char>, at: nat, i: nat) returns (stop: nat)
    requires (forall c <- s :: c != 0) && at + i <= |s| && i >= 1
    ensures at + i <= stop <= |s| && Stopper(SymbolAt(s, stop))
    ensures forall k | at + i <= k < stop :: !Stopper(SymbolAt(s, k))
    ensures var c, d := SymbolAt(s, stop), DetectFrom(s, at, i);
            && (d.specifier == DoublePercent <==> c == PERCENT && stop == at + 1)
            && (d.specifier == NotSpecifier <==> c == 0 || (c == PERCENT && stop > at + 1))
            && (d.specifier == NonStringSpecifier <==> IsNonStringLetter(c))
            && (d.specifier == StringSpecifierWithSize <==> IsStringLetter(c) && s[stop - 1] == STAR)
            && d.advance == if d.specifier == NotSpecifier then stop - at else stop - at + 1
    decreases |s| - at - i
  {
    if Stopper(SymbolAt(s, at + i)) {
      stop := at + i;
    } else {
      stop := DetectExact(s, at, i + 1);
    }
  }

  method IsFormatSpecifier(s: seq<Char>, at: nat) returns (d: Detected)
    requires (forall c <- s :: c != 0) && at < |s|
    ensures d == DetectFrom(s, at, 1)
  {
    var i := 1;
    while true
      invariant 1 <= i && at + i <= |s|
      invariant DetectFrom(s, at, i) == DetectFrom(s, at, 1)
      decreases |s| - i
    {
      var c := SymbolAt(s, at + i);
      if c == 0 {
        return Detected(NotSpecifier, i);
      } else if c == PERCENT {
        return if i == 1 then Detected(DoublePercent, i + 1) else Detected(NotSpecifier, i);
      } else if IsNonStringLetter(c) {
        return Detected(NonStringSpecifier, i + 1);
      } else if IsStringLetter(c) {
        return Detected(if s[at + i - 1] == STAR then StringSpecifierWithSize else StringSpecifier, i + 1);
      }
      i := i + 1;
    }
  }

  // Arguments

  /** The state of the argument loop. */
  datatype ArgState = ArgState(args: seq<DecodedArg>, source: nat, bytesUsed: nat, mem: Words)

  /** Stores into the argument array, which has 16 elements. */
  function Push(args: seq<DecodedArg>, a: DecodedArg): (r: seq<DecodedArg>)
    ensures |args| <= MAX_ARGUMENTS ==> |args| <= |r| <= MAX_ARGUMENTS
    ensures |args| < MAX_ARGUMENTS ==> r == args + [a]
  {
    if |args| < MAX_ARGUMENTS then args + [a] else args
  }

  function TakeQword(a: ArgState, limit: int): (r: ArgState)
    ensures |r.mem| == |a.mem|
  {
    if a.source < limit then
      a.(args := Push(a.args, Number(Get(a.mem, a.source))), source := a.source + 1, bytesUsed := a.bytesUsed + 8)
    else a.(args := Push(a.args, Number(0)))
  }

  /** The characters a saved string points to. */
  function SavedText(info: SavedString, mem: Words): seq<Char> {
    if info.raw.Some? then CStringAt(mem, info.raw.value, info.isAnsi) else []
  }

  function TakeString(a: ArgState, limit: int): (r: ArgState)
    ensures |r.mem| == |a.mem|
  {
    var read := ReadStringSpec(a.mem, a.source, limit, None);
    ArgState(
      Push(a.args, Text(read.info.isAnsi, SavedText(read.info, read.mem))),
      a.source + read.info.bytesUsed / 8,
      a.bytesUsed + read.info.bytesUsed,
      read.mem)
  }

  function TakeFor(specifier: Specifier, a: ArgState, limit: int): (r: ArgState)
    ensures |r.mem| == |a.mem|
  {
    match specifier
    case NonStringSpecifier => TakeQword(a, limit)
    case StringSpecifier => TakeString(a, limit)
    case StringSpecifierWithSize => TakeString(TakeQword(a, limit), limit)
    case _ => a
  }

  /** PopulateFormatArguments from character `symbol` of the format string on. */
  function Populate(format: seq<Char>, symbol: nat, a: ArgState, limit: int): (r: ArgState)
    requires (forall c <- format :: c != 0) && symbol <= |format|
    ensures |r.mem| == |a.mem|
    decreases |format| - symbol
  {
    if symbol == |format| || |a.args| >= MAX_ARGUMENTS then a
    else if format[symbol] != PERCENT then Populate(format, symbol + 1, a, limit)
    else
      var d := DetectFrom(format, symbol, 1);
      Populate(format, symbol + d.advance, TakeFor(d.specifier, a, limit), limit)
  }

  lemma {:induction false} CStringNonZero(mem: Words, b: nat, ansi: bool)
    ensures forall c <- CStringAt(mem, b, ansi) :: c != 0
    decreases 8 * |mem| - b
  {
    if b / 8 < |mem| && CharAt(mem, b, ansi) != 0 {
      CStringNonZero(mem, b + CharSize(ansi), ansi);
    }
  }

  lemma CStringStep(mem: Words, b: nat, ansi: bool)
    ensures CStringAt(mem, b, ansi)
         == if b / 8 < |mem| && CharAt(mem, b, ansi) != 0 then [CharAt(mem, b, ansi)] + CStringAt(mem, b + CharSize(ansi), ansi) else []
  {
  }

  lemma CharTakesRoom(ansi: bool)
    ensures CharSize(ansi) > 0
  {
  }

  /** The characters of the string at byte `b`, read from the block. */
  method ReadCString(words: array<Qword>, b: nat, ansi: bool) returns (s: seq<Char>)
    ensures s == CStringAt(words[..], b, ansi)
  {
    hide CharAt, CStringAt, CharSize;
    s := [];
    var p := b;
    ghost var mem := words[..];
    while p / 8 < words.Length && CharIn(words, p, ansi) != 0
      invariant words[..] == mem && s + CStringAt(mem, p, ansi) == CStringAt(mem, b, ansi)
      decreases 8 * words.Length - p
    {
      var c := CharIn(words, p, ansi);
      CStringStep(mem, p, ansi);
      CharTakesRoom(ansi);
      ghost var rest := CStringAt(mem, p + CharSize(ansi), ansi);
      assert s + ([c] + rest) == (s + [c]) + rest;
      s := s + [c];
      p := p + CharSize(ansi);
    }
    CStringStep(mem, p, ansi);
  }

  function CharIn(words: array<Qword>, b: nat, ansi: bool): (c: Char)
    reads words
    ensures c == CharAt(words[..], b, ansi)
  {
    if ansi then Byte(WordAt(words, b / 8), b % 8)
    else Join(Byte(WordAt(words, b / 8), b % 8), Byte(WordAt(words, (b + 1) / 8), (b + 1) % 8))
  }

  method ReadSavedText(words: array<Qword>, info: SavedString) returns (s: seq<Char>)
    ensures s == SavedText(info, words[..])
  {
    s := [];
    if info.raw.Some? {
      s := ReadCString(words, info.raw.value, info.isAnsi);
    }
  }

  method PopulateFormatArguments(arguments: array<DecodedArg>, format: seq<Char>, words: array<Qword>, source: nat, limit: int)
    returns (argumentIndex: nat, bytesUsed: nat)
    requires arguments.Length == MAX_ARGUMENTS
    requires forall c <- format :: c != 0
    modifies arguments, words
    ensures argumentIndex <= MAX_ARGUMENTS
    ensures var r := Populate(format, 0, ArgState([], source, 0, old(words[..])), limit);
            arguments[..argumentIndex] == r.args && bytesUsed == r.bytesUsed && words[..] == r.mem
  {
    argumentIndex, bytesUsed := 0, 0;
    var symbol, source := 0, source;
    ghost var goal := Populate(format, 0, ArgState([], source, 0, words[..]), limit);
    while symbol < |format| && argumentIndex < MAX_ARGUMENTS
      invariant symbol <= |format| && argumentIndex <= MAX_ARGUMENTS
      invariant Populate(format, symbol, ArgState(arguments[..argumentIndex], source, bytesUsed, words[..]), limit) == goal
      decreases |format| - symbol
    {
      if format[symbol] != PERCENT {
        symbol := symbol + 1;
      } else {
        var d := IsFormatSpecifier(format, symbol);
        symbol := symbol + d.advance;
        argumentIndex, source, bytesUsed := TakeArguments(d.specifier, arguments, argumentIndex, words, source, limit, bytesUsed);
      }
    }
  }

  method TakeQwordArgument(arguments: array<DecodedArg>, index: nat, words: array<Qword>, source: nat, limit: int, used: nat)
    returns (index': nat, source': nat, used': nat)
    requires arguments.Length == MAX_ARGUMENTS && index < MAX_ARGUMENTS
    modifies arguments
    ensures index' <= MAX_ARGUMENTS
    ensures ArgState(arguments[..index'], source', used', words[..])
         == TakeQword(ArgState(old(arguments[..index]), source, used, old(words[..])), limit)
  {
    if source < limit {
      arguments[index] := Number(WordAt(words, source));
      index', source', used' := index + 1, source + 1, used + 8;
    } else {
      arguments[index] := Number(0);
      index', source', used' := index + 1, source, used;
    }
    assert arguments[..index'] == old(arguments[..index]) + [arguments[index]];
  }

  method TakeStringArgument(arguments: array<DecodedArg>, index: nat, words: array<Qword>, source: nat, limit: int, used: nat)
    returns (index': nat, source': nat, used': nat)
    requires arguments.Length == MAX_ARGUMENTS && index <= MAX_ARGUMENTS
    modifies arguments, words
    ensures index' <= MAX_ARGUMENTS
    ensures ArgState(arguments[..index'], source', used', words[..])
         == TakeString(ArgState(old(arguments[..index]), source, used, old(words[..])), limit)
  {
    hide ReadStringSpec, SavedText;
    var info := ReadString(words, source, limit, None);
    var chars := ReadSavedText(words, info);
    index', source', used' := index, source + info.bytesUsed / 8, used + info.bytesUsed;
    ghost var before := arguments[..index];
    if index < MAX_ARGUMENTS {
      arguments[index] := Text(info.isAnsi, chars);
      index' := index + 1;
      assert arguments[..index'] == before + [Text(info.isAnsi, chars)];
    }
  }

  /** The switch over the detected specifier inside PopulateFormatArguments. */
  method TakeArguments(specifier: Specifier, arguments: array<DecodedArg>, index: nat, words: array<Qword>, source: nat, limit: int, used: nat)
    returns (index': nat, source': nat, used': nat)
    requires arguments.Length == MAX_ARGUMENTS && index < MAX_ARGUMENTS
    modifies arguments, words
    ensures index' <= MAX_ARGUMENTS
    ensures ArgState(arguments[..index'], source', used', words[..])
         == TakeFor(specifier, ArgState(old(arguments[..index]), source, used, old(words[..])), limit)
  {
    hide TakeQword, TakeString;
    index', source', used' := index, source, used;
    if specifier == NonStringSpecifier || specifier == StringSpecifierWithSize {
      index', source', used' := TakeQwordArgument(arguments, index', words, source', limit, used');
    }
    if specifier == StringSpecifier || specifier == StringSpecifierWithSize {
      index', source', used' := TakeStringArgument(arguments, index', words, source', limit, used');
    }
  }

  // Event bodies

  /** What reading an event yields; no name means the name buffer was not written. */
  datatype ReadResult = ReadResult(data: EventData, name: Option<Name>, mem: Words)

  /** Colour and context, which come before the format string. */
  function ReadPrefix(mem: Words, info: EventInfo, source: nat): (EventData, nat) {
    var color := if info.HasColor() then Get(mem, source) else if info.size > 0 then DecodeIndexColor(info.metadata) else 0;
    var afterColor := if info.HasColor() then source + 1 else source;
    var context := if info.OnContext() then Get(mem, afterColor) else 0;
    var after := if info.OnContext() then afterColor + 1 else afterColor;
    (EventData(color, context, 0, 8 * (after - source)), after)
  }

  function StringMetadata(info: EventInfo): Option<Octet> {
    if info.size > 0 then Some(info.metadata) else None
  }

  /** The name copied without formatting: of an ANSI string only `length` characters are converted. */
  function PlainName(info: SavedString, mem: Words): Name {
    var text := SavedText(info, mem);
    Plain(info.isAnsi, if info.isAnsi && 0 <= info.length < |text| then text[..info.length] else text)
  }

  /** ReadEndContextEvent */
  function ReadEndContext(mem: Words, source: nat): EventData {
    EventData(0, Get(mem, source), 0, 8)
  }

  /** ReadEventWithNoFormatParameters */
  function ReadUnformatted(mem: Words, info: EventInfo, source: nat, limit: int): (r: ReadResult)
    ensures |r.mem| == |mem|
  {
    if source >= limit then ReadResult(NO_DATA, None, mem)
    else
      var (data, at) := ReadPrefix(mem, info, source);
      var read := ReadStringSpec(mem, at, limit, StringMetadata(info));
      ReadResult(
        data.(formatBytes := read.info.bytesUsed, totalBytes := data.totalBytes + read.info.bytesUsed),
        Some(PlainName(read.info, read.mem)),
        read.mem)
  }

  /** ReadEventWithFormatParameters */
  function ReadFormatted(mem: Words, info: EventInfo, source: nat, limit: int): (r: ReadResult)
    ensures |r.mem| == |mem|
  {
    if source >= limit then ReadResult(NO_DATA, None, mem)
    else
      var (prefix, at) := ReadPrefix(mem, info, source);
      var read := ReadStringSpec(mem, at, limit, StringMetadata(info));
      var data := prefix.(formatBytes := read.info.bytesUsed, totalBytes := prefix.totalBytes + read.info.bytesUsed);
      var argSource := at + read.info.bytesUsed / 8;
      var used := 1 + data.totalBytes / 8;
      if info.legacyOp == OP_INVALID && used == info.size then
        ReadResult(data, Some(PlainName(read.info, read.mem)), read.mem)
      else
        var argLimit := if info.SizeKnown() then argSource + (info.size - used) else limit;
        var format := SavedText(read.info, read.mem);
        SavedTextNonZero(read.info, read.mem);
        var a := Populate(format, 0, ArgState([], argSource, 0, read.mem), argLimit);
        ReadResult(
          data.(totalBytes := data.totalBytes + a.bytesUsed),
          Some(Formatted(read.info.isAnsi, format, a.args)),
          a.mem)
  }

  lemma SavedTextNonZero(info: SavedString, mem: Words)
    ensures forall c <- SavedText(info, mem) :: c != 0
  {
    if info.raw.Some? {
      CStringNonZero(mem, info.raw.value, info.isAnsi);
    }
  }

  method ReadPrefixFrom(words: array<Qword>, info: EventInfo, source: nat) returns (data: EventData, after: nat)
    ensures (data, after) == ReadPrefix(words[..], info, source)
  {
    var metadata, context, used := 0, 0, 0;
    after := source;
    if info.HasColor() {
      metadata := WordAt(words, after);
      after, used := after + 1, used + 8;
    } else if info.size > 0 {
      metadata := DecodeIndexColor(info.metadata);
    }
    if info.OnContext() {
      context := WordAt(words, after);
      after, used := after + 1, used + 8;
    }
    data := EventData(metadata, context, 0, used);
  }

  method CopyPlainName(words: array<Qword>, info: SavedString) returns (name: Name)
    ensures name == PlainName(info, words[..])
  {
    var text := ReadSavedText(words, info);
    name := Plain(info.isAnsi, if info.isAnsi && 0 <= info.length < |text| then text[..info.length] else text);
  }

  method ReadEventWithNoFormatParameters(words: array<Qword>, info: EventInfo, source: nat, limit: int)
    returns (data: EventData, name: Option<Name>)
    modifies words
    ensures ReadResult(data, name, words[..]) == ReadUnformatted(old(words[..]), info, source, limit)
  {
    hide ReadPrefix, ReadStringSpec, PlainName;
    if source >= limit {
      return NO_DATA, None;
    }
    var at;
    data, at := ReadPrefixFrom(words, info, source);
    var saved := ReadString(words, at, limit, StringMetadata(info));
    var plain := CopyPlainName(words, saved);
    name := Some(plain);
    data := data.(formatBytes := saved.bytesUsed, totalBytes := data.totalBytes + saved.bytesUsed);
  }

  method ReadEventWithFormatParameters(words: array<Qword>, info: EventInfo, source: nat, limit: int)
    returns (data: EventData, name: Option<Name>)
    modifies words
    ensures ReadResult(data, name, words[..]) == ReadFormatted(old(words[..]), info, source, limit)
  {
    hide ReadPrefix, ReadStringSpec, PlainName, Populate, SavedText;
    if source >= limit {
      return NO_DATA, None;
    }
    var at;
    data, at := ReadPrefixFrom(words, info, source);
    var saved := ReadString(words, at, limit, StringMetadata(info));
    var argSource, argLimit := at + saved.bytesUsed / 8, limit;
    data := data.(formatBytes := saved.bytesUsed, totalBytes := data.totalBytes + saved.bytesUsed);
    var eventSizeUsed := 1 + data.totalBytes / 8;
    if info.SizeKnown() {
      argLimit := argSource + (info.size - eventSizeUsed);
    }
    if info.legacyOp == OP_INVALID && eventSizeUsed == info.size {
      var plain := CopyPlainName(words, saved);
      name := Some(plain);
    } else {
      var arguments := new DecodedArg[MAX_ARGUMENTS](_ => Number(0));
      var format := ReadSavedText(words, saved);
      SavedTextNonZero(saved, words[..]);
      var count, argumentBytes := PopulateFormatArguments(arguments, format, words, argSource, argLimit);
      name := Some(Formatted(saved.isAnsi, format, arguments[..count]));
      data := data.(totalBytes := data.totalBytes + argumentBytes);
    }
  }
}
