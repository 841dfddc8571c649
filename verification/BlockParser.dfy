// Walking the events of a block.
module BlockParser {
  import opened Wrappers
  import opened Qwords
  import opened Memory
  import opened EventFormat
  import opened Timestamps
  import opened StringReading
  import opened EventReading

  datatype EventType = Begin | End | Marker

  /** What one callback receives; the time is given before the caller's clock conversion. */
  datatype Decoded = Decoded(eventType: EventType, onContext: bool, context: Qword, time: Qword, color: nat, name: Option<Name>)

  /** The peek loop: the first qword from `p` on that ends the block or looks like a header. */
  function Seek(mem: Words, p: nat, maxTime: Qword, c: Clock): (r: nat)
    requires c.Valid()
    ensures r >= p
    decreases |mem| - p
  {
    if p < |mem| && mem[p] != BLOCK_END_MARKER && !IsValidEventInfo(maxTime, c.previous, c.maskedBits, mem[p]) then
      Seek(mem, p + 1, maxTime, c)
    else p
  }

  /** Where the walk goes on after an event whose header does not tell its size. */
  function Resume(mem: Words, at: nat, data: EventData, maxTime: Qword, c: Clock): (r: nat)
    requires c.Valid()
    ensures r >= at
  {
    var peek := at + data.totalBytes / 8;
    if peek >= |mem|
       || (mem[peek] != BLOCK_END_MARKER && !IsValidEventInfo(maxTime, c.previous, c.maskedBits, mem[peek])) then
      Seek(mem, at + 1 + data.formatBytes / 8, maxTime, c)
    else peek
  }

  const EMPTY_NAME := Plain(false, [])

  datatype Step = Step(event: Decoded, next: nat, buffer: Name, mem: Words)

  /**
   * The switch over the opcode: `at` is the position after the header, `c` the
   * clock advanced to this event and `buffer` the content of the name buffer.
   */
  function ReadBody(mem: Words, at: nat, info: EventInfo, maxTime: Qword, c: Clock, buffer: Name): (s: Step)
    requires info.Known() && c.Valid()
    ensures |s.mem| == |mem| && s.next >= at
  {
    if info.op == OP_END then
      if info.OnContext() then
        var data := ReadEndContext(mem, at);
        Step(Decoded(End, true, data.context, c.previous, 0, None),
             at + (if info.SizeKnown() then info.size - 1 else 1), buffer, mem)
      else
        Step(Decoded(End, false, 0, c.previous, 0, None), at, buffer, mem)
    else
      var plain := info.NoVarArgs();
      var r := if plain then ReadUnformatted(mem, info, at, |mem|) else ReadFormatted(mem, info, at, |mem|);
      var name := if r.name.Some? then r.name.value else buffer;
      var next := if info.SizeKnown() then at + info.size - 1
                  else if plain then at + r.data.totalBytes / 8
                  else Resume(r.mem, at, r.data, maxTime, c);
      Step(Decoded(if info.op == OP_BEGIN then Begin else Marker, info.OnContext(), r.data.context, c.previous,
                   r.data.metadata % 0x1_0000_0000, Some(name)),
           next, name, r.mem)
  }

  datatype Walk = Walk(events: seq<Decoded>, mem: Words)

  /** ProcessEvents from qword `pos` on: the callbacks made and the memory left behind. */
  function Process(mem: Words, pos: nat, maxTime: Qword, c: Clock, buffer: Name): (w: Walk)
    requires c.Valid()
    ensures |w.mem| == |mem|
    decreases |mem| - pos
  {
    if AtEnd(mem, pos, |mem|) then Walk([], mem)
    else
      var info := DecodeEventInfo(mem[pos]);
      if !info.Known() then
        Process(mem, pos + 1 + (if info.size > 0 then info.size - 1 else 0), maxTime, c, buffer)
      else
        var c' := Advance(c, info.time);
        var s := ReadBody(mem, pos + 1, info, maxTime, c', buffer);
        var rest := Process(s.mem, s.next, maxTime, c', s.buffer);
        Walk([s.event] + rest.events, rest.mem)
  }

  /** The whole block: its begin and end times and its data. */
  function ProcessBlock(mem: Words, begin: Qword, end: Qword): Walk {
    Process(mem, 0, end, ClockAt(begin), EMPTY_NAME)
  }

  /** BlockParser: the data of one block, its times and the buffer that receives names. */
  class Parser {
    const words: array<Qword>
    const blockStartTime: Qword
    const blockEndTime: Qword
    var buffer: Name

    constructor (words: array<Qword>, begin: Qword, end: Qword)
      ensures this.words == words && blockStartTime == begin && blockEndTime == end && buffer == EMPTY_NAME
    {
      this.words, blockStartTime, blockEndTime, buffer := words, begin, end, EMPTY_NAME;
    }

    method SeekEvent(from: nat, c: Clock) returns (peek: nat)
      requires c.Valid()
      ensures peek == Seek(words[..], from, blockEndTime, c)
    {
      hide IsValidEventInfo;
      peek := from;
      while peek < words.Length && words[peek] != BLOCK_END_MARKER
            && !IsValidEventInfo(blockEndTime, c.previous, c.maskedBits, words[peek])
        invariant Seek(words[..], peek, blockEndTime, c) == Seek(words[..], from, blockEndTime, c)
        decreases words.Length - peek
      {
        peek := peek + 1;
      }
    }

    method PeekNext(at: nat, data: EventData, c: Clock) returns (next: nat)
      requires c.Valid()
      ensures next == Resume(words[..], at, data, blockEndTime, c)
    {
      hide IsValidEventInfo, Seek;
      next := at + data.totalBytes / 8;
      if (next < words.Length && words[next] != BLOCK_END_MARKER
          && !IsValidEventInfo(blockEndTime, c.previous, c.maskedBits, words[next]))
         || next >= words.Length
      {
        next := SeekEvent(at + 1 + data.formatBytes / 8, c);
      }
    }

    method ReadEvent(at: nat, info: EventInfo, c: Clock) returns (event: Decoded, next: nat)
      requires info.Known() && c.Valid()
      modifies this, words
      ensures Step(event, next, buffer, words[..]) == ReadBody(old(words[..]), at, info, blockEndTime, c, old(buffer))
    {
      hide Resume, ReadFormatted, ReadUnformatted;
      if info.op == OP_END {
        if info.OnContext() {
          event := Decoded(End, true, WordAt(words, at), c.previous, 0, None);
          next := if info.SizeKnown() then at + info.size - 1 else at + 1;
        } else {
          event, next := Decoded(End, false, 0, c.previous, 0, None), at;
        }
      } else {
        var data, name;
        if info.NoVarArgs() {
          data, name := ReadEventWithNoFormatParameters(words, info, at, words.Length);
        } else {
          data, name := ReadEventWithFormatParameters(words, info, at, words.Length);
        }
        if info.SizeKnown() {
          next := at + info.size - 1;
        } else if info.NoVarArgs() {
          next := at + data.totalBytes / 8;
        } else {
          next := PeekNext(at, data, c);
        }
        if name.Some? {
          buffer := name.value;
        }
        event := Decoded(if info.op == OP_BEGIN then Begin else Marker, info.OnContext(), data.context, c.previous,
                         data.metadata % 0x1_0000_0000, Some(buffer));
      }
    }

    /** The events handed to the callback, in order. */
    method ProcessEvents() returns (events: seq<Decoded>)
      requires buffer == EMPTY_NAME
      modifies this, words
      ensures Walk(events, words[..]) == ProcessBlock(old(words[..]), blockStartTime, blockEndTime)
      ensures |events| <= words.Length
    {
      hide ReadBody, DecodeEventInfo;
      events := [];
      var currentPosition, c := 0, ClockAt(blockStartTime);
      ghost var goal := ProcessBlock(words[..], blockStartTime, blockEndTime);
      while currentPosition < words.Length && words[currentPosition] != BLOCK_END_MARKER
        invariant c.Valid() && |events| <= currentPosition && |events| <= words.Length
        invariant goal == PrependEvents(events, Process(words[..], currentPosition, blockEndTime, c, buffer))
        decreases words.Length - currentPosition
      {
        var info := DecodeEventInfo(words[currentPosition]);
        ghost var rest := Process(words[..], currentPosition, blockEndTime, c, buffer);
        currentPosition := currentPosition + 1;
        if !info.Known() {
          if info.size > 0 {
            currentPosition := currentPosition + info.size - 1;
          }
        } else {
          c := Advance(c, info.time);
          var event;
          event, currentPosition := ReadEvent(currentPosition, info, c);
          PrependMore(events, event, Process(words[..], currentPosition, blockEndTime, c, buffer));
          events := events + [event];
        }
      }
    }
  }

  function PrependEvents(events: seq<Decoded>, w: Walk): Walk {
    Walk(events + w.events, w.mem)
  }

  lemma PrependMore(events: seq<Decoded>, e: Decoded, w: Walk)
    ensures PrependEvents(events + [e], w) == PrependEvents(events, PrependEvents([e], w))
  {
  }
}
