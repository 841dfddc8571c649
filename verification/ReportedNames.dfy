// What the names and arguments of decoded events hold, and why it does not
// matter which copy of a string was taken.
module ReportedNames {
  import opened Wrappers
  import opened Qwords
  import opened Memory
  import opened EventFormat
  import opened EventStrings
  import opened StringCopy
  import opened EventWriter
  import opened EventReading
  import opened BlockParser
  import opened ArgumentRoundTrip
  import opened EventRoundTrip
  import opened BlockLayout
  import opened BlockRoundTrip

  lemma {:induction false} SlotsBound(format: seq<Char>, symbol: nat, count: nat)
    requires (forall c <- format :: c != 0) && symbol <= |format| && count <= MAX_ARGUMENTS
    ensures |Slots(format, symbol, count)| <= MAX_ARGUMENTS + 1 - count
    decreases |format| - symbol
  {
    hide DetectFrom;
    if symbol < |format| && count < MAX_ARGUMENTS {
      if format[symbol] != PERCENT {
        SlotsBound(format, symbol + 1, count);
      } else {
        var d := DetectFrom(format, symbol, 1);
        SlotsBound(format, symbol + d.advance, Capped(count + |SlotsOf(d.specifier)|));
      }
    }
  }

  lemma {:induction false} PushAllCapped(args: seq<DecodedArg>, more: seq<DecodedArg>)
    requires |args| <= MAX_ARGUMENTS
    ensures PushAll(args, more) == (args + more)[..Capped(|args| + |more|)]
    decreases |more|
  {
    if more == [] {
      assert args + more == args;
    } else {
      PushAllCapped(Push(args, more[0]), more[1..]);
      assert args + more == args + [more[0]] + more[1..];
    }
  }

  /** Sixteen of the arguments that the format string asks for are kept; it can ask for one more only with a last `*s`. */
  lemma ArgumentsKept(e: Event)
    requires e.Span? && GoodFormat(e.format)
    ensures |EventSlots(e)| <= MAX_ARGUMENTS + 1
    ensures FormattedOf(e).args == Expected(EventSlots(e), e.args)[..Capped(|EventSlots(e)|)]
    ensures FormattedOf(e).args == Expected(EventSlots(e), e.args) <==> |EventSlots(e)| <= MAX_ARGUMENTS
  {
    hide Expected;
    SlotsBound(FormatString(e.format).chars, 0, 0);
    var x := Expected(EventSlots(e), e.args);
    PushAllCapped([], x);
    assert [] + x == x;
  }

  lemma {:induction false} ExpectedAt(slots: seq<Slot>, args: seq<Arg>, i: nat)
    requires i < |slots|
    ensures Expected(slots, args)[i] == if i < |args| then AsDecoded(args[i]) else Blank(slots[i])
  {
    if i > 0 {
      ExpectedAt(slots[1..], if args == [] then [] else args[1..], i - 1);
    }
  }

  lemma {:induction false} NoArgsWords(args: seq<Arg>)
    ensures ArgsWords(args) == [] <==> args == []
  {
  }

  /**
   * An event with arguments is reported with its format string and arguments,
   * one without as its format string alone.  The exceptions are events of more
   * than 127 qwords: there it depends on whether the arguments begin at the
   * 127th qword.
   */
  lemma NameExact(t: Timed)
    requires t.event.Span? && Readable(t.event)
    ensures ExpectedEvent(t).name
         == Some(if (t.event.args == [] && 1 + |Body(t.event)| <= SIZE_MAX) || ArgsOffset(t.event) == SIZE_MAX
                 then PlainOf(t.event) else FormattedOf(t.event))
  {
    hide Prefix, FormatWords, ArgsWords, Metadata, GoodFormat, Agree, FormattedOf, PlainOf;
    NoArgsWords(t.event.args);
    BodyLength(t.event);
  }

  lemma BodyLength(e: Event)
    requires e.Span?
    ensures |Body(e)| == ArgsOffset(e) - 1 + |ArgsWords(e.args)|
  {
  }

  // What was written instead of what was given: only what lies behind terminators differs

  lemma {:induction false} EmittedExpected(slots: seq<Slot>, args: seq<Arg>, blockCopy: bool)
    ensures Expected(slots, EmittedArgs(args, blockCopy)) == Expected(slots, args)
    ensures |ArgsWords(EmittedArgs(args, blockCopy))| == |ArgsWords(args)|
    decreases |args|
  {
    hide PackQword;
    if args != [] {
      EmittedExpected(if slots == [] then [] else slots[1..], args[1..], blockCopy);
      assert EmittedArgs(args, blockCopy)[1..] == EmittedArgs(args[1..], blockCopy);
      EmittedArgSame(args[0], blockCopy);
    }
  }

  lemma EmittedArgSame(a: Arg, blockCopy: bool)
    ensures AsDecoded(EmittedArg(a, blockCopy)) == AsDecoded(a)
    ensures |ArgWords(EmittedArg(a, blockCopy))| == |ArgWords(a)|
  {
    hide PackQword;
  }

  /** The two copies of a string make no difference to what is reported. */
  lemma EmittedSame(t: Timed, blockCopy: bool)
    requires Readable(t.event) && Readable(EmittedEvent(t.event, blockCopy))
    ensures ExpectedEvent(t.(event := EmittedEvent(t.event, blockCopy))) == ExpectedEvent(t)
  {
    hide EmittedArgs, PackQword, Slots, Agree, ArgsWords, PushAll, Metadata, EmittedEvent, Readable;
    if t.event.Span? {
      EmittedShape(t.event, blockCopy);
      EmittedName(t, blockCopy);
    } else {
      EmittedEnd(t.event, blockCopy);
    }
  }

  lemma EmittedEnd(e: Event, blockCopy: bool)
    requires e.EndSpan?
    ensures EmittedEvent(e, blockCopy) == e
  {
  }

  lemma EmittedShape(e: Event, blockCopy: bool)
    requires e.Span?
    ensures var x := EmittedEvent(e, blockCopy);
            && x.Span? && x.marker == e.marker && x.color == e.color && x.context == e.context
            && x.args == EmittedArgs(e.args, blockCopy)
            && FormatString(x.format).chars == FormatString(e.format).chars && IsAnsi(x.format) == IsAnsi(e.format)
            && Metadata(x) == Metadata(e) && ArgsOffset(x) == ArgsOffset(e)
  {
    hide PackQword;
  }

  lemma EmittedName(t: Timed, blockCopy: bool)
    requires t.event.Span? && Readable(t.event) && Readable(EmittedEvent(t.event, blockCopy))
    ensures EmittedEvent(t.event, blockCopy).Span?
    ensures var x := t.(event := EmittedEvent(t.event, blockCopy));
            NameOf(x.event, InfoOf(x, 1 + |Body(x.event)|)) == NameOf(t.event, InfoOf(t, 1 + |Body(t.event)|))
  {
    hide EmittedArgs, PackQword, Slots, Agree, ArgsWords, PushAll, Metadata, EmittedEvent, ArgsOffset, Body, Expected;
    EmittedShape(t.event, blockCopy);
    BodyLength(t.event);
    BodyLength(EmittedEvent(t.event, blockCopy));
    EmittedExpected(EventSlots(t.event), t.event.args, blockCopy);
  }
}
