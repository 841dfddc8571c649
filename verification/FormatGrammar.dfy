// Which arguments a format string asks for, said by its grammar: text, doubled
// percent signs, and conversions made of a percent sign, flags and a letter.
module FormatGrammar {
  import opened Memory
  import opened EventReading
  import opened ArgumentRoundTrip

  const NUMBER_LETTERS := "diouxXeEfFgGaAcCpn"
  const STRING_LETTERS := "sS"

  predicate In(c: Char, letters: string) {
    exists i | 0 <= i < |letters| :: c == letters[i] as int
  }

  lemma NumberLetters(c: Char)
    ensures IsNonStringLetter(c) <==> In(c, NUMBER_LETTERS)
  {
    var l := NUMBER_LETTERS;
    assert l[0] == 'd' && l[1] == 'i' && l[2] == 'o' && l[3] == 'u' && l[4] == 'x' && l[5] == 'X' && l[6] == 'e' && l[7] == 'E' && l[8] == 'f';
    assert l[9] == 'F' && l[10] == 'g' && l[11] == 'G' && l[12] == 'a' && l[13] == 'A' && l[14] == 'c' && l[15] == 'C' && l[16] == 'p' && l[17] == 'n';
  }

  lemma StringLetters(c: Char)
    ensures IsStringLetter(c) <==> In(c, STRING_LETTERS)
  {
    var l := STRING_LETTERS;
    assert l[0] == 's' && l[1] == 'S';
  }

  /** A percent sign (0x25) and one more character, for every character. */
  lemma OneLetter(c: Char)
    requires c != 0
    ensures DetectFrom([0x25, c], 0, 1)
         == if In(c, NUMBER_LETTERS) then Detected(NonStringSpecifier, 2)
            else if In(c, STRING_LETTERS) then Detected(StringSpecifier, 2)
            else if c == 0x25 then Detected(DoublePercent, 2)
            else Detected(NotSpecifier, 2)
  {
    NumberLetters(c);
    StringLetters(c);
    assert [0x25, c][1] == c;
    assert DetectFrom([0x25, c], 0, 2) == Detected(NotSpecifier, 2);
  }

  // The grammar

  datatype Piece =
    | Literal(chars: seq<Char>)                   // no percent sign
    | DoubledPercent
    | Conversion(flags: seq<Char>, letter: Char)
  {
    predicate Proper() {
      match this
      case Literal(chars) => forall c <- chars :: c != 0 && c != 0x25
      case DoubledPercent => true
      case Conversion(flags, letter) =>
        && (In(letter, NUMBER_LETTERS) || In(letter, STRING_LETTERS))
        && forall c <- flags :: c != 0 && c != 0x25 && !In(c, NUMBER_LETTERS) && !In(c, STRING_LETTERS)
    }

    function Chars(): seq<Char> {
      match this
      case Literal(chars) => chars
      case DoubledPercent => [0x25, 0x25]
      case Conversion(flags, letter) => [0x25] + flags + [letter]
    }

    /** One number for a number's letter; one string for a string's, with a number before it for a star right before the letter. */
    function Asked(): seq<Slot> {
      match this
      case Conversion(flags, letter) =>
        if In(letter, NUMBER_LETTERS) then [NumberSlot]
        else if flags != [] && flags[|flags| - 1] == '*' as int then [NumberSlot, TextSlot]
        else [TextSlot]
      case _ => []
    }
  }

  function Render(pieces: seq<Piece>): seq<Char> {
    if pieces == [] then [] else pieces[0].Chars() + Render(pieces[1..])
  }

  function AllAsked(pieces: seq<Piece>): seq<Slot> {
    if pieces == [] then [] else pieces[0].Asked() + AllAsked(pieces[1..])
  }

  lemma {:induction false} RenderNonZero(pieces: seq<Piece>)
    requires forall p <- pieces :: p.Proper()
    ensures forall c <- Render(pieces) :: c != 0
  {
    hide In;
    if pieces != [] {
      assert pieces[0].Proper();
      RenderNonZero(pieces[1..]);
      LettersNonZero(pieces[0]);
    }
  }

  lemma LettersNonZero(p: Piece)
    requires p.Proper()
    ensures forall c <- p.Chars() :: c != 0
  {
    if p.Conversion? {
      NumberLetters(p.letter);
      StringLetters(p.letter);
    }
  }

  /** Text is passed over. */
  lemma {:induction false} SkipLiteral(format: seq<Char>, symbol: nat, n: nat, count: nat)
    requires (forall c <- format :: c != 0) && symbol + n <= |format| && forall k | symbol <= k < symbol + n :: format[k] != 0x25
    ensures Slots(format, symbol, count) == Slots(format, symbol + n, count)
    decreases n
  {
    if n > 0 {
      SkipLiteral(format, symbol + 1, n - 1, count);
    }
  }

  /** What a conversion at `symbol` is detected as. */
  lemma ConversionDetected(format: seq<Char>, symbol: nat, p: Piece)
    requires (forall c <- format :: c != 0) && p.Conversion? && p.Proper()
    requires symbol + |p.Chars()| <= |format| && format[symbol..symbol + |p.Chars()|] == p.Chars()
    ensures format[symbol] == 0x25
    ensures var d := DetectFrom(format, symbol, 1);
            d.advance == |p.Chars()| && SlotsOf(d.specifier) == p.Asked()
  {
    hide In;
    var n := |p.flags|;
    var w := p.Chars();
    assert format[symbol] == format[symbol..symbol + |w|][0] == w[0];
    forall k | symbol < k <= symbol + n
      ensures format[k] == p.flags[k - symbol - 1] && !Stopper(format[k])
    {
      assert format[k] == format[symbol..symbol + |w|][k - symbol] == w[k - symbol] == p.flags[k - symbol - 1];
      assert p.flags[k - symbol - 1] in p.flags;
      NumberLetters(format[k]);
      StringLetters(format[k]);
    }
    assert format[symbol + 1 + n] == format[symbol..symbol + |w|][1 + n] == w[1 + n] == p.letter;
    NumberLetters(p.letter);
    StringLetters(p.letter);
    Disjoint(p.letter);
    var stop := DetectExact(format, symbol, 1);
    StopIsLetter(format, symbol, n, stop);
    if n > 0 {
      assert format[stop - 1] == p.flags[n - 1];
    }
  }

  lemma StopIsLetter(format: seq<Char>, symbol: nat, n: nat, stop: nat)
    requires symbol + 1 + n < |format| && symbol + 1 <= stop <= |format|
    requires forall k | symbol < k <= symbol + n :: !Stopper(format[k])
    requires Stopper(format[symbol + 1 + n]) && Stopper(SymbolAt(format, stop))
    requires forall k | symbol + 1 <= k < stop :: !Stopper(SymbolAt(format, k))
    ensures stop == symbol + 1 + n
  {
    hide Stopper;
    assert SymbolAt(format, symbol + 1 + n) == format[symbol + 1 + n];
  }

  lemma Disjoint(c: Char)
    ensures !(IsNonStringLetter(c) && IsStringLetter(c)) && (IsNonStringLetter(c) || IsStringLetter(c) ==> c != 0 && c != PERCENT)
  {
  }

  lemma DoubledDetected(format: seq<Char>, symbol: nat)
    requires (forall c <- format :: c != 0) && symbol + 2 <= |format| && format[symbol] == 0x25 && format[symbol + 1] == 0x25
    ensures DetectFrom(format, symbol, 1) == Detected(DoublePercent, 2) && SlotsOf(DoublePercent) == []
  {
  }

  /**
   * A format string asks for the arguments of its conversions, in order: text
   * and doubled percent signs ask for none.
   */
  lemma {:induction false} SlotsAreAsked(front: seq<Char>, pieces: seq<Piece>, count: nat)
    requires (forall c <- front :: c != 0) && (forall p <- pieces :: p.Proper()) && count + |AllAsked(pieces)| <= 16
    ensures forall c <- front + Render(pieces) :: c != 0
    ensures Slots(front + Render(pieces), |front|, count) == AllAsked(pieces)
    decreases |pieces|
  {
    hide Slots, Piece.Proper, Piece.Chars, Piece.Asked;
    RenderNonZero(pieces);
    var format := front + Render(pieces);
    if pieces == [] {
      assert format == front;
      NoSlotsAtEnd(format, count);
    } else {
      var p := pieces[0];
      assert p.Proper();
      LettersNonZero(p);
      assert format == (front + p.Chars()) + Render(pieces[1..]);
      SlotsAreAsked(front + p.Chars(), pieces[1..], count + |p.Asked()|);
      if count >= 16 {
        NoSlotsLeft(format, |front|, count);
      } else {
        assert format[|front|..|front| + |p.Chars()|] == p.Chars();
        PieceSlots(format, |front|, p, count);
      }
    }
  }

  lemma NoSlotsAtEnd(format: seq<Char>, count: nat)
    requires forall c <- format :: c != 0
    ensures Slots(format, |format|, count) == []
  {
  }

  lemma NoSlotsLeft(format: seq<Char>, symbol: nat, count: nat)
    requires (forall c <- format :: c != 0) && symbol <= |format| && count >= 16
    ensures Slots(format, symbol, count) == []
  {
  }

  lemma PieceSlots(format: seq<Char>, symbol: nat, p: Piece, count: nat)
    requires (forall c <- format :: c != 0) && p.Proper() && count < 16 && count + |p.Asked()| <= 16
    requires symbol + |p.Chars()| <= |format| && format[symbol..symbol + |p.Chars()|] == p.Chars()
    ensures Slots(format, symbol, count) == p.Asked() + Slots(format, symbol + |p.Chars()|, count + |p.Asked()|)
  {
    hide In, DetectFrom, SlotsOf;
    var w := p.Chars();
    match p
    case Literal(chars) =>
      forall k | symbol <= k < symbol + |w|
        ensures format[k] != 0x25
      {
        assert format[k] == format[symbol..symbol + |w|][k - symbol] == chars[k - symbol];
        assert chars[k - symbol] in chars;
      }
      SkipLiteral(format, symbol, |w|, count);
    case DoubledPercent =>
      assert format[symbol] == format[symbol..symbol + 2][0] && format[symbol + 1] == format[symbol..symbol + 2][1];
      DoubledDetected(format, symbol);
      DetectedSlots(format, symbol, count, []);
    case Conversion(_, _) =>
      ConversionDetected(format, symbol, p);
      DetectedSlots(format, symbol, count, p.Asked());
  }

  lemma DetectedSlots(format: seq<Char>, symbol: nat, count: nat, asked: seq<Slot>)
    requires (forall c <- format :: c != 0) && symbol < |format| && format[symbol] == 0x25 && count < 16 && count + |asked| <= 16
    requires SlotsOf(DetectFrom(format, symbol, 1).specifier) == asked
    ensures Slots(format, symbol, count) == asked + Slots(format, symbol + DetectFrom(format, symbol, 1).advance, count + |asked|)
  {
    hide DetectFrom, SlotsOf;
  }
}
