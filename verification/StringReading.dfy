// Reading one string out of an event block: the Reader cursor, the search for
// the string's end, and the in-place repair of strings that were cut short.
module StringReading {
  import opened Wrappers
  import opened Qwords
  import opened Memory
  import opened EventFormat

  /** FindStringEnd: the byte after the terminator, or where the cursor met the end. */
  function StringEnd(mem: Words, b: nat, limit: int, ansi: bool): (e: nat)
    ensures b <= e
    decreases 8 * limit - b
  {
    if AtEnd(mem, b / 8, limit) then b
    else if CharAt(mem, b, ansi) == 0 then b + CharSize(ansi)
    else StringEnd(mem, b + CharSize(ansi), limit, ansi)
  }

  /**
   * What ReadString reports: the length and the bytes consumed as it computes
   * them, and the byte at which the characters start; `raw` is None when it
   * points to the constant empty string instead.
   */
  datatype SavedString = SavedString(length: int, bytesUsed: nat, isAnsi: bool, raw: Option<nat>)

  const NOTHING_READ := SavedString(0, 0, false, None)

  datatype StringStart = NoString | BadString(bytesUsed: nat) | Starts(isAnsi: bool, chunkSize: nat, at: nat)

  /** Where the string at qword `source` has its first character. */
  function LocateString(mem: Words, source: nat, limit: int, metadata: Option<Octet>): (r: StringStart)
    ensures r.Starts? ==> 8 * source <= r.at && r.chunkSize in {8, 16} && !AtEnd(mem, r.at / 8, limit)
  {
    if source >= limit then NoString
    else
      match metadata
      case Some(m) =>
        if AtEnd(mem, source, limit) then NoString else Starts((m / 2) % 2 == 1, 8, 8 * source)
      case None =>
        var q := Get(mem, source);
        var info := DecodeStringInfo(q);
        if q == 0 then NoString
        else if !info.wellFormed || (info.chunkSize != 8 && info.chunkSize != 16) || info.alignment >= info.chunkSize then NoString
        else if AtEnd(mem, source + 1, limit) then NoString
        else
          var at := 8 * (source + 1) + info.alignment;
          if AtEnd(mem, at / 8, limit) then BadString(at - 8 * source) else Starts(info.isAnsi, info.chunkSize, at)
  }

  /** Bytes skipped so that the cursor is a whole number of chunks past the string's start. */
  function ChunkPadding(length: nat, chunkSize: nat): nat
    requires chunkSize in {8, 16}
  {
    if length % chunkSize == 0 then 0 else chunkSize - length % chunkSize
  }

  datatype StringRead = StringRead(info: SavedString, mem: Words)

  /** What is read, and the memory left behind, when the first character is at byte `at`. */
  function CharsReadSpec(mem: Words, source: nat, at: nat, limit: int, chunkSize: nat, ansi: bool): (r: StringRead)
    requires chunkSize in {8, 16} && 8 * source <= at && !AtEnd(mem, at / 8, limit)
    ensures |r.mem| == |mem|
  {
    var end := StringEnd(mem, at, limit, ansi);
    StringEndPast(mem, at, limit, ansi);
    var used := end + ChunkPadding(end - at, chunkSize) - 8 * source;
    var repaired := if ByteAt(mem, end) != 0 then StoreNul(mem, end - CharSize(ansi), ansi) else mem;
    StringRead(SavedString((end - at - 1) * CharSize(ansi), used, ansi, Some(at)), repaired)
  }

  /** ReadString: what is reported and the memory it leaves behind. */
  function ReadStringSpec(mem: Words, source: nat, limit: int, metadata: Option<Octet>): (r: StringRead)
    ensures |r.mem| == |mem|
  {
    match LocateString(mem, source, limit, metadata)
    case NoString => StringRead(NOTHING_READ, mem)
    case BadString(used) => StringRead(NOTHING_READ.(bytesUsed := used), mem)
    case Starts(ansi, chunkSize, at) => CharsReadSpec(mem, source, at, limit, chunkSize, ansi)
  }

  lemma StringEndPast(mem: Words, b: nat, limit: int, ansi: bool)
    requires !AtEnd(mem, b / 8, limit)
    ensures StringEnd(mem, b, limit, ansi) >= b + CharSize(ansi)
  {
  }

  /** The qword of `words` at `p`; positions outside the array read as zero. */
  function WordAt(words: array<Qword>, p: nat): (q: Qword)
    reads words
    ensures q == Get(words[..], p)
  {
    if p < words.Length then words[p] else 0
  }

  /** A cursor over a block that stops at the end marker. */
  class Reader {
    const words: array<Qword>
    const begin: nat
    const end: int
    var pos: nat
    var byteIndex: nat

    constructor (words: array<Qword>, begin: nat, end: int)
      ensures this.words == words && this.begin == begin && this.end == end
      ensures pos == begin && byteIndex == 0
    {
      this.words, this.begin, this.end := words, begin, end;
      pos, byteIndex := begin, 0;
    }

    ghost predicate Valid()
      reads this
    {
      byteIndex < 8
    }

    /** The cursor as a byte position: GetPos. */
    function Pos(): nat
      reads this
    {
      8 * pos + byteIndex
    }

    predicate IsAtEnd()
      reads this, words
      ensures IsAtEnd() == AtEnd(words[..], pos, end)
    {
      pos >= end || WordAt(words, pos) == BLOCK_END_MARKER
    }

    method SkipBytes(bytes: nat)
      requires Valid()
      modifies this
      ensures Valid() && Pos() == old(Pos()) + bytes
    {
      byteIndex := byteIndex + bytes;
      while byteIndex >= 8
        invariant Pos() == old(Pos()) + bytes
      {
        pos := pos + 1;
        byteIndex := byteIndex - 8;
      }
    }

    function PeekByte(offset: nat): (b: Octet)
      reads this, words
      ensures b == ByteAt(words[..], Pos() + offset)
    {
      var b := Pos() + offset;
      Byte(WordAt(words, b / 8), b % 8)
    }

    method ReadChar(ansi: bool) returns (c: Char)
      requires Valid()
      modifies this
      ensures Valid() && Pos() == old(Pos()) + CharSize(ansi)
      ensures c == CharAt(words[..], old(Pos()), ansi)
    {
      c := if ansi then PeekByte(0) else Join(PeekByte(0), PeekByte(1));
      SkipBytes(CharSize(ansi));
    }

    method ReadQword() returns (q: Qword)
      requires Valid() && byteIndex == 0
      modifies this
      ensures Valid() && byteIndex == 0 && pos == old(pos) + 1
      ensures q == Get(words[..], old(pos))
    {
      q := WordAt(words, pos);
      SkipBytes(8);
    }

    function BytesUsed(): int
      reads this
    {
      (pos - begin) * 8 + byteIndex
    }
  }

  method FindStringEnd(r: Reader, ansi: bool) returns (end: nat)
    requires r.Valid()
    modifies r
    ensures r.Valid() && end == r.Pos()
    ensures end == StringEnd(r.words[..], old(r.Pos()), r.end, ansi)
  {
    hide CharAt, AtEnd;
    var found := false;
    ghost var mem := r.words[..];
    ghost var goal := StringEnd(mem, r.Pos(), r.end, ansi);
    while !found && !r.IsAtEnd()
      invariant r.Valid() && r.words[..] == mem
      invariant goal == if found then r.Pos() else StringEnd(mem, r.Pos(), r.end, ansi)
      decreases !found, 8 * r.end - r.Pos()
    {
      var c := r.ReadChar(ansi);
      found := c == 0;
    }
    end := r.Pos();
  }

  /** Stores a byte through a char pointer; a store outside the array is dropped. */
  method PokeByte(words: array<Qword>, b: nat, v: Octet)
    modifies words
    ensures words[..] == StoreByteAt(old(words[..]), b, v)
  {
    if b / 8 < words.Length {
      words[b / 8] := StoreQwordByte(words[b / 8], b % 8, v);
    }
  }

  method PokeNul(words: array<Qword>, b: nat, ansi: bool)
    modifies words
    ensures words[..] == StoreNul(old(words[..]), b, ansi)
  {
    PokeByte(words, b, 0);
    if !ansi {
      PokeByte(words, b + 1, 0);
    }
  }

  method ReadString(words: array<Qword>, source: nat, limit: int, metadata: Option<Octet>) returns (info: SavedString)
    modifies words
    ensures StringRead(info, words[..]) == ReadStringSpec(old(words[..]), source, limit, metadata)
  {
    hide CharsReadSpec, AtEnd, DecodeStringInfo;
    info := NOTHING_READ;
    if source >= limit {
      return;
    }
    var r := new Reader(words, source, limit);
    var alignment, copyChunkSize, isAnsi := 0, 0, false;
    match metadata {
      case Some(m) =>
        isAnsi := (m / 2) % 2 == 1;
        copyChunkSize := 8;
      case None =>
        var stringInfo := r.ReadQword();
        if stringInfo == 0 {
          return;
        }
        var decoded := DecodeStringInfo(stringInfo);
        alignment, copyChunkSize, isAnsi := decoded.alignment, decoded.chunkSize, decoded.isAnsi;
        if !decoded.wellFormed || (copyChunkSize != 8 && copyChunkSize != 16) || alignment >= copyChunkSize {
          return;
        }
    }
    if r.IsAtEnd() {
      return;
    }
    r.SkipBytes(alignment);
    if r.IsAtEnd() {
      return NOTHING_READ.(bytesUsed := r.BytesUsed());
    }
    var stringBegin := r.Pos();
    assert LocateString(words[..], source, limit, metadata) == Starts(isAnsi, copyChunkSize, r.Pos());
    info := ReadChars(words, r, copyChunkSize, isAnsi);
  }

  /** The part of ReadString that follows once the first character is found. */
  method ReadChars(words: array<Qword>, r: Reader, copyChunkSize: nat, isAnsi: bool) returns (info: SavedString)
    requires r.Valid() && r.words == words && copyChunkSize in {8, 16} && r.begin * 8 <= r.Pos()
    requires !AtEnd(words[..], r.Pos() / 8, r.end)
    modifies words, r
    ensures StringRead(info, words[..]) == CharsReadSpec(old(words[..]), r.begin, old(r.Pos()), r.end, copyChunkSize, isAnsi)
  {
    hide StringEnd, StoreNul, AtEnd, Byte;
    var stringBegin := r.Pos();
    StringEndPast(words[..], stringBegin, r.end, isAnsi);
    var stringEnd := FindStringEnd(r, isAnsi);
    var stringLen := stringEnd - stringBegin;
    if stringLen % copyChunkSize != 0 {
      r.SkipBytes(copyChunkSize - stringLen % copyChunkSize);
    }
    if Byte(WordAt(words, stringEnd / 8), stringEnd % 8) != 0 {
      PokeNul(words, stringEnd - CharSize(isAnsi), isAnsi);
    }
    info := SavedString((stringLen - 1) * CharSize(isAnsi), r.BytesUsed(), isAnsi, Some(stringBegin));
  }
}
