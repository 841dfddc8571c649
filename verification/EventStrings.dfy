// NUL-terminated strings as the writers find them in the caller's memory, and
// the chunks they are copied into.
module EventStrings {
  import opened Qwords
  import opened Memory

  /**
   * A non-null string argument: its characters, the characters that follow the
   * terminating zero in memory (zero where not listed) and its address.
   */
  datatype CString = CString(ansi: bool, chars: seq<Char>, tail: seq<Char>, address: nat)
  {
    predicate Valid() {
      && (forall c <- chars :: c != 0)
      && (ansi ==> (forall c <- chars :: c < 256) && (forall c <- tail :: c < 256))
    }

    /** How many characters fit into one qword. */
    function Lanes(): nat {
      if ansi then 8 else 4
    }

    /** Character `k` of the memory at the string's address. */
    function MemChar(k: nat): Char {
      if k < |chars| then chars[k]
      else if |chars| < k <= |chars| + |tail| then tail[k - |chars| - 1]
      else 0
    }

    function MemByte(b: nat): Octet {
      if ansi then MemChar(b) % 256
      else if b % 2 == 0 then MemChar(b / 2) % 256
      else MemChar(b / 2) / 256
    }

    function ChunkBytes(i: nat): (r: seq<Octet>)
      ensures |r| == 8 && forall j | 0 <= j < 8 :: r[j] == MemByte(8 * i + j)
    {
      seq<Octet>(8, j requires 0 <= j < 8 => MemByte(8 * i + j))
    }

    /** Qword `i` of the memory at the string's address. */
    function Chunk(i: nat): Qword {
      PackQword(ChunkBytes(i))
    }

    /** Number of qwords up to and including the one that holds the terminator. */
    function ChunkCount(): nat {
      |chars| / Lanes() + 1
    }

    function Chunks(n: nat): (r: Words)
      ensures |r| == n
    {
      seq(n, i requires 0 <= i < n => Chunk(i))
    }

    /** The same string followed by zeros only. */
    function Clean(): CString {
      this.(tail := [])
    }

    /** The first `n` qwords of the string are stored at `p`. */
    predicate StoredAt(mem: Words, p: nat, n: nat) {
      p + n <= |mem| && forall i | 0 <= i < n :: mem[p + i] == Chunk(i)
    }

    /** No qword of the string reads as the end marker. */
    predicate NoMarker() {
      forall i | 0 <= i < ChunkCount() :: Chunk(i) != BLOCK_END_MARKER
    }
  }

  lemma ChunkByte(s: CString, i: nat, j: nat)
    requires j < 8
    ensures Byte(s.Chunk(i), j) == s.MemByte(8 * i + j)
  {
    PackByte(s.ChunkBytes(i), j);
  }

  lemma StoredByte(s: CString, mem: Words, p: nat, n: nat, b: nat)
    requires s.StoredAt(mem, p, n) && b < 8 * n
    ensures ByteAt(mem, 8 * p + b) == s.MemByte(b)
  {
    var i, j := b / 8, b % 8;
    assert (8 * p + b) / 8 == p + i && (8 * p + b) % 8 == j;
    ChunkByte(s, i, j);
    assert mem[p + i] == s.Chunk(i);
  }

  lemma AnsiChar(s: CString, k: nat)
    requires s.Valid() && s.ansi
    ensures s.MemByte(k) == s.MemChar(k)
  {
    assert k < |s.chars| ==> s.chars[k] in s.chars;
    assert |s.chars| < k <= |s.chars| + |s.tail| ==> s.MemChar(k) in s.tail;
  }

  lemma StoredChar(s: CString, mem: Words, p: nat, n: nat, k: nat)
    requires s.Valid() && s.StoredAt(mem, p, n) && k < n * s.Lanes()
    ensures CharAt(mem, 8 * p + Span(s.ansi, k), s.ansi) == s.MemChar(k)
  {
    if s.ansi {
      AnsiChar(s, k);
      StoredByte(s, mem, p, n, k);
    } else {
      StoredByte(s, mem, p, n, 2 * k);
      StoredByte(s, mem, p, n, 2 * k + 1);
    }
  }
}
