// A stretch of qwords read and written a byte or a character at a time, as
// the decoder does through its casts to char and wchar_t pointers.
module Memory {
  import opened Qwords

  type Words = seq<Qword>

  /** A char (below 256) or a wchar_t. */
  type Char = c: int | 0 <= c < 0x1_0000

  /** The qword at `p`; positions outside the stretch read as zero. */
  function Get(mem: Words, p: int): Qword {
    if 0 <= p < |mem| then mem[p] else 0
  }

  function ByteAt(mem: Words, b: nat): Octet {
    Byte(Get(mem, b / 8), b % 8)
  }

  function CharSize(ansi: bool): nat {
    if ansi then 1 else 2
  }

  /** Bytes taken by `k` characters. */
  function Span(ansi: bool, k: nat): nat {
    if ansi then k else 2 * k
  }

  function Join(lo: Octet, hi: Octet): Char {
    lo + 256 * hi
  }

  /** The char or wchar_t stored at byte `b`. */
  function CharAt(mem: Words, b: nat, ansi: bool): Char {
    if ansi then ByteAt(mem, b) else Join(ByteAt(mem, b), ByteAt(mem, b + 1))
  }

  function StoreByteAt(mem: Words, b: nat, v: Octet): (r: Words)
    ensures |r| == |mem|
    ensures forall p | 0 <= p < |mem| && p != b / 8 :: r[p] == mem[p]
  {
    if b / 8 < |mem| then mem[b / 8 := StoreQwordByte(mem[b / 8], b % 8, v)] else mem
  }

  lemma StoreByteAtBytes(mem: Words, b: nat, v: Octet, c: nat)
    ensures ByteAt(StoreByteAt(mem, b, v), c) == if c == b && b / 8 < |mem| then v else ByteAt(mem, c)
  {
    if b / 8 < |mem| && b / 8 == c / 8 {
      StoreByteBytes(mem[b / 8], b % 8, v, c % 8);
    }
  }

  lemma StoreSameByteAt(mem: Words, b: nat)
    ensures StoreByteAt(mem, b, ByteAt(mem, b)) == mem
  {
    StoreSameByte(Get(mem, b / 8), b % 8);
  }

  /** The stretch after a NUL char or wchar_t is stored at byte `b`. */
  function StoreNul(mem: Words, b: nat, ansi: bool): (r: Words)
    ensures |r| == |mem|
  {
    if ansi then StoreByteAt(mem, b, 0) else StoreByteAt(StoreByteAt(mem, b, 0), b + 1, 0)
  }

  lemma StoreNulBytes(mem: Words, b: nat, ansi: bool, c: nat)
    requires (b + CharSize(ansi) - 1) / 8 < |mem|
    ensures ByteAt(StoreNul(mem, b, ansi), c) == if b <= c < b + CharSize(ansi) then 0 else ByteAt(mem, c)
  {
    StoreByteAtBytes(mem, b, 0, c);
    if !ansi {
      StoreByteAtBytes(StoreByteAt(mem, b, 0), b + 1, 0, c);
    }
  }

  /** Storing a terminator over a terminator changes nothing. */
  lemma StoreNulOverNul(mem: Words, b: nat, ansi: bool)
    requires CharAt(mem, b, ansi) == 0
    ensures StoreNul(mem, b, ansi) == mem
  {
    StoreSameByteAt(mem, b);
    if !ansi {
      StoreSameByteAt(mem, b + 1);
    }
  }

  /** The characters of the NUL-terminated string that starts at byte `b`. */
  function CStringAt(mem: Words, b: nat, ansi: bool): (s: seq<Char>)
    decreases 8 * |mem| - b
  {
    if b / 8 >= |mem| || CharAt(mem, b, ansi) == 0 then []
    else [CharAt(mem, b, ansi)] + CStringAt(mem, b + CharSize(ansi), ansi)
  }

  /** Reader::IsAtEnd at qword `p`: the limit or the end marker is reached. */
  predicate AtEnd(mem: Words, p: nat, limit: int) {
    p >= limit || Get(mem, p) == BLOCK_END_MARKER
  }
}
