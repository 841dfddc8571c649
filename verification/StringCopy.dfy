// Copying strings into an event buffer, a character at a time or a whole qword
// at a time.
module StringCopy {
  import opened Qwords
  import opened Memory
  import opened EventStrings

  /** How many of `n` qwords fit from `d` to `limit`. */
  function Room(d: nat, limit: nat, n: nat): nat {
    if d >= limit then 0 else if limit - d < n then limit - d else n
  }

  /** `payload` was written at `d`, cut at `limit`, the cursor is now `d'`, and nothing else changed. */
  ghost predicate Emitted(before: Words, after: Words, d: nat, limit: nat, payload: Words, d': nat) {
    && |after| == |before| && d' == d + Room(d, limit, |payload|)
    && forall i | 0 <= i < |before| :: after[i] == if d <= i < d' then payload[i - d] else before[i]
  }

  lemma EmittedThen(m0: Words, m1: Words, m2: Words, d0: nat, d1: nat, d2: nat, limit: nat, p: Words, q: Words)
    requires d0 <= limit && Emitted(m0, m1, d0, limit, p, d1) && Emitted(m1, m2, d1, limit, q, d2)
    ensures Emitted(m0, m2, d0, limit, p + q, d2)
  {
  }

  lemma {:induction false} PackZeros(b: seq<Octet>, n: nat)
    requires n <= |b| && forall i | n <= i < |b| :: b[i] == 0
    ensures Pack(b[..n]) == Pack(b)
    decreases |b| - n
  {
    if n == |b| {
      assert b[..n] == b;
    } else {
      PackSnoc(b[..n], b[n]);
      assert b[..n] + [b[n]] == b[..n + 1];
      PackZeros(b, n + 1);
    }
  }

  /** What `x |= c << shift` adds when the first `lane` characters of the chunk are in place. */
  lemma PackLane(s: CString, i: nat, lane: nat)
    requires s.Valid() && lane < s.Lanes()
    ensures Pack(s.ChunkBytes(i)[..Span(s.ansi, lane + 1)])
         == Pack(s.ChunkBytes(i)[..Span(s.ansi, lane)]) + s.MemChar(s.Lanes() * i + lane) * Pow256(Span(s.ansi, lane))
  {
    hide Pack, Pow256;
    var b := s.ChunkBytes(i);
    if s.ansi {
      PackSnoc(b[..lane], b[lane]);
      assert b[..lane] + [b[lane]] == b[..lane + 1];
      AnsiChar(s, 8 * i + lane);
    } else {
      WideBytes(s, i, lane);
      PackTwo(b, 2 * lane);
    }
  }

  lemma WideBytes(s: CString, i: nat, j: nat)
    requires !s.ansi && j < 4
    ensures s.ChunkBytes(i)[2 * j] == s.MemChar(4 * i + j) % 256
    ensures s.ChunkBytes(i)[2 * j + 1] == s.MemChar(4 * i + j) / 256
  {
    assert (8 * i + 2 * j) / 2 == 4 * i + j && (8 * i + 2 * j + 1) / 2 == 4 * i + j;
  }

  lemma PackTwo(b: seq<Octet>, n: nat)
    requires n + 2 <= |b|
    ensures Pack(b[..n + 2]) == Pack(b[..n]) + Join(b[n], b[n + 1]) * Pow256(n)
  {
    hide Pack;
    PackSnoc(b[..n], b[n]);
    assert b[..n] + [b[n]] == b[..n + 1];
    PackSnoc(b[..n + 1], b[n + 1]);
    assert b[..n + 1] + [b[n + 1]] == b[..n + 2];
    Distribute(b[n], b[n + 1], Pow256(n));
  }

  lemma Distribute(lo: int, hi: int, p: int)
    ensures (lo + 256 * hi) * p == lo * p + hi * (256 * p)
  {
  }

  /** The first zero character of the memory is the terminator. */
  lemma ZeroIsTerminator(s: CString, k: nat)
    requires s.Valid() && k <= |s.chars|
    ensures s.MemChar(k) == 0 <==> k == |s.chars|
  {
    assert k < |s.chars| ==> s.chars[k] in s.chars;
  }

  /** One round of the slow copy: the characters of chunk `i` up to a terminator. */
  method PackChars(s: CString, i: nat) returns (x: nat, terminated: bool)
    requires s.Valid() && i < s.ChunkCount()
    ensures x == s.Clean().Chunk(i)
    ensures terminated <==> i == s.ChunkCount() - 1
  {
    hide Pow256, PackQword, Pack;
    var z := s.Clean();
    PackIsChunk(z, i);
    var argument := z.Lanes() * i;
    x := 0;
    var lane := 0;
    while lane < z.Lanes()
      invariant lane <= z.Lanes() && argument + lane <= |s.chars|
      invariant x == Pack(z.ChunkBytes(i)[..Span(z.ansi, lane)])
    {
      var c := z.MemChar(argument + lane);
      ZeroIsTerminator(z, argument + lane);
      if c == 0 {
        ZeroRest(z, i, lane);
        PackZeros(z.ChunkBytes(i), Span(z.ansi, lane));
        return x, true;
      }
      PackLane(z, i, lane);
      x := x + c * Pow256(Span(z.ansi, lane));
      lane := lane + 1;
    }
    assert z.ChunkBytes(i)[..8] == z.ChunkBytes(i);
    terminated := false;
  }

  lemma PackIsChunk(s: CString, i: nat)
    ensures Pack(s.ChunkBytes(i)) == s.Chunk(i) && Pack(s.ChunkBytes(i)[..0]) == 0
  {
  }

  lemma ZeroRest(z: CString, i: nat, lane: nat)
    requires z.Valid() && z.tail == [] && lane < z.Lanes() && z.Lanes() * i + lane == |z.chars|
    ensures forall j | Span(z.ansi, lane) <= j < 8 :: z.ChunkBytes(i)[j] == 0
  {
  }

  /** PIXCopyEventStringArgumentSlow, for both character types. */
  method CopyEventStringArgumentSlow(words: array<Qword>, destination: nat, limit: nat, s: CString) returns (d: nat)
    requires s.Valid() && limit <= words.Length
    modifies words
    ensures Emitted(old(words[..]), words[..], destination, limit, s.Clean().Chunks(s.ChunkCount()), d)
  {
    hide PackQword;
    d := destination;
    var i := 0;
    ghost var payload := s.Clean().Chunks(s.ChunkCount());
    while d < limit
      invariant i < s.ChunkCount() && d == destination + i && (i > 0 ==> d <= limit)
      invariant forall k | 0 <= k < words.Length :: words[k] == if destination <= k < d then payload[k - destination] else old(words[k])
    {
      var x, terminated := PackChars(s, i);
      words[d] := x;
      d := d + 1;
      if terminated {
        return;
      }
      i := i + 1;
    }
  }

  /** The test of the fast copies: some character of the qword is zero. */
  predicate IsTerminated(q: Qword, ansi: bool) {
    if ansi then HasZeroByteMask(Word(q))
    else q / 0x1_0000_0000_0000 == 0 || (q / 0x1_0000_0000) % 0x1_0000 == 0 || (q / 0x1_0000) % 0x1_0000 == 0 || q % 0x1_0000 == 0
  }

  lemma ByteUp(q: nat, a: nat, i: nat)
    requires a == q / 256
    ensures Byte(q, i + 1) == Byte(a, i)
  {
  }

  lemma ByteUp2(q: nat, h: nat, i: nat)
    requires h == q / 0x1_0000
    ensures Byte(q, i + 2) == Byte(h, i)
  {
    hide Byte;
    ByteUp(q, q / 256, i + 1);
    ByteUp(q / 256, h, i);
  }

  lemma LowPart(h: nat, r: nat)
    requires r < 0x1_0000
    ensures (0x1_0000 * h + r) % 0x1_0000 == r
  {
  }

  lemma LowHalf(q: nat)
    ensures q % 0x1_0000 == Join(Byte(q, 0), Byte(q, 1))
  {
    var a := q / 256;
    var h, m, l := a / 256, a % 256, q % 256;
    assert Byte(q, 0) == l && Byte(q, 1) == Byte(a, 0) == m;
    LowPart(h, 256 * m + l);
    assert q == 256 * a + l && a == 256 * h + m;
    assert q == 0x1_0000 * h + (256 * m + l);
  }

  lemma WideHalves(q: Qword)
    ensures q % 0x1_0000 == Join(Byte(q, 0), Byte(q, 1))
    ensures (q / 0x1_0000) % 0x1_0000 == Join(Byte(q, 2), Byte(q, 3))
    ensures (q / 0x1_0000_0000) % 0x1_0000 == Join(Byte(q, 4), Byte(q, 5))
    ensures q / 0x1_0000_0000_0000 == Join(Byte(q, 6), Byte(q, 7))
  {
    hide Byte, Join;
    var h := q / 0x1_0000;
    var g := h / 0x1_0000;
    var f := g / 0x1_0000;
    assert q / 0x1_0000_0000 == g && q / 0x1_0000_0000_0000 == f && f < 0x1_0000;
    LowHalf(q);
    LowHalf(h);
    LowHalf(g);
    LowHalf(f);
    ByteUp2(q, h, 0); ByteUp2(q, h, 1); ByteUp2(q, h, 2); ByteUp2(q, h, 3); ByteUp2(q, h, 4); ByteUp2(q, h, 5);
    ByteUp2(h, g, 0); ByteUp2(h, g, 1); ByteUp2(h, g, 2); ByteUp2(h, g, 3);
    ByteUp2(g, f, 0); ByteUp2(g, f, 1);
  }

  /** The fast copies stop at the chunk that holds the terminator and at no earlier one. */
  lemma TerminatedExact(s: CString, i: nat)
    requires s.Valid() && i < s.ChunkCount()
    ensures IsTerminated(s.Chunk(i), s.ansi) <==> i == s.ChunkCount() - 1
  {
    if s.ansi {
      TerminatedAnsi(s, i);
    } else {
      TerminatedWide(s, i);
    }
  }

  lemma TerminatedAnsi(s: CString, i: nat)
    requires s.Valid() && s.ansi && i < s.ChunkCount()
    ensures HasZeroByteMask(Word(s.Chunk(i))) <==> i == s.ChunkCount() - 1
  {
    hide HasZeroByteMask, Word;
    var q := s.Chunk(i);
    ZeroByteMaskExact(q);
    forall j: nat | j < 8
      ensures Byte(q, j) == s.MemChar(8 * i + j)
    {
      ChunkByte(s, i, j);
      AnsiChar(s, 8 * i + j);
    }
    if i == s.ChunkCount() - 1 {
      ZeroIsTerminator(s, |s.chars|);
      assert Byte(q, |s.chars| - 8 * i) == 0;
    } else {
      forall j: nat | j < 8
        ensures Byte(q, j) != 0
      {
        ZeroIsTerminator(s, 8 * i + j);
      }
    }
  }

  lemma TerminatedWide(s: CString, i: nat)
    requires s.Valid() && !s.ansi && i < s.ChunkCount()
    ensures IsTerminated(s.Chunk(i), false) <==> i == s.ChunkCount() - 1
  {
    hide Byte, Join;
    WideHalves(s.Chunk(i));
    WideChunkChar(s, i, 0);
    WideChunkChar(s, i, 1);
    WideChunkChar(s, i, 2);
    WideChunkChar(s, i, 3);
    var k := 4 * i;
    if i < s.ChunkCount() - 1 {
      ZeroIsTerminator(s, k);
      ZeroIsTerminator(s, k + 1);
      ZeroIsTerminator(s, k + 2);
      ZeroIsTerminator(s, k + 3);
    } else {
      ZeroIsTerminator(s, |s.chars|);
      assert |s.chars| == k || |s.chars| == k + 1 || |s.chars| == k + 2 || |s.chars| == k + 3;
    }
  }

  lemma WideChunkChar(s: CString, i: nat, j: nat)
    requires !s.ansi && j < 4
    ensures Join(Byte(s.Chunk(i), 2 * j), Byte(s.Chunk(i), 2 * j + 1)) == s.MemChar(4 * i + j)
  {
    ChunkByte(s, i, 2 * j);
    ChunkByte(s, i, 2 * j + 1);
    WideBytes(s, i, j);
  }

  /** PIXCopyEventStringArgumentFast, for both character types. */
  method CopyEventStringArgumentFast(words: array<Qword>, destination: nat, limit: nat, s: CString) returns (d: nat)
    requires s.Valid() && limit <= words.Length
    modifies words
    ensures Emitted(old(words[..]), words[..], destination, limit, s.Chunks(s.ChunkCount()), d)
  {
    hide IsTerminated, PackQword;
    d := destination;
    var i := 0;
    ghost var payload := s.Chunks(s.ChunkCount());
    while d < limit
      invariant i < s.ChunkCount() && d == destination + i && (i > 0 ==> d <= limit)
      invariant forall k | 0 <= k < words.Length :: words[k] == if destination <= k < d then payload[k - destination] else old(words[k])
    {
      var qword := s.Chunk(i);
      words[d] := qword;
      d := d + 1;
      TerminatedExact(s, i);
      if IsTerminated(qword, s.ansi) {
        break;
      }
      i := i + 1;
    }
  }

  /** The string as the writers copy it: with the memory after it only when the fast copy is taken. */
  function Copied(s: CString, blockCopy: bool): (r: CString)
    ensures s.Valid() ==> r.Valid()
    ensures r.chars == s.chars && r.ansi == s.ansi
  {
    if blockCopy && s.address % 8 == 0 then s else s.Clean()
  }

  /**
   * The fast copy refines the slow one: as many qwords, and equal bytes up to
   * and including the terminator.
   */
  lemma FastRefinesSlow(s: CString, n: nat, b: nat)
    requires s.Valid() && n <= s.ChunkCount()
    requires b < 8 * n && b < Span(s.ansi, |s.chars| + 1)
    ensures |s.Chunks(s.ChunkCount())| == |s.Clean().Chunks(s.Clean().ChunkCount())|
    ensures ByteAt(s.Chunks(n), b) == ByteAt(s.Clean().Chunks(n), b)
  {
    hide ByteAt;
    StoredByte(s, s.Chunks(n), 0, n, b);
    StoredByte(s.Clean(), s.Clean().Chunks(n), 0, n, b);
    SameBytes(s, b);
  }

  lemma SameBytes(s: CString, b: nat)
    requires b < Span(s.ansi, |s.chars| + 1)
    ensures s.MemByte(b) == s.Clean().MemByte(b)
  {
  }

  /** What lies behind a string's terminator reaches the block exactly if qwords are copied from an address that is a multiple of eight. */
  lemma CopiedTail(s: CString, blockCopy: bool)
    ensures Copied(s, blockCopy).tail == if blockCopy && s.address % 8 == 0 then s.tail else []
  {
  }
}
