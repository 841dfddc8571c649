// What the decoder reads where a writer put a string, whole or cut.
module StringRoundTrip {
  import opened Wrappers
  import opened Qwords
  import opened Memory
  import opened EventFormat
  import opened EventStrings
  import opened StringReading
  import opened EventReading

  /** The characters `t` lie at byte `b` and none of the qwords they occupy stops the scan. */
  ghost predicate TextLies(mem: Words, b: nat, limit: int, ansi: bool, t: seq<Char>) {
    forall k | 0 <= k < |t| ::
      CharAt(mem, b + Span(ansi, k), ansi) == t[k] && t[k] != 0 && !AtEnd(mem, (b + Span(ansi, k)) / 8, limit)
  }

  lemma {:induction false} ScanText(mem: Words, b: nat, limit: int, ansi: bool, t: seq<Char>, k: nat)
    requires k <= |t| && TextLies(mem, b, limit, ansi, t)
    ensures StringEnd(mem, b + Span(ansi, k), limit, ansi) == StringEnd(mem, b + Span(ansi, |t|), limit, ansi)
    decreases |t| - k
  {
    hide CharAt, AtEnd;
    if k < |t| {
      assert CharAt(mem, b + Span(ansi, k), ansi) == t[k];
      ScanText(mem, b, limit, ansi, t, k + 1);
      assert b + Span(ansi, k) + CharSize(ansi) == b + Span(ansi, k + 1);
    }
  }

  lemma ScanStops(mem: Words, b: nat, limit: int, ansi: bool)
    ensures AtEnd(mem, b / 8, limit) ==> StringEnd(mem, b, limit, ansi) == b
    ensures !AtEnd(mem, b / 8, limit) && CharAt(mem, b, ansi) == 0 ==> StringEnd(mem, b, limit, ansi) == b + CharSize(ansi)
  {
  }

  lemma {:induction false} TextAt(mem: Words, b: nat, ansi: bool, t: seq<Char>, k: nat)
    requires k <= |t|
    requires forall i | 0 <= i < |t| :: CharAt(mem, b + Span(ansi, i), ansi) == t[i] && t[i] != 0 && (b + Span(ansi, i)) / 8 < |mem|
    requires CharAt(mem, b + Span(ansi, |t|), ansi) == 0
    ensures CStringAt(mem, b + Span(ansi, k), ansi) == t[k..]
    decreases |t| - k
  {
    hide CharAt;
    if k < |t| {
      assert CharAt(mem, b + Span(ansi, k), ansi) == t[k];
      TextAt(mem, b, ansi, t, k + 1);
      assert b + Span(ansi, k) + CharSize(ansi) == b + Span(ansi, k + 1);
      assert t[k..] == [t[k]] + t[k + 1..];
    }
  }

  lemma SpanInChunk(ansi: bool, p: nat, k: nat)
    ensures (8 * p + Span(ansi, k)) / 8 == p + k / (if ansi then 8 else 4)
  {
  }

  /** The first `n` chunks of a string are stored at qword `p`, before the limit, and none is the marker. */
  ghost predicate ChunksLie(s: CString, mem: Words, p: nat, n: nat, limit: int) {
    && s.Valid() && s.StoredAt(mem, p, n) && p + n <= limit
    && forall i | 0 <= i < n && i < s.ChunkCount() :: s.Chunk(i) != BLOCK_END_MARKER
  }

  lemma StoredTextLies(s: CString, mem: Words, p: nat, n: nat, limit: int, m: nat)
    requires ChunksLie(s, mem, p, n, limit) && m <= n * s.Lanes() && m <= |s.chars|
    ensures TextLies(mem, 8 * p, limit, s.ansi, s.chars[..m])
  {
    hide CharAt, AtEnd;
    forall k | 0 <= k < m
      ensures CharAt(mem, 8 * p + Span(s.ansi, k), s.ansi) == s.chars[k]
      ensures s.chars[k] != 0 && !AtEnd(mem, (8 * p + Span(s.ansi, k)) / 8, limit)
    {
      StoredChar(s, mem, p, n, k);
      assert s.chars[k] in s.chars;
      SpanInChunk(s.ansi, p, k);
      ChunkNotEnd(s, mem, p, n, limit, k / s.Lanes());
    }
  }

  lemma ChunkNotEnd(s: CString, mem: Words, p: nat, n: nat, limit: int, i: nat)
    requires ChunksLie(s, mem, p, n, limit) && i < n && i < s.ChunkCount()
    ensures !AtEnd(mem, p + i, limit)
  {
    assert mem[p + i] == s.Chunk(i);
  }

  lemma TerminatorLies(s: CString, mem: Words, p: nat, n: nat, limit: int)
    requires ChunksLie(s, mem, p, n, limit) && s.ChunkCount() <= n
    ensures CharAt(mem, 8 * p + Span(s.ansi, |s.chars|), s.ansi) == 0
    ensures !AtEnd(mem, (8 * p + Span(s.ansi, |s.chars|)) / 8, limit)
  {
    hide CharAt, AtEnd;
    StoredChar(s, mem, p, n, |s.chars|);
    SpanInChunk(s.ansi, p, |s.chars|);
    ChunkNotEnd(s, mem, p, n, limit, |s.chars| / s.Lanes());
  }

  /** A whole string: the scan ends just past its terminator and its characters are read back. */
  lemma WholeString(s: CString, mem: Words, p: nat, n: nat, limit: int)
    requires ChunksLie(s, mem, p, n, limit) && s.ChunkCount() <= n
    ensures StringEnd(mem, 8 * p, limit, s.ansi) == 8 * p + Span(s.ansi, |s.chars| + 1)
    ensures CStringAt(mem, 8 * p, s.ansi) == s.chars
    ensures CharAt(mem, 8 * p + Span(s.ansi, |s.chars|), s.ansi) == 0
    ensures !AtEnd(mem, p, limit)
  {
    hide CharAt, AtEnd, ChunksLie, TextLies, CStringAt;
    WholeEnd(s, mem, p, n, limit);
    TerminatorLies(s, mem, p, n, limit);
    ChunkNotEnd(s, mem, p, n, limit, 0);
    WholeText(s, mem, p, n, limit);
  }

  lemma WholeEnd(s: CString, mem: Words, p: nat, n: nat, limit: int)
    requires ChunksLie(s, mem, p, n, limit) && s.ChunkCount() <= n
    ensures StringEnd(mem, 8 * p, limit, s.ansi) == 8 * p + Span(s.ansi, |s.chars| + 1)
  {
    hide CharAt, AtEnd, TextLies, StringEnd;
    var t := s.chars;
    assert t[..|t|] == t && |t| <= n * s.Lanes();
    StoredTextLies(s, mem, p, n, limit, |t|);
    ScanText(mem, 8 * p, limit, s.ansi, t, 0);
    TerminatorLies(s, mem, p, n, limit);
    var b := 8 * p + Span(s.ansi, |t|);
    ScanStops(mem, b, limit, s.ansi);
  }

  lemma WholeText(s: CString, mem: Words, p: nat, n: nat, limit: int)
    requires ChunksLie(s, mem, p, n, limit) && s.ChunkCount() <= n
    ensures CStringAt(mem, 8 * p, s.ansi) == s.chars
  {
    hide CharAt;
    var t := s.chars;
    StoredChar(s, mem, p, n, |t|);
    forall i | 0 <= i < |t|
      ensures CharAt(mem, 8 * p + Span(s.ansi, i), s.ansi) == t[i] && t[i] != 0 && (8 * p + Span(s.ansi, i)) / 8 < |mem|
    {
      StoredChar(s, mem, p, n, i);
      assert t[i] in t;
      SpanInChunk(s.ansi, p, i);
    }
    TextAt(mem, 8 * p, s.ansi, t, 0);
  }

  /** Qwords that a string takes when it is copied in chunks of `chunkSize` bytes. */
  function CopiedQwords(s: CString, chunkSize: nat): nat
    requires chunkSize in {8, 16}
  {
    if chunkSize == 8 then s.ChunkCount() else 2 * ((s.ChunkCount() + 1) / 2)
  }

  lemma ReadWhole(s: CString, mem: Words, source: nat, p: nat, n: nat, limit: int, chunkSize: nat)
    requires chunkSize in {8, 16} && source <= p
    requires ChunksLie(s, mem, p, n, limit) && s.ChunkCount() <= n && n == CopiedQwords(s, chunkSize)
    ensures !AtEnd(mem, p, limit)
    ensures CharsReadSpec(mem, source, 8 * p, limit, chunkSize, s.ansi)
         == StringRead(SavedString((Span(s.ansi, |s.chars| + 1) - 1) * CharSize(s.ansi), 8 * (p - source + n), s.ansi, Some(8 * p)), mem)
    ensures CStringAt(mem, 8 * p, s.ansi) == s.chars
  {
    hide CharAt, StringEnd, CStringAt, AtEnd, ChunksLie, StoreNul, ByteAt, CopiedQwords, ChunkPadding;
    WholeString(s, mem, p, n, limit);
    var len := Span(s.ansi, |s.chars| + 1);
    StoreNulOverNul(mem, 8 * p + Span(s.ansi, |s.chars|), s.ansi);
    assert len + ChunkPadding(len, chunkSize) == 8 * n by {
      RoundUp(s, chunkSize);
    }
  }

  lemma RoundUp(s: CString, chunkSize: nat)
    requires chunkSize in {8, 16}
    ensures Span(s.ansi, |s.chars| + 1) + ChunkPadding(Span(s.ansi, |s.chars| + 1), chunkSize) == 8 * CopiedQwords(s, chunkSize)
  {
    hide ChunkPadding;
    var n := |s.chars|;
    var m := if s.ansi then n else 2 * n + 1;
    RoundUpTo(m, chunkSize);
    Halves(n);
  }

  /** Dividing by `2 * d` is dividing by `d` and then by two. */
  lemma HalfOf(n: nat, d: nat)
    requires d in {4, 8}
    ensures 2 * ((n / d + 1 + 1) / 2) == 2 * (n / (2 * d) + 1)
  {
    var q := n / d;
    assert d == 4 ==> n / 8 == q / 2;
    assert d == 8 ==> n / 16 == q / 2;
  }

  lemma OddQuotient(n: nat, d: nat)
    requires d in {4, 8}
    ensures (2 * n + 1) / (2 * d) == n / d
  {
    var q, r := n / d, n % d;
    if d == 4 {
      assert 2 * n + 1 == 8 * q + (2 * r + 1);
    } else {
      assert 2 * n + 1 == 16 * q + (2 * r + 1);
    }
  }

  lemma Halves(n: nat)
    ensures 2 * ((n / 8 + 1 + 1) / 2) == 2 * (n / 16 + 1)
    ensures (2 * n + 1) / 8 == n / 4 && (2 * n + 1) / 16 == n / 8
    ensures 2 * ((n / 4 + 1 + 1) / 2) == 2 * (n / 8 + 1)
  {
    HalfOf(n, 8);
    HalfOf(n, 4);
    OddQuotient(n, 4);
    OddQuotient(n, 8);
  }

  lemma NextMultiple(q: nat, r: nat, d: nat)
    requires d in {8, 16} && r < d
    ensures (d * q + r + 1) % d == if r == d - 1 then 0 else r + 1
  {
    if d == 8 {
      Remainder8(if r == 7 then q + 1 else q, if r == 7 then 0 else r + 1);
    } else {
      Remainder16(if r == 15 then q + 1 else q, if r == 15 then 0 else r + 1);
    }
  }

  lemma Remainder8(q: nat, r: nat)
    requires r < 8
    ensures (8 * q + r) % 8 == r
  {
  }

  lemma Remainder16(q: nat, r: nat)
    requires r < 16
    ensures (16 * q + r) % 16 == r
  {
  }

  lemma RoundUpTo(n: nat, chunkSize: nat)
    requires chunkSize in {8, 16}
    ensures n + 1 + ChunkPadding(n + 1, chunkSize) == if chunkSize == 8 then 8 * (n / 8 + 1) else 16 * (n / 16 + 1)
  {
    NextMultiple(n / chunkSize, n % chunkSize, chunkSize);
    if chunkSize == 8 {
      assert n == 8 * (n / 8) + n % 8;
    } else {
      assert n == 16 * (n / 16) + n % 16;
    }
  }

  // Strings that ran out of room

  /** `m` chunks of a longer string are stored and then comes the end. */
  ghost predicate CutShort(s: CString, mem: Words, p: nat, m: nat, limit: int) {
    && ChunksLie(s, mem, p, m, limit) && 0 < m && m * s.Lanes() <= |s.chars|
    && AtEnd(mem, p + m, limit) && ByteAt(mem, 8 * (p + m)) != 0
  }

  function LastChar(s: CString, p: nat, m: nat): int {
    8 * (p + m) - CharSize(s.ansi)
  }

  /** The memory after the repair of a cut string. */
  function Repaired(s: CString, mem: Words, p: nat, m: nat): Words
    requires m > 0
  {
    StoreNul(mem, LastChar(s, p, m), s.ansi)
  }

  lemma RepairKeeps(s: CString, mem: Words, p: nat, m: nat)
    requires m > 0 && p + m <= |mem|
    ensures |Repaired(s, mem, p, m)| == |mem|
    ensures forall i | 0 <= i < |mem| && i != p + m - 1 :: Repaired(s, mem, p, m)[i] == mem[i]
  {
    hide StoreByteAt;
    assert LastChar(s, p, m) / 8 == p + m - 1 && (8 * (p + m) - 1) / 8 == p + m - 1;
  }

  lemma RepairedChar(s: CString, mem: Words, p: nat, m: nat, k: nat)
    requires m > 0 && p + m <= |mem| && k < m * s.Lanes()
    ensures CharAt(Repaired(s, mem, p, m), 8 * p + Span(s.ansi, k), s.ansi)
         == if k == m * s.Lanes() - 1 then 0 else CharAt(mem, 8 * p + Span(s.ansi, k), s.ansi)
  {
    hide StoreNul, ByteAt;
    var b := 8 * p + Span(s.ansi, k);
    StoreNulBytes(mem, LastChar(s, p, m), s.ansi, b);
    StoreNulBytes(mem, LastChar(s, p, m), s.ansi, b + 1);
  }

  lemma CutEnd(s: CString, mem: Words, p: nat, m: nat, limit: int)
    requires CutShort(s, mem, p, m, limit)
    ensures StringEnd(mem, 8 * p, limit, s.ansi) == 8 * (p + m)
    ensures !AtEnd(mem, p, limit)
  {
    hide CharAt, AtEnd, TextLies, StringEnd;
    var n := m * s.Lanes();
    StoredTextLies(s, mem, p, m, limit, n);
    ScanText(mem, 8 * p, limit, s.ansi, s.chars[..n], 0);
    var b := 8 * p + Span(s.ansi, n);
    assert b == 8 * (p + m) && b / 8 == p + m;
    ScanStops(mem, b, limit, s.ansi);
    ChunkNotEnd(s, mem, p, m, limit, 0);
  }

  lemma CutText(s: CString, mem: Words, p: nat, m: nat, limit: int)
    requires CutShort(s, mem, p, m, limit)
    ensures CStringAt(Repaired(s, mem, p, m), 8 * p, s.ansi) == s.chars[..m * s.Lanes() - 1]
  {
    hide CharAt, Repaired, AtEnd;
    var r := Repaired(s, mem, p, m);
    var t := s.chars[..m * s.Lanes() - 1];
    RepairKeeps(s, mem, p, m);
    forall i | 0 <= i < |t|
      ensures CharAt(r, 8 * p + Span(s.ansi, i), s.ansi) == t[i] && t[i] != 0 && (8 * p + Span(s.ansi, i)) / 8 < |r|
    {
      RepairedChar(s, mem, p, m, i);
      StoredChar(s, mem, p, m, i);
      assert s.chars[i] in s.chars;
      SpanInChunk(s.ansi, p, i);
    }
    RepairedChar(s, mem, p, m, |t|);
    TextAt(r, 8 * p, s.ansi, t, 0);
  }

  lemma RepairedTextLies(s: CString, mem: Words, p: nat, m: nat, limit: int)
    requires CutShort(s, mem, p, m, limit)
    ensures TextLies(Repaired(s, mem, p, m), 8 * p, limit, s.ansi, s.chars[..m * s.Lanes() - 1])
  {
    hide CharAt, Repaired, AtEnd;
    forall k | 0 <= k < m * s.Lanes() - 1
      ensures CharAt(Repaired(s, mem, p, m), 8 * p + Span(s.ansi, k), s.ansi) == s.chars[k] && s.chars[k] != 0
      ensures !AtEnd(Repaired(s, mem, p, m), (8 * p + Span(s.ansi, k)) / 8, limit)
    {
      RepairedChar(s, mem, p, m, k);
      StoredChar(s, mem, p, m, k);
      assert s.chars[k] in s.chars;
      SpanInChunk(s.ansi, p, k);
      RepairedNotEnd(s, mem, p, m, limit, k / s.Lanes());
    }
  }

  /** Scanning the repaired string stops at the same place. */
  lemma RepairedEnd(s: CString, mem: Words, p: nat, m: nat, limit: int)
    requires CutShort(s, mem, p, m, limit)
    ensures StringEnd(Repaired(s, mem, p, m), 8 * p, limit, s.ansi) == 8 * (p + m)
    ensures CharAt(Repaired(s, mem, p, m), LastChar(s, p, m), s.ansi) == 0
    ensures ByteAt(Repaired(s, mem, p, m), 8 * (p + m)) == ByteAt(mem, 8 * (p + m))
    ensures !AtEnd(Repaired(s, mem, p, m), p, limit)
  {
    hide CharAt, Repaired, AtEnd, StringEnd, TextLies;
    var r := Repaired(s, mem, p, m);
    var n := m * s.Lanes() - 1;
    RepairedTextLies(s, mem, p, m, limit);
    ScanText(r, 8 * p, limit, s.ansi, s.chars[..n], 0);
    RepairedChar(s, mem, p, m, n);
    SpanInChunk(s.ansi, p, n);
    RepairedNotEnd(s, mem, p, m, limit, m - 1);
    RepairedNotEnd(s, mem, p, m, limit, 0);
    assert 8 * p + Span(s.ansi, n) == LastChar(s, p, m);
    ScanStops(r, LastChar(s, p, m), limit, s.ansi);
    RepairedByteAfter(s, mem, p, m);
  }

  lemma RepairedByteAfter(s: CString, mem: Words, p: nat, m: nat)
    requires m > 0 && p + m <= |mem|
    ensures ByteAt(Repaired(s, mem, p, m), 8 * (p + m)) == ByteAt(mem, 8 * (p + m))
  {
    StoreNulBytes(mem, LastChar(s, p, m), s.ansi, 8 * (p + m));
  }

  /** Clearing the last character does not turn the last chunk into the end marker. */
  lemma RepairedNotEnd(s: CString, mem: Words, p: nat, m: nat, limit: int, i: nat)
    requires CutShort(s, mem, p, m, limit) && i < m
    ensures !AtEnd(Repaired(s, mem, p, m), p + i, limit)
  {
    hide CharAt, Repaired;
    var r := Repaired(s, mem, p, m);
    RepairKeeps(s, mem, p, m);
    if i < m - 1 {
      ChunkNotEnd(s, mem, p, m, limit, i);
    } else {
      // the marker's last but one character is zero, the string's is not
      var k := m * s.Lanes() - 2;
      RepairedChar(s, mem, p, m, k);
      StoredChar(s, mem, p, m, k);
      assert s.chars[k] in s.chars;
      if r[p + i] == BLOCK_END_MARKER {
        MarkerChar(s, r, p, m, k);
      }
    }
  }

  lemma MarkerChar(s: CString, r: Words, p: nat, m: nat, k: nat)
    requires m > 0 && p + m <= |r| && r[p + m - 1] == BLOCK_END_MARKER && k == m * s.Lanes() - 2
    ensures CharAt(r, 8 * p + Span(s.ansi, k), s.ansi) == 0
  {
    var b := 8 * p + Span(s.ansi, k);
    MarkerBytes();
    if s.ansi {
      assert b / 8 == p + m - 1 && b % 8 == 6;
    } else {
      assert b / 8 == p + m - 1 && b % 8 == 4;
      assert (b + 1) / 8 == p + m - 1 && (b + 1) % 8 == 5;
    }
  }

  const MARKER_BYTES: seq<Octet> := [0x80, 0xFF, 0x0F, 0, 0, 0, 0, 0]

  lemma MarkerBytes()
    ensures forall j: nat | j < 8 :: Byte(BLOCK_END_MARKER, j) == MARKER_BYTES[j]
  {
    assert Byte(0x000F_FF80, 0) == 0x80 && Byte(0x000F_FF80, 1) == Byte(0x0FFF, 0) == 0xFF;
    assert Byte(0x000F_FF80, 2) == Byte(0x0FFF, 1) == Byte(0x0F, 0) == 0x0F;
    forall j: nat | 3 <= j < 8
      ensures Byte(BLOCK_END_MARKER, j) == 0
    {
      assert Byte(0x000F_FF80, j) == Byte(0x0FFF, j - 1) == Byte(0x0F, j - 2) == Byte(0, j - 3);
      ZeroBytes(j - 3);
    }
  }

  lemma {:induction false} ZeroBytes(j: nat)
    ensures Byte(0, j) == 0
  {
    if j > 0 {
      ZeroBytes(j - 1);
    }
  }

  /** What is read when the scan ends after `m` whole qwords. */
  lemma ReadUpTo(mem: Words, source: nat, p: nat, m: nat, limit: int, ansi: bool)
    requires source <= p && !AtEnd(mem, p, limit) && StringEnd(mem, 8 * p, limit, ansi) == 8 * (p + m)
    requires ByteAt(mem, 8 * (p + m)) != 0
    ensures m > 0
    ensures CharsReadSpec(mem, source, 8 * p, limit, 8, ansi)
         == StringRead(SavedString((8 * m - 1) * CharSize(ansi), 8 * (p - source + m), ansi, Some(8 * p)),
                       StoreNul(mem, 8 * (p + m) - CharSize(ansi), ansi))
  {
    hide StringEnd, AtEnd, ByteAt, StoreNul;
    StringEndPast(mem, 8 * p, limit, ansi);
  }

  /**
   * A string that ran out of room after `m` chunks is handed on terminated
   * inside the buffer: all but the last of the characters that were stored.
   * Only the qword of that last character is touched, and reading the repaired
   * string again gives the same result and changes nothing.
   */
  lemma ReadCut(s: CString, mem: Words, source: nat, p: nat, m: nat, limit: int)
    requires source <= p && CutShort(s, mem, p, m, limit)
    ensures !AtEnd(mem, p, limit) && !AtEnd(Repaired(s, mem, p, m), p, limit)
    ensures var n := m * s.Lanes();
            var read := CharsReadSpec(mem, source, 8 * p, limit, 8, s.ansi);
            && read == StringRead(SavedString((8 * m - 1) * CharSize(s.ansi), 8 * (p - source + m), s.ansi, Some(8 * p)), Repaired(s, mem, p, m))
            && SavedText(read.info, read.mem) == s.chars[..n - 1]
            && n - 1 < |s.chars|
            && CharsReadSpec(read.mem, source, 8 * p, limit, 8, s.ansi) == read
  {
    hide CharAt, StringEnd, CStringAt, AtEnd, ByteAt, StoreNul, ChunksLie, CharsReadSpec;
    CutEnd(s, mem, p, m, limit);
    CutText(s, mem, p, m, limit);
    ReadUpTo(mem, source, p, m, limit, s.ansi);
    RepairedEnd(s, mem, p, m, limit);
    ReadUpTo(Repaired(s, mem, p, m), source, p, m, limit, s.ansi);
    StoreNulOverNul(Repaired(s, mem, p, m), LastChar(s, p, m), s.ansi);
  }

  // Exactly which strings are read back

  /** The memory around the terminator spells the end marker. */
  predicate ReadsAsMarker(s: CString) {
    forall j: nat | j < 8 :: s.MemByte(8 * (s.ChunkCount() - 1) + j) == MARKER_BYTES[j]
  }

  lemma MarkerChunk(s: CString, i: nat)
    ensures s.Chunk(i) == BLOCK_END_MARKER <==> forall j: nat | j < 8 :: s.MemByte(8 * i + j) == MARKER_BYTES[j]
  {
    MarkerBytes();
    forall j: nat | j < 8
      ensures Byte(s.Chunk(i), j) == s.MemByte(8 * i + j)
    {
      ChunkByte(s, i, j);
    }
    if forall j: nat | j < 8 :: s.MemByte(8 * i + j) == MARKER_BYTES[j] {
      forall j: nat | j < 8
        ensures Byte(s.Chunk(i), j) == Byte(BLOCK_END_MARKER, j)
      {
        assert s.MemByte(8 * i + j) == MARKER_BYTES[j];
      }
      Pow256Of8();
      SameBytes(s.Chunk(i), BLOCK_END_MARKER, 8);
    }
  }

  /** Only the chunk with the terminator can read as the end marker. */
  lemma NoMarkerExact(s: CString)
    requires s.Valid()
    ensures forall i: nat | i < s.ChunkCount() - 1 :: s.Chunk(i) != BLOCK_END_MARKER
    ensures s.Chunk(s.ChunkCount() - 1) == BLOCK_END_MARKER <==> ReadsAsMarker(s)
    ensures s.NoMarker() <==> !ReadsAsMarker(s)
  {
    hide PackQword;
    forall i: nat | i < s.ChunkCount() - 1
      ensures s.Chunk(i) != BLOCK_END_MARKER
    {
      MarkerChunk(s, i);
      MarkerLastChar(s, i);
    }
    MarkerChunk(s, s.ChunkCount() - 1);
  }

  /** The last character of a chunk that is not the last one is not zero, the marker's is. */
  lemma MarkerLastChar(s: CString, i: nat)
    requires s.Valid() && i < s.ChunkCount() - 1
    ensures exists j: nat :: j < 8 && s.MemByte(8 * i + j) != MARKER_BYTES[j]
  {
    var k := s.Lanes() * i + s.Lanes() - 1;
    assert s.chars[k] in s.chars;
    if s.ansi {
      AnsiChar(s, k);
      assert s.MemByte(8 * i + 7) != MARKER_BYTES[7];
    } else {
      assert (8 * i + 6) / 2 == k && (8 * i + 7) / 2 == k;
      assert s.MemByte(8 * i + 6) != MARKER_BYTES[6] || s.MemByte(8 * i + 7) != MARKER_BYTES[7];
    }
  }

  /** The characters ReadString hands on for a string at `p` whose kind the event's metadata tells. */
  function TextRead(mem: Words, p: nat, limit: int, metadata: Octet): seq<Char> {
    var read := ReadStringSpec(mem, p, limit, Some(metadata));
    SavedText(read.info, read.mem)
  }

  lemma TextReadWhole(s: CString, mem: Words, p: nat, n: nat, limit: int, metadata: Octet)
    requires ChunksLie(s, mem, p, n, limit) && n == s.ChunkCount() && ((metadata / 2) % 2 == 1 <==> s.ansi)
    ensures TextRead(mem, p, limit, metadata) == s.chars
  {
    hide CharsReadSpec, CStringAt;
    ReadWhole(s, mem, p, p, n, limit, 8);
    assert LocateString(mem, p, limit, Some(metadata)) == Starts(s.ansi, 8, 8 * p);
  }

  lemma TextReadCut(s: CString, mem: Words, p: nat, m: nat, limit: int, metadata: Octet)
    requires CutShort(s, mem, p, m, limit) && ((metadata / 2) % 2 == 1 <==> s.ansi)
    ensures TextRead(mem, p, limit, metadata) == s.chars[..m * s.Lanes() - 1]
  {
    hide CharsReadSpec, SavedText, Repaired, ByteAt;
    ReadCut(s, mem, p, p, m, limit);
    assert LocateString(mem, p, limit, Some(metadata)) == Starts(s.ansi, 8, 8 * p);
  }

  lemma MarkerIsEnd(mem: Words, p: nat, limit: int)
    requires p < |mem| && mem[p] == BLOCK_END_MARKER
    ensures AtEnd(mem, p, limit) && ByteAt(mem, 8 * p) != 0
  {
    MarkerBytes();
    assert Byte(BLOCK_END_MARKER, 0) == MARKER_BYTES[0];
  }

  /**
   * A string that a writer stored in full is read back exactly when the memory
   * around its terminator does not spell the end marker.
   */
  lemma StringExact(s: CString, mem: Words, p: nat, limit: int, metadata: Octet)
    requires s.Valid() && s.StoredAt(mem, p, s.ChunkCount()) && p + s.ChunkCount() <= limit
    requires (metadata / 2) % 2 == 1 <==> s.ansi
    ensures TextRead(mem, p, limit, metadata) == s.chars <==> !ReadsAsMarker(s)
  {
    hide TextRead, PackQword, ReadsAsMarker, AtEnd, ByteAt;
    NoMarkerExact(s);
    var n := s.ChunkCount();
    if ReadsAsMarker(s) {
      assert mem[p + (n - 1)] == s.Chunk(n - 1);
      MarkerIsEnd(mem, p + (n - 1), limit);
      if n == 1 {
        EmptyAtMarker(mem, p, limit, metadata);
        MarkerNotEmpty(s);
      } else {
        TextReadCut(s, mem, p, n - 1, limit, metadata);
      }
    } else {
      TextReadWhole(s, mem, p, n, limit, metadata);
    }
  }

  lemma EmptyAtMarker(mem: Words, p: nat, limit: int, metadata: Octet)
    requires AtEnd(mem, p, limit)
    ensures TextRead(mem, p, limit, metadata) == []
  {
  }

  lemma MarkerNotEmpty(s: CString)
    requires ReadsAsMarker(s) && s.ChunkCount() == 1
    ensures s.chars != []
  {
    assert s.MemByte(8 * 0 + 0) == MARKER_BYTES[0];
  }

  // String arguments, which have a header of their own

  /** The characters ReadString hands on for a string argument whose header is at `p`. */
  function ArgumentRead(mem: Words, p: nat, limit: int): seq<Char> {
    var read := ReadStringSpec(mem, p, limit, None);
    SavedText(read.info, read.mem)
  }

  lemma ArgumentStart(mem: Words, p: nat, limit: int, chunkSize: nat, ansi: bool)
    requires chunkSize in {8, 16} && p < |mem| && mem[p] == EncodeStringInfo(chunkSize, ansi) && p < limit
    ensures LocateString(mem, p, limit, None) == if AtEnd(mem, p + 1, limit) then NoString else Starts(ansi, chunkSize, 8 * (p + 1))
  {
    hide EncodeStringInfo, DecodeStringInfo, AtEnd;
    StringInfoRoundTrip(chunkSize, ansi);
  }

  lemma CutArgumentText(s: CString, mem: Words, p: nat, m: nat, limit: int, chunkSize: nat)
    requires chunkSize in {8, 16} && CutShort(s, mem, p + 1, m, limit)
    requires p < |mem| && mem[p] == EncodeStringInfo(chunkSize, s.ansi) && p < limit
    ensures m * s.Lanes() <= |s.chars| && ArgumentRead(mem, p, limit) == s.chars[..m * s.Lanes() - 1]
  {
    hide CharAt, StringEnd, CStringAt, AtEnd, ByteAt, StoreNul, ChunksLie, EncodeStringInfo;
    CutEnd(s, mem, p + 1, m, limit);
    CutText(s, mem, p + 1, m, limit);
    ArgumentStart(mem, p, limit, chunkSize, s.ansi);
  }

  lemma WholeArgumentText(s: CString, mem: Words, p: nat, n: nat, limit: int, chunkSize: nat)
    requires chunkSize in {8, 16} && ChunksLie(s, mem, p + 1, n, limit) && n == CopiedQwords(s, chunkSize)
    requires p < |mem| && mem[p] == EncodeStringInfo(chunkSize, s.ansi) && p < limit
    ensures ArgumentRead(mem, p, limit) == s.chars
  {
    hide CharsReadSpec, CStringAt, AtEnd, ChunksLie, EncodeStringInfo;
    ReadWhole(s, mem, p, p + 1, n, limit, chunkSize);
    ArgumentStart(mem, p, limit, chunkSize, s.ansi);
  }

  /**
   * A string argument stored in full, in 8- or 16-byte chunks, is read back
   * exactly when the memory around its terminator does not spell the end marker.
   */
  lemma ArgumentExact(s: CString, mem: Words, p: nat, limit: int, chunkSize: nat)
    requires s.Valid() && chunkSize in {8, 16} && s.StoredAt(mem, p + 1, CopiedQwords(s, chunkSize))
    requires mem[p] == EncodeStringInfo(chunkSize, s.ansi) && p + 1 + CopiedQwords(s, chunkSize) <= limit
    ensures ArgumentRead(mem, p, limit) == s.chars <==> !ReadsAsMarker(s)
  {
    hide ArgumentRead, PackQword, ReadsAsMarker, AtEnd, ByteAt, EncodeStringInfo;
    NoMarkerExact(s);
    var n, m := CopiedQwords(s, chunkSize), s.ChunkCount() - 1;
    assert s.ChunkCount() <= n;
    if ReadsAsMarker(s) {
      assert mem[p + 1 + m] == s.Chunk(m);
      MarkerIsEnd(mem, p + 1 + m, limit);
      if m == 0 {
        ArgumentAtMarker(s, mem, p, limit, chunkSize);
        MarkerNotEmpty(s);
      } else {
        CutArgumentText(s, mem, p, m, limit, chunkSize);
      }
    } else {
      WholeArgumentText(s, mem, p, n, limit, chunkSize);
    }
  }

  lemma ArgumentAtMarker(s: CString, mem: Words, p: nat, limit: int, chunkSize: nat)
    requires chunkSize in {8, 16} && p < |mem| && mem[p] == EncodeStringInfo(chunkSize, s.ansi) && p < limit && AtEnd(mem, p + 1, limit)
    ensures ArgumentRead(mem, p, limit) == []
  {
    hide EncodeStringInfo, AtEnd;
    ArgumentStart(mem, p, limit, chunkSize, s.ansi);
  }

  /**
   * Which qwords are taken for the header of a string argument: not zero, none
   * of the low 53 bits set, chunks of 8 or 16 bytes, and an alignment below
   * that; its characters begin that many bytes behind it, unless the end does.
   */
  lemma HeaderExact(mem: Words, p: nat, limit: int)
    requires p < |mem|
    ensures var q := mem[p];
            var alignment, chunkSize := q / 0x1000_0000_0000_0000, (q / 0x80_0000_0000_0000) % 32;
            var accepted := q != 0 && q % 0x20_0000_0000_0000 == 0 && (chunkSize == 8 || chunkSize == 16) && alignment < chunkSize;
            var at := 8 * (p + 1) + alignment;
            (LocateString(mem, p, limit, None)
             == if p >= limit || !accepted || AtEnd(mem, p + 1, limit) then NoString
                else if AtEnd(mem, at / 8, limit) then BadString(8 + alignment)
                else Starts((q / 0x40_0000_0000_0000) % 2 == 1, chunkSize, at))
  {
    hide AtEnd;
  }
}
