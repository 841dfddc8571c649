// The unit of storage of an event block: 64-bit words, and the little-endian
// bytes that string data occupies inside them. Bit fields are written as
// quotients and remainders by powers of two.
module Qwords {

  const TWO_64: int := 0x1_0000_0000_0000_0000

  /** UINT64 */
  type Qword = q: int | 0 <= q < TWO_64

  /** UINT8 */
  type Octet = b: int | 0 <= b < 256

  // The word that follows the last event of every block.
  const BLOCK_END_MARKER: Qword := 0x0000_0000_000F_FF80

  function Pow256(n: nat): (r: nat)
    ensures r > 0
  {
    if n == 0 then 1 else 256 * Pow256(n - 1)
  }

  /** Byte `i` of a qword; byte 0 is the least significant one. */
  function Byte(q: nat, i: nat): Octet {
    if i == 0 then q % 256 else Byte(q / 256, i - 1)
  }

  /** The number whose low bytes are `b`, least significant first. */
  function Pack(b: seq<Octet>): (r: nat)
    ensures r < Pow256(|b|)
  {
    if b == [] then 0 else b[0] + 256 * Pack(b[1..])
  }

  lemma Pow256Of8()
    ensures Pow256(8) == TWO_64
  {
    assert Pow256(4) == 0x1_0000_0000;
  }

  function PackQword(b: seq<Octet>): Qword
    requires |b| == 8
  {
    Pow256Of8();
    Pack(b)
  }

  /** Packing eight bytes and taking one out again gives that byte. */
  lemma {:induction false} PackByte(b: seq<Octet>, i: nat)
    requires i < |b|
    ensures Byte(Pack(b), i) == b[i]
  {
    if i > 0 {
      PackByte(b[1..], i - 1);
    }
  }

  /** The qword after a one-byte store at offset `i`. */
  function StoreByte(q: nat, i: nat, v: Octet): (r: nat) {
    if i == 0 then q - q % 256 + v else 256 * StoreByte(q / 256, i - 1, v) + q % 256
  }

  lemma {:induction false} StoreByteBound(q: nat, i: nat, v: Octet, n: nat)
    requires i < n && q < Pow256(n)
    ensures StoreByte(q, i, v) < Pow256(n)
  {
    if i > 0 {
      StoreByteBound(q / 256, i - 1, v, n - 1);
    }
  }

  lemma {:induction false} StoreByteBytes(q: nat, i: nat, v: Octet, j: nat)
    ensures Byte(StoreByte(q, i, v), j) == if j == i then v else Byte(q, j)
  {
    var r := StoreByte(q, i, v);
    if i == 0 {
      assert r / 256 == q / 256;
    } else {
      assert r / 256 == StoreByte(q / 256, i - 1, v) && r % 256 == q % 256;
      if j > 0 {
        StoreByteBytes(q / 256, i - 1, v, j - 1);
      }
    }
  }

  lemma {:induction false} StoreSameByte(q: nat, i: nat)
    ensures StoreByte(q, i, Byte(q, i)) == q
  {
    if i > 0 {
      StoreSameByte(q / 256, i - 1);
    }
  }

  function StoreQwordByte(q: Qword, i: nat, v: Octet): Qword
    requires i < 8
  {
    Pow256Of8();
    StoreByteBound(q, i, v, 8);
    StoreByte(q, i, v)
  }

  /** Appending a byte on top is adding it shifted into place. */
  lemma {:induction false} PackSnoc(b: seq<Octet>, v: Octet)
    ensures Pack(b + [v]) == Pack(b) + v * Pow256(|b|)
  {
    if b == [] {
      assert Pack([v]) == v;
    } else {
      assert (b + [v])[1..] == b[1..] + [v];
      PackSnoc(b[1..], v);
      var p := Pow256(|b| - 1);
      assert 256 * (v * p) == v * (256 * p);
    }
  }

  /** A number below 256^n is determined by its low n bytes. */
  lemma {:induction false} SameBytes(p: nat, q: nat, n: nat)
    requires p < Pow256(n) && q < Pow256(n)
    requires forall i: nat | i < n :: Byte(p, i) == Byte(q, i)
    ensures p == q
  {
    if n > 0 {
      assert Byte(p, 0) == Byte(q, 0);
      forall i: nat | i < n - 1
        ensures Byte(p / 256, i) == Byte(q / 256, i)
      {
        assert Byte(p, i + 1) == Byte(q, i + 1);
      }
      SameBytes(p / 256, q / 256, n - 1);
    }
  }

  // The word-at-a-time search for a zero byte

  function Bits(b: Octet): bv64 {
    b as bv64
  }

  function WordOf(a: Octet, b: Octet, c: Octet, d: Octet, e: Octet, f: Octet, g: Octet, h: Octet): bv64 {
    Bits(a) | (Bits(b) << 8) | (Bits(c) << 16) | (Bits(d) << 24) | (Bits(e) << 32) | (Bits(f) << 40) | (Bits(g) << 48) | (Bits(h) << 56)
  }

  /** The machine word with the bytes of `q`. */
  function Word(q: Qword): bv64 {
    WordOf(Byte(q, 0), Byte(q, 1), Byte(q, 2), Byte(q, 3), Byte(q, 4), Byte(q, 5), Byte(q, 6), Byte(q, 7))
  }

  /** `(qword - mask1) & (~qword & mask2)`, the test of the fast ANSI copy. */
  predicate HasZeroByteMask(w: bv64) {
    (w - 0x0101_0101_0101_0101) & (!w & 0x8080_8080_8080_8080) != 0
  }

  predicate HasZeroByte(q: Qword) {
    exists j: nat | j < 8 :: Byte(q, j) == 0
  }

  lemma MaskBits(a: bv64, b: bv64, c: bv64, d: bv64, e: bv64, f: bv64, g: bv64, h: bv64)
    requires a & !0xFF == 0 && b & !0xFF == 0 && c & !0xFF == 0 && d & !0xFF == 0
    requires e & !0xFF == 0 && f & !0xFF == 0 && g & !0xFF == 0 && h & !0xFF == 0
    ensures HasZeroByteMask(a | (b << 8) | (c << 16) | (d << 24) | (e << 32) | (f << 40) | (g << 48) | (h << 56))
       <==> a == 0 || b == 0 || c == 0 || d == 0 || e == 0 || f == 0 || g == 0 || h == 0
  {
  }

  lemma OctetBits(b: Octet)
    ensures Bits(b) & !0xFF == 0
    ensures Bits(b) == 0 <==> b == 0
  {
  }

  lemma MaskOctets(a: Octet, b: Octet, c: Octet, d: Octet, e: Octet, f: Octet, g: Octet, h: Octet)
    ensures HasZeroByteMask(WordOf(a, b, c, d, e, f, g, h))
       <==> a == 0 || b == 0 || c == 0 || d == 0 || e == 0 || f == 0 || g == 0 || h == 0
  {
    hide HasZeroByteMask, Bits;
    OctetBits(a); OctetBits(b); OctetBits(c); OctetBits(d);
    OctetBits(e); OctetBits(f); OctetBits(g); OctetBits(h);
    MaskBits(Bits(a), Bits(b), Bits(c), Bits(d), Bits(e), Bits(f), Bits(g), Bits(h));
  }

  /** The mask test is non-zero exactly when some byte of the qword is zero. */
  lemma ZeroByteMaskExact(q: Qword)
    ensures HasZeroByteMask(Word(q)) <==> HasZeroByte(q)
  {
    hide Byte, HasZeroByteMask, WordOf;
    MaskOctets(Byte(q, 0), Byte(q, 1), Byte(q, 2), Byte(q, 3), Byte(q, 4), Byte(q, 5), Byte(q, 6), Byte(q, 7));
    if HasZeroByte(q) {
      var j: nat :| j < 8 && Byte(q, j) == 0;
      assert j == 0 || j == 1 || j == 2 || j == 3 || j == 4 || j == 5 || j == 6 || j == 7;
    }
  }
}
