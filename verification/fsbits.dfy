/** Blocks as bytes: the bits of the free map and the words of an indirect block. */
module FsBits {
  import opened Basics

  const BSIZE: nat := 1024
  const BPB: nat := 8192            // bitmap bits per block
  const NINDIRECT: nat := 256       // words per block
  const WORD: nat := 0x1_0000_0000

  type Blk = b: seq<byte> | |b| == BSIZE witness seq(BSIZE, _ => 0)

  function Zeros(): Blk { seq(BSIZE, _ => 0) }

  // ---- bits of a byte ----

  /** x >> k & 1. */
  predicate Bit(x: nat, k: nat) { if k == 0 then x % 2 == 1 else Bit(x / 2, k - 1) }

  /** x | 1 << k. */
  function SetBit(x: nat, k: nat): nat { if k == 0 then x - x % 2 + 1 else 2 * SetBit(x / 2, k - 1) + x % 2 }

  /** x & ~(1 << k). */
  function ClearBit(x: nat, k: nat): nat { if k == 0 then x - x % 2 else 2 * ClearBit(x / 2, k - 1) + x % 2 }

  function Pow2(n: nat): nat { if n == 0 then 1 else 2 * Pow2(n - 1) }

  lemma {:induction false} SetRange(x: nat, k: nat, n: nat)
    requires x < Pow2(n) && k < n
    ensures SetBit(x, k) < Pow2(n) && ClearBit(x, k) < Pow2(n)
  {
    if k > 0 { SetRange(x / 2, k - 1, n - 1); }
  }

  lemma ByteRange(x: byte, k: nat)
    requires k < 8
    ensures SetBit(x, k) < 256 && ClearBit(x, k) < 256
  {
    assert Pow2(8) == 256 by { assert Pow2(4) == 16; assert Pow2(6) == 64; }
    SetRange(x, k, 8);
  }

  lemma {:induction false} BitOfSet(x: nat, k: nat, j: nat)
    ensures Bit(SetBit(x, k), j) <==> j == k || Bit(x, j)
  {
    if k > 0 {
      var y := SetBit(x / 2, k - 1);
      assert (2 * y + x % 2) / 2 == y && (2 * y + x % 2) % 2 == x % 2;
      if j > 0 { BitOfSet(x / 2, k - 1, j - 1); }
    }
  }

  lemma {:induction false} BitOfClear(x: nat, k: nat, j: nat)
    ensures Bit(ClearBit(x, k), j) <==> j != k && Bit(x, j)
  {
    if k > 0 {
      var y := ClearBit(x / 2, k - 1);
      assert (2 * y + x % 2) / 2 == y && (2 * y + x % 2) % 2 == x % 2;
      if j > 0 { BitOfClear(x / 2, k - 1, j - 1); }
    }
  }

  // ---- words ----

  /** ((uint*)data)[j], little-endian. */
  function GetWord(b: Blk, j: nat): nat
    requires j < NINDIRECT
  {
    var b0: int, b1: int, b2: int, b3: int := b[4 * j], b[4 * j + 1], b[4 * j + 2], b[4 * j + 3];
    b0 + 256 * b1 + 65536 * b2 + 16777216 * b3
  }

  function PutWord(b: Blk, j: nat, w: nat): Blk
    requires j < NINDIRECT && w < WORD
  {
    b[4 * j := w % 256][4 * j + 1 := w / 256 % 256][4 * j + 2 := w / 65536 % 256][4 * j + 3 := w / 16777216]
  }

  lemma GetOfPut(b: Blk, j: nat, w: nat, i: nat)
    requires j < NINDIRECT && w < WORD && i < NINDIRECT
    ensures GetWord(PutWord(b, j, w), i) == if i == j then w else GetWord(b, i)
  {
    assert w == w % 256 + 256 * (w / 256 % 256) + 65536 * (w / 65536 % 256) + 16777216 * (w / 16777216);
  }

  lemma GetZero(j: nat)
    requires j < NINDIRECT
    ensures GetWord(Zeros(), j) == 0
  {
  }

  // ---- the free map ----

  /** Where in the map the bit of block x is. */
  function MapBlock(bmapstart: nat, x: nat): nat { x / BPB + bmapstart }
  function MapByte(x: nat): nat { x % BPB / 8 }

  lemma MapIndex(x: nat, y: nat)
    ensures MapByte(x) < BSIZE
    ensures x / BPB == y / BPB && MapByte(x) == MapByte(y) && x % BPB % 8 == y % BPB % 8 ==> x == y
  {
  }

  predicate Used(d: seq<Blk>, bmapstart: nat, x: nat) {
    MapBlock(bmapstart, x) < |d| && (MapIndex(x, x); Bit(d[MapBlock(bmapstart, x)][MapByte(x)], x % BPB % 8))
  }

  /** The map with the bit of block x set. */
  function Marked(d: seq<Blk>, bmapstart: nat, x: nat): seq<Blk>
    requires MapBlock(bmapstart, x) < |d|
  {
    MapIndex(x, x);
    var m, i := MapBlock(bmapstart, x), MapByte(x);
    ByteRange(d[m][i], x % BPB % 8);
    d[m := d[m][i := SetBit(d[m][i], x % BPB % 8)]]
  }

  function Unmarked(d: seq<Blk>, bmapstart: nat, x: nat): seq<Blk>
    requires MapBlock(bmapstart, x) < |d|
  {
    MapIndex(x, x);
    var m, i := MapBlock(bmapstart, x), MapByte(x);
    ByteRange(d[m][i], x % BPB % 8);
    d[m := d[m][i := ClearBit(d[m][i], x % BPB % 8)]]
  }

  lemma UsedOfMarked(d: seq<Blk>, bmapstart: nat, x: nat, y: nat)
    requires MapBlock(bmapstart, x) < |d|
    ensures Used(Marked(d, bmapstart, x), bmapstart, y) <==> y == x || Used(d, bmapstart, y)
  {
    hide SetBit, Bit;
    MapIndex(x, y);
    MapIndex(y, x);
    if MapBlock(bmapstart, y) == MapBlock(bmapstart, x) && MapByte(y) == MapByte(x) {
      BitOfSet(d[MapBlock(bmapstart, x)][MapByte(x)], x % BPB % 8, y % BPB % 8);
    }
  }

  lemma UsedOfUnmarked(d: seq<Blk>, bmapstart: nat, x: nat, y: nat)
    requires MapBlock(bmapstart, x) < |d|
    ensures Used(Unmarked(d, bmapstart, x), bmapstart, y) <==> y != x && Used(d, bmapstart, y)
  {
    hide ClearBit, Bit;
    MapIndex(x, y);
    MapIndex(y, x);
    if MapBlock(bmapstart, y) == MapBlock(bmapstart, x) && MapByte(y) == MapByte(x) {
      BitOfClear(d[MapBlock(bmapstart, x)][MapByte(x)], x % BPB % 8, y % BPB % 8);
    }
  }
}
