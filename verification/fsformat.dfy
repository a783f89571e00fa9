/** The bytes on disk: where the bit of a block, the byte of a file and the fields of a directory
    entry are, by their numbers in fs.h. */
module FsFormat {
  import opened Basics
  import opened FsBits
  import opened FsMap
  import opened FileSys
  import opened Dirs

  lemma {:induction false} BitIs(x: nat, k: nat)
    ensures Pow2(k) > 0 && (Bit(x, k) <==> x / Pow2(k) % 2 == 1)
  {
    if k > 0 {
      BitIs(x / 2, k - 1);
      Halves(x, Pow2(k - 1));
    }
  }

  lemma Halves(x: nat, p: nat)
    requires p > 0
    ensures x / (2 * p) == x / 2 / p
  {
    var q := x / 2 / p;
    var r := x / 2 % p;
    assert x / 2 == q * p + r;
    assert x == (2 * p) * q + (2 * r + x % 2) by { assert 2 * (q * p) == (2 * p) * q; }
    Quotient(x, 2 * p, q, 2 * r + x % 2);
  }

  /** Block x is in use when bit x % 8 is set in byte x / 8 of the map, counted from its first block:
      1024 bytes to a block. */
  lemma UsedFormat(d: seq<Blk>, bmapstart: nat, x: nat)
    requires bmapstart + x / 8192 < |d|
    ensures x / 8 % 1024 < 1024 && Pow2(x % 8) > 0
    ensures Used(d, bmapstart, x) <==> d[bmapstart + x / 8192][x / 8 % 1024] / Pow2(x % 8) % 2 == 1
  {
    hide Bit, Pow2;
    BitPlace(x);
    BitIs(d[bmapstart + x / 8192][x / 8 % 1024], x % 8);
  }

  lemma BitPlace(x: nat)
    ensures MapByte(x) == x / 8 % 1024 && x % BPB % 8 == x % 8
  {
    var a, y := x / 8192, x % 8192;
    Quotient(x, 8, 1024 * a + y / 8, y % 8);
  }

  /** The number at word j of a block of words: four bytes, the least significant first. */
  function WordAt(b: Blk, j: nat): int
    requires 4 * j + 3 < 1024
  {
    var b0: int, b1: int, b2: int, b3: int := b[4 * j], b[4 * j + 1], b[4 * j + 2], b[4 * j + 3];
    b0 + 0x100 * b1 + 0x1_0000 * b2 + 0x100_0000 * b3
  }

  /** The disk block of byte k of a file: entry k / 1024 of addrs for the first twelve, and word
      k / 1024 - 12 of the block at addrs[12] after them. */
  lemma FileFormat(L: Layout, d: seq<Blk>, ns: seq<Inode>, owner: map<nat, Slot>, ino: nat, k: nat)
    requires Sound(L, d, ns, owner) && NoHoles(d, ns) && ino < |ns| && k < ns[ino].size
    ensures |ns[ino].addrs| == 13 && k / 1024 < 268 && |Content(d, ns, ino)| == ns[ino].size
    ensures k / 1024 < 12 ==> 0 < ns[ino].addrs[k / 1024] < |d|
                              && Content(d, ns, ino)[k] == d[ns[ino].addrs[k / 1024]][k % 1024]
    ensures k / 1024 >= 12 ==> 0 < ns[ino].addrs[12] < |d|
    ensures k / 1024 >= 12 ==> var b := WordAt(d[ns[ino].addrs[12]], k / 1024 - 12);
                               0 < b < |d| && Content(d, ns, ino)[k] == d[b][k % 1024]
  {
    hide Used, Content;
    SoundMeans(L, d, ns, owner);
    var bn := k / 1024;
    SizeIs(d, ns, ino, k);
    ShapeIs(L, d, ns, owner, ino);
    assert Filled(d, ns, ino, bn);
    assert SlotOk(|ns|, SlotOf(ino, bn));
    if bn >= 12 { assert SlotOk(|ns|, Indirect(ino)); }
  }

  lemma SizeIs(d: seq<Blk>, ns: seq<Inode>, ino: nat, k: nat)
    requires ino < |ns| && k < ns[ino].size
    ensures |Content(d, ns, ino)| == ns[ino].size && Content(d, ns, ino)[k] == FileByte(d, ns, ino, k)
  {
    hide FileByte;
  }

  lemma ShapeIs(L: Layout, d: seq<Blk>, ns: seq<Inode>, owner: map<nat, Slot>, ino: nat)
    requires Sound(L, d, ns, owner) && ino < |ns|
    ensures |ns[ino].addrs| == 13 && ns[ino].size <= 268 * 1024 && |d| == L.size && L.data > 0
  {
    hide Used, At;
  }

  /** A name is the bytes up to a NUL or a limit. */
  lemma {:induction false} NameFormat(s: seq<byte>, n: nat)
    ensures Key(s, n) <= s && |Key(s, n)| <= n && 0 !in Key(s, n)
    ensures |Key(s, n)| < n && |Key(s, n)| < |s| ==> s[|Key(s, n)|] == 0
  {
    if !(n == 0 || s == [] || s[0] == 0) { NameFormat(s[1..], n - 1); }
  }

  /** Directory entry i is 16 bytes: the inode number in two, the least significant first, then the
      name, up to a NUL or 14 bytes.  It is free when the number is 0. */
  lemma EntryFormat(f: seq<byte>, i: nat, name: seq<byte>)
    requires 16 * i + 16 <= |f|
    ensures var lo: int, hi: int := f[16 * i], f[16 * i + 1];
            && (i + 1) * DESIZE <= |f| && Entry(f, i).inum == lo + 0x100 * hi
            && Entry(f, i).name == f[16 * i + 2..16 * i + 16]
            && (Binds(f, i, name) <==> lo + hi > 0 && Key(f[16 * i + 2..16 * i + 16], 14) == name)
  {
    var e := f[i * DESIZE..(i + 1) * DESIZE];
    assert e[0] == f[16 * i] && e[1] == f[16 * i + 1];
    assert e[2..] == f[16 * i + 2..16 * i + 16];
  }
}
