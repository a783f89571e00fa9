/** fs.c: block allocation, the inode block map, and reading, writing and truncating
    files, over the flat block array that log and buffer cache provide. */
module FileSys {
  import opened Basics
  import opened FsBits
  import opened FsMap

  /** The bytes of a file. */
  ghost function Content(d: seq<Blk>, ns: seq<Inode>, ino: nat): seq<byte>
    requires ino < |ns|
  {
    seq<byte>(ns[ino].size, k requires 0 <= k < ns[ino].size => FileByte(d, ns, ino, k))
  }

  /** The bytes of every file. */
  ghost function Contents(d: seq<Blk>, ns: seq<Inode>): seq<seq<byte>> {
    seq(|ns|, i requires 0 <= i < |ns| => Content(d, ns, i))
  }

  /** src written at off: replaces what is there and extends the file. */
  function Overlay(f: seq<byte>, off: nat, src: seq<byte>): seq<byte>
    requires off <= |f|
  {
    f[..off] + src + (if off + |src| <= |f| then f[off + |src|..] else [])
  }

  function Min(a: nat, b: nat): nat { if a < b then a else b }

  /** No block is free. */
  ghost predicate DiskFull(L: Layout, d: seq<Blk>) { forall x: nat :: x < L.size ==> Used(d, L.bmapstart, x) }

  class Fs {
    const L: Layout
    var d: seq<Blk>
    var ns: seq<Inode>
    ghost var owner: map<nat, Slot>

    ghost predicate Valid()
      reads this
    {
      Sound(L, d, ns, owner) && NoHoles(d, ns)
    }

    /** A file system as mkfs leaves it before any file has blocks: metadata marked used. */
    constructor(layout: Layout, inodes: nat)
      requires LayoutOk(layout) && layout.data < BPB
      ensures Valid() && L == layout && |ns| == inodes && owner == map[]
              && forall i :: 0 <= i < inodes ==> Content(d, ns, i) == []
    {
      L := layout;
      d := seq(layout.size, _ => Zeros());
      ns := seq(inodes, _ => Inode(0, seq(NDIRECT + 1, _ => 0)));
      owner := map[];
      new;
      ZerosFree(L, d);
      var i := 0;
      while i < L.data
        invariant 0 <= i <= L.data && |d| == L.size
        invariant forall x: nat :: x < L.size ==> (Used(d, L.bmapstart, x) <==> x < i)
        modifies this`d
      {
        MapInside(L, i);
        ghost var d1 := d;
        d := Marked(d, L.bmapstart, i);
        forall x: nat | x < L.size ensures Used(d, L.bmapstart, x) <==> x < i + 1 {
          UsedOfMarked(d1, L.bmapstart, i, x);
        }
        i := i + 1;
      }
      Formatted(L, d, ns);
    }

    /** balloc: the first free block, marked and zeroed; 0 exactly when none is free. */
    method Balloc() returns (r: nat)
      requires LayoutOk(L) && |d| == L.size && forall x: nat :: x < L.data ==> Used(d, L.bmapstart, x)
      modifies this`d
      ensures r == 0 ==> d == old(d) && forall x: nat :: x < L.size ==> Used(d, L.bmapstart, x)
      ensures r != 0 ==> L.data <= r < L.size && !Used(old(d), L.bmapstart, r) && d == Taken(L, old(d), r)
      ensures r != 0 ==> forall x: nat :: x < r ==> Used(old(d), L.bmapstart, x)
    {
      hide Used, Bit, SetBit, Zeros, Taken;
      var b := 0;
      while b < L.size
        invariant b % BPB == 0 && d == old(d)
        invariant forall x: nat :: x < b && x < L.size ==> Used(d, L.bmapstart, x)
        decreases L.size - b
      {
        var bi := 0;
        while bi < BPB && b + bi < L.size
          invariant 0 <= bi <= BPB && d == old(d)
          invariant forall x: nat :: x < b + bi && x < L.size ==> Used(d, L.bmapstart, x)
        {
          MapAt(L, d, b, bi);
          var m := b / BPB + L.bmapstart;
          if !Bit(d[m][bi / 8], bi % 8) {
            ByteRange(d[m][bi / 8], bi % 8);
            d := d[m := d[m][bi / 8 := SetBit(d[m][bi / 8], bi % 8)]];
            d := d[b + bi := Zeros()];
            return b + bi;
          }
          bi := bi + 1;
        }
        b := b + BPB;
      }
      return 0;
    }

    /** bfree.  False is the "freeing free block" panic. */
    method Bfree(b: nat) returns (ok: bool)
      requires LayoutOk(L) && |d| == L.size && b < L.size
      modifies this`d
      ensures ok <==> Used(old(d), L.bmapstart, b)
      ensures d == if ok then Given(L, old(d), b) else old(d)
    {
      hide Bit, ClearBit;
      MapInside(L, b);
      MapIndex(b, b);
      var m, bi := b / BPB + L.bmapstart, b % BPB;
      if !Bit(d[m][bi / 8], bi % 8) { return false; }
      ByteRange(d[m][bi / 8], bi % 8);
      d := d[m := d[m][bi / 8 := ClearBit(d[m][bi / 8], bi % 8)]];
      return true;
    }

    /** The block in a slot, allocated if the slot is empty; 0 when the disk is full. */
    method Fetch(s: Slot) returns (a: nat)
      requires Valid() && SlotOk(|ns|, s) && (s.Listed? ==> At(d, ns, Indirect(s.ino)) != 0)
      modifies this`d, this`ns, this`owner
      ensures Valid() && KeepsFiles(old(d), old(ns), d, ns)
      ensures a == At(d, ns, s)
      ensures old(At(d, ns, s)) != 0 ==> d == old(d) && ns == old(ns) && owner == old(owner)
      ensures a == 0 ==> d == old(d) && ns == old(ns) && owner == old(owner)
                         && forall x: nat :: x < L.size ==> Used(d, L.bmapstart, x)
      ensures old(At(d, ns, s)) == 0 && a != 0 ==> d[a] == Zeros() && owner == old(owner)[a := s]
      ensures forall t :: SlotOk(|ns|, t) && t != s ==> At(d, ns, t) == old(At(d, ns, t))
    {
      hide At, Used, Taken, Zeros, Owns, MapExact, NoHoles, KeepsFiles, StoreDisk, StoreInode;
      KeepsRefl(L, d, ns, owner);
      a := At(d, ns, s);
      if a == 0 {
        MetaUsed(L, d, ns, owner);
        a := Balloc();
        if a == 0 { return; }
        AssignStep(L, old(d), old(ns), old(owner), s, a);
        d, ns := StoreDisk(d, ns, s, a), StoreInode(ns, s, a);
        owner := owner[a := s];
        KeepsSize(old(d), old(ns), d, ns);
        KeepsNoHoles(old(d), old(ns), d, ns);
      }
    }

    /** bmap.  None is the "out of range" panic.  Filled blocks of all files are kept. */
    method Bmap(ino: nat, bn: nat) returns (r: Option<nat>)
      requires Valid() && ino < |ns|
      modifies this`d, this`ns, this`owner
      ensures Valid() && KeepsFiles(old(d), old(ns), d, ns)
      ensures r.None? <==> bn >= MAXFILE
      ensures r.Some? ==> r.value == At(d, ns, SlotOf(ino, bn))
      ensures r.None? || Filled(old(d), old(ns), ino, bn) ==> d == old(d) && ns == old(ns) && owner == old(owner)
      ensures r == Some(0) ==> forall x: nat :: x < L.size ==> Used(d, L.bmapstart, x)
      ensures r == Some(0) && bn < NDIRECT ==> d == old(d)
      ensures r.Some? && r.value != 0 && !Filled(old(d), old(ns), ino, bn) ==> d[r.value] == Zeros()
    {
      hide At, Used, Zeros, Sound, NoHoles, KeepsFiles;
      SoundKeeps(L, d, ns, owner);
      if bn < NDIRECT {
        var a := Fetch(Direct(ino, bn));
        return Some(a);
      }
      var j := bn - NDIRECT;
      if j < NINDIRECT {
        IndirectFirst(L, d, ns, owner, ino, j);
        var ind := Fetch(Indirect(ino));
        if ind == 0 {
          EmptyListed(d, ns, ino, j);
          return Some(0);
        }
        ghost var d1, ns1 := d, ns;
        KeepsSize(old(d), old(ns), d, ns);
        var a := Fetch(Listed(ino, j));
        KeepsTrans(old(d), old(ns), d1, ns1, d, ns);
        return Some(a);
      }
      return None;
    }

    /** readi: the exact slice of the file, with nothing allocated on the way. */
    method Readi(ino: nat, off: nat, n: nat) returns (dst: seq<byte>)
      requires Valid() && ino < |ns| && off < WORD && n < WORD
      modifies this`d, this`ns, this`owner
      ensures d == old(d) && ns == old(ns) && owner == old(owner)
      ensures var f := Content(d, ns, ino);
              dst == if off > |f| || off + n >= WORD then [] else f[off..Min(off + n, |f|)]
    {
      hide At, Sound, NoHoles, KeepsFiles, FileByte, Filled;
      if off > ns[ino].size || (off + n) % WORD < off { return []; }
      var len := if (off + n) % WORD > ns[ino].size then ns[ino].size - off else n;
      assert len == Min(off + n, ns[ino].size) - off;
      ghost var f := Content(d, ns, ino);
      var tot, o := 0, off;
      dst := [];
      while tot < len
        invariant 0 <= tot <= len && o == off + tot && Valid()
        invariant d == old(d) && ns == old(ns) && owner == old(owner)
        invariant dst == f[off..o]
      {
        InFile(L, d, ns, owner, ino, o);
        var addr := Bmap(ino, o / BSIZE);
        if addr == None || addr == Some(0) {
          assert false;
          break;
        }
        var m := Min(len - tot, BSIZE - o % BSIZE);
        ReadChunk(L, d, ns, owner, ino, o, m);
        assert f[off..o + m] == f[off..o] + f[o..o + m];
        dst := dst + d[addr.value][o % BSIZE..o % BSIZE + m];
        tot, o := tot + m, o + m;
      }
    }

    /** writei.  -1 changes nothing; a result tot replaces exactly the tot bytes at off,
        extends the file if need be, and touches no other file.  Fewer bytes than asked for
        are written only when the disk is full. */
    method Writei(ino: nat, off: nat, src: seq<byte>) returns (r: int)
      requires Valid() && ino < |ns| && off < WORD && |src| < WORD
      modifies this`d, this`ns, this`owner
      ensures Valid() && |ns| == old(|ns|)
      ensures r == -1 <==> off > old(ns[ino].size) || off + |src| > MAXFILE * BSIZE
      ensures r == -1 ==> d == old(d) && ns == old(ns) && owner == old(owner)
      ensures r != -1 ==> 0 <= r <= |src| && Content(d, ns, ino) == Overlay(old(Content(d, ns, ino)), off, src[..r])
      ensures r != -1 ==> forall i :: 0 <= i < |ns| && i != ino ==> Content(d, ns, i) == old(Content(d, ns, i))
      ensures 0 <= r < |src| ==> DiskFull(L, d) && (r == 0 || (off + r) % BSIZE == 0)
      ensures r == 0 < |src| && off < NDIRECT * BSIZE ==> d == old(d)
    {
      hide At, Used, Zeros, Sound, NoHoles, KeepsFiles, FileByte, Filled, Progress, Content;
      if off > ns[ino].size || (off + |src|) % WORD < off { return -1; }
      if (off + |src|) % WORD > MAXFILE * BSIZE { return -1; }
      var n, tot, o := |src|, 0, off;
      SoundShape(L, d, ns, owner);
      ProgressStart(d, ns, ino, off, src);
      while tot < n
        invariant 0 <= tot <= n && o == off + tot && Valid() && |ns| == old(|ns|)
        invariant Progress(old(d), old(ns), d, ns, ino, off, src, tot)
        invariant tot == 0 || tot == n || o % BSIZE == 0
        invariant tot == 0 ==> d == old(d)
        decreases n - tot
      {
        ghost var d1, ns1 := d, ns;
        var addr := Bmap(ino, o / BSIZE);
        KeepsSize(d1, ns1, d, ns);
        ProgressKeep(old(d), old(ns), d1, ns1, d, ns, ino, off, src, tot);
        if addr == Some(0) { break; }
        var m := Min(n - tot, BSIZE - o % BSIZE);
        FilledAt(d, ns, ino, o / BSIZE);
        PokedSound(L, d, ns, owner, ino, o / BSIZE, o % BSIZE, src[tot..tot + m]);
        PokedNoHoles(L, d, ns, owner, ino, o / BSIZE, o % BSIZE, src[tot..tot + m]);
        ProgressMore(L, old(d), old(ns), d, ns, owner, ino, off, src, tot, m);
        d := Poked(d, addr.value, o % BSIZE, src[tot..tot + m]);
        tot, o := tot + m, o + m;
      }
      ProgressEnd(L, old(d), old(ns), d, ns, owner, ino, off, src, tot);
      if o > ns[ino].size { ns := ns[ino := ns[ino].(size := o)]; }
      return tot;
    }

    /** itrunc: exactly the blocks of ino are freed, wherever they are; it never meets a
        block that is already free. */
    method Itrunc(ino: nat) returns (ok: bool)
      requires Valid() && ino < |ns|
      modifies this`d, this`ns, this`owner
      ensures ok && Valid() && |ns| == old(|ns|)
      ensures owner == Others(old(owner), ino)
      ensures ns == old(ns)[ino := Inode(0, seq(NDIRECT + 1, _ => 0))]
      ensures forall i :: 0 <= i < |ns| && i != ino ==> Content(d, ns, i) == old(Content(d, ns, i))
    {
      hide At, Used, Given, Sound, Content, Others, OthersDirect, DataSame, NoHoles, Zapped, StoreInode, Without;
      ok := true;
      var i := 0;
      TruncStart(L, d, ns, owner, ino);
      SoundShape(L, d, ns, owner);
      while i < NDIRECT
        invariant 0 <= i <= NDIRECT && Sound(L, d, ns, owner) && |ns| == old(|ns|) && DataSame(L, old(d), d)
        invariant ns == Zapped(old(ns), ino, i) && owner == OthersDirect(old(owner), ino, i) && ok
      {
        ZappedAt(old(ns), ino, i);
        SoundShape(L, d, ns, owner);
        if ns[ino].addrs[i] != 0 {
          FreeDirect(L, d, ns, owner, ino, i);
          ghost var b, d1 := ns[ino].addrs[i], d;
          ok := Bfree(ns[ino].addrs[i]);
          if !ok { return; }
          DataSameMore(L, old(d), d1, d);
          TruncDirect(L, d1, ns, old(owner), owner, ino, i);
          ns := StoreInode(ns, Direct(ino, i), 0);
          owner := owner - {b};
        } else {
          TruncSkip(L, d, ns, old(owner), owner, ino, i);
        }
        i := i + 1;
      }
      ZappedAt(old(ns), ino, NDIRECT);
      SoundShape(L, d, ns, owner);
      OwnersOk(L, old(d), old(ns), old(owner));
      if ns[ino].addrs[NDIRECT] != 0 {
        TruncOwners(L, ns, d, old(owner), owner, ino);
        ghost var d1 := d;
        ok := TruncIndirect(ino);
        if !ok { return; }
        DataSameTrans(L, old(d), d1, d);
      } else {
        NoIndirect(L, d, ns, old(owner), owner, ino);
      }
      TruncEnd(L, old(d), old(ns), old(owner), d, ns, owner, ino);
      ns := ns[ino := ns[ino].(size := 0)];
    }

    /** itrunc's second half: the listed blocks, then the indirect block. */
    method TruncIndirect(ino: nat) returns (ok: bool)
      requires Sound(L, d, ns, owner) && ino < |ns| && |ns[ino].addrs| == NDIRECT + 1 && ns[ino].addrs[NDIRECT] != 0
      modifies this`d, this`ns, this`owner
      ensures ok && Sound(L, d, ns, owner) && DataSame(L, old(d), d)
      ensures ns == StoreInode(old(ns), Indirect(ino), 0)
      ensures owner == Without(old(owner), ino, NINDIRECT) - {old(ns)[ino].addrs[NDIRECT]}
    {
      hide At, Used, Given, Owns, MapExact, DataSame, Without, GetWord;
      var a := ns[ino].addrs[NDIRECT];
      IndirectBlock(L, d, ns, owner, ino);
      var words := d[a];
      WithoutNone(owner, ino);
      SoundShape(L, d, ns, owner);
      DataSameRefl(L, d);
      var j := 0;
      while j < NINDIRECT
        invariant 0 <= j <= NINDIRECT && ns == old(ns) && owner == old(owner) && |d| == L.size
        invariant Owns(L, d, ns, owner) && MapExact(L, d, Without(owner, ino, j)) && DataSame(L, old(d), d)
      {
        ListedWord(L, old(d), d, ns, owner, ino, j);
        FreeListed(L, d, ns, owner, ino, j);
        if GetWord(words, j) != 0 {
          ghost var d1 := d;
          GivenFrame(L, d, ns, owner, Without(owner, ino, j), GetWord(words, j));
          ok := Bfree(GetWord(words, j));
          if !ok { return; }
          DataSameMore(L, old(d), d1, d);
        }
        j := j + 1;
      }
      FreeIndirect(L, d, ns, owner, ino);
      ghost var d1 := d;
      ok := Bfree(a);
      if !ok { return; }
      DataSameMore(L, old(d), d1, d);
      ns := StoreInode(ns, Indirect(ino), 0);
      owner := Without(owner, ino, NINDIRECT) - {a};
    }
  }

  lemma {:induction false} ZeroBit(k: nat)
    ensures !Bit(0, k)
  {
    if k > 0 { ZeroBit(k - 1); }
  }

  lemma ZerosFree(L: Layout, d: seq<Blk>)
    requires LayoutOk(L) && |d| == L.size && forall x :: 0 <= x < |d| ==> d[x] == Zeros()
    ensures forall x: nat :: x < L.size ==> !Used(d, L.bmapstart, x)
  {
    hide Bit;
    forall x: nat | x < L.size ensures !Used(d, L.bmapstart, x) {
      MapInside(L, x);
      MapIndex(x, x);
      assert d[MapBlock(L.bmapstart, x)] == Zeros();
      ZeroBit(x % BPB % 8);
    }
  }

  lemma Formatted(L: Layout, d: seq<Blk>, ns: seq<Inode>)
    requires LayoutOk(L) && |d| == L.size && forall x: nat :: x < L.size ==> (Used(d, L.bmapstart, x) <==> x < L.data)
    requires forall i :: 0 <= i < |ns| ==> ns[i] == Inode(0, seq(NDIRECT + 1, _ => 0))
    ensures Sound(L, d, ns, map[]) && NoHoles(d, ns)
  {
    hide Used;
    forall s | SlotOk(|ns|, s) ensures At(d, ns, s) == 0 {
      assert ns[s.ino].addrs[NDIRECT] == 0;
    }
  }

  lemma MapAt(L: Layout, d: seq<Blk>, b: nat, bi: nat)
    requires LayoutOk(L) && |d| == L.size && b % BPB == 0 && bi < BPB && b + bi < L.size
    ensures b / BPB + L.bmapstart < L.data && bi / 8 < BSIZE
    ensures Used(d, L.bmapstart, b + bi) <==> Bit(d[b / BPB + L.bmapstart][bi / 8], bi % 8)
    ensures SetBit(d[b / BPB + L.bmapstart][bi / 8], bi % 8) < 256
    ensures var m := b / BPB + L.bmapstart;
            Taken(L, d, b + bi) == d[m := d[m][bi / 8 := SetBit(d[m][bi / 8], bi % 8)]][b + bi := Zeros()]
  {
    hide Bit, SetBit, Zeros;
    assert (b + bi) / BPB == b / BPB && (b + bi) % BPB == bi;
    MapInside(L, b + bi);
    ByteRange(d[b / BPB + L.bmapstart][bi / 8], bi % 8);
  }

  lemma MetaUsed(L: Layout, d: seq<Blk>, ns: seq<Inode>, owner: map<nat, Slot>)
    requires Sound(L, d, ns, owner)
    ensures |d| == L.size && forall x: nat :: x < L.data ==> Used(d, L.bmapstart, x)
  {
    hide At, Used;
  }

  lemma SoundKeeps(L: Layout, d: seq<Blk>, ns: seq<Inode>, owner: map<nat, Slot>)
    requires Sound(L, d, ns, owner)
    ensures KeepsFiles(d, ns, d, ns)
  {
    KeepsRefl(L, d, ns, owner);
  }

  lemma KeepsSize(d: seq<Blk>, ns: seq<Inode>, d': seq<Blk>, ns': seq<Inode>)
    requires KeepsFiles(d, ns, d', ns')
    ensures |ns'| == |ns|
  {
  }

  /** A listed block can only be there if the indirect block is. */
  lemma IndirectFirst(L: Layout, d: seq<Blk>, ns: seq<Inode>, owner: map<nat, Slot>, ino: nat, j: nat)
    ensures At(d, ns, Listed(ino, j)) != 0 ==> At(d, ns, Indirect(ino)) != 0
  {
  }

  lemma EmptyListed(d: seq<Blk>, ns: seq<Inode>, ino: nat, j: nat)
    requires At(d, ns, Indirect(ino)) == 0
    ensures At(d, ns, Listed(ino, j)) == 0
  {
  }

  // ---- reading ----

  lemma InFile(L: Layout, d: seq<Blk>, ns: seq<Inode>, owner: map<nat, Slot>, ino: nat, o: nat)
    requires Sound(L, d, ns, owner) && NoHoles(d, ns) && ino < |ns| && o < ns[ino].size
    ensures o / BSIZE < MAXFILE && Filled(d, ns, ino, o / BSIZE) && At(d, ns, SlotOf(ino, o / BSIZE)) != 0
  {
    hide At, Owns, MapExact;
    assert o / BSIZE * BSIZE <= o;
  }

  lemma ReadChunk(L: Layout, d: seq<Blk>, ns: seq<Inode>, owner: map<nat, Slot>, ino: nat, o: nat, m: nat)
    requires Sound(L, d, ns, owner) && NoHoles(d, ns) && ino < |ns| && o + m <= ns[ino].size && o % BSIZE + m <= BSIZE
             && m > 0
    ensures var b := At(d, ns, SlotOf(ino, o / BSIZE));
            b < |d| && d[b][o % BSIZE..o % BSIZE + m] == Content(d, ns, ino)[o..o + m]
  {
    hide At, Sound, NoHoles;
    InFile(L, d, ns, owner, ino, o);
    DataBlock(L, d, ns, owner, ino, o / BSIZE);
    var want := Content(d, ns, ino)[o..o + m];
    var got := d[At(d, ns, SlotOf(ino, o / BSIZE))][o % BSIZE..o % BSIZE + m];
    forall k | 0 <= k < m ensures want[k] == got[k] { Offset(o / BSIZE, o % BSIZE, m, o + k); }
  }

  // ---- writing ----

  /** Byte k of file i when tot bytes have been written at off of ino: what was written, or
      what was there if there was a block. */
  ghost predicate ByteOk(d0: seq<Blk>, ns0: seq<Inode>, d: seq<Blk>, ns: seq<Inode>, ino: nat, off: nat,
                         src: seq<byte>, tot: nat, i: nat, k: nat) {
    if i == ino && off <= k < off + tot
    then Filled(d, ns, i, k / BSIZE) && k - off < |src| && FileByte(d, ns, i, k) == src[k - off]
    else Filled(d0, ns0, i, k / BSIZE) ==> Filled(d, ns, i, k / BSIZE)
                                           && FileByte(d, ns, i, k) == FileByte(d0, ns0, i, k)
  }

  ghost predicate Progress(d0: seq<Blk>, ns0: seq<Inode>, d: seq<Blk>, ns: seq<Inode>, ino: nat, off: nat,
                           src: seq<byte>, tot: nat) {
    && |ns| == |ns0| && tot <= |src| && (forall i :: 0 <= i < |ns| ==> ns[i].size == ns0[i].size)
    && (forall i: nat, k: nat :: i < |ns| && k < MAXFILE * BSIZE ==> ByteOk(d0, ns0, d, ns, ino, off, src, tot, i, k))
  }

  lemma ProgressStart(d: seq<Blk>, ns: seq<Inode>, ino: nat, off: nat, src: seq<byte>)
    ensures Progress(d, ns, d, ns, ino, off, src, 0)
  {
    hide FileByte, Filled;
  }

  lemma ProgressKeep(d0: seq<Blk>, ns0: seq<Inode>, d1: seq<Blk>, ns1: seq<Inode>, d: seq<Blk>, ns: seq<Inode>,
                     ino: nat, off: nat, src: seq<byte>, tot: nat)
    requires Progress(d0, ns0, d1, ns1, ino, off, src, tot) && KeepsFiles(d1, ns1, d, ns)
    ensures Progress(d0, ns0, d, ns, ino, off, src, tot)
  {
    hide FileByte, Filled;
    forall i: nat, k: nat | i < |ns| && k < MAXFILE * BSIZE ensures ByteOk(d0, ns0, d, ns, ino, off, src, tot, i, k) {
      assert ByteOk(d0, ns0, d1, ns1, ino, off, src, tot, i, k);
      if Filled(d1, ns1, i, k / BSIZE) { KeptByte(d1, ns1, d, ns, i, k); }
    }
  }

  lemma FilledAt(d: seq<Blk>, ns: seq<Inode>, ino: nat, bn: nat)
    ensures Filled(d, ns, ino, bn) <==> At(d, ns, SlotOf(ino, bn)) != 0
  {
  }

  lemma PokedNoHoles(L: Layout, d: seq<Blk>, ns: seq<Inode>, owner: map<nat, Slot>, ino: nat, bn: nat, o: nat,
                     chunk: seq<byte>)
    requires Sound(L, d, ns, owner) && NoHoles(d, ns) && ino < |ns| && bn < MAXFILE && Filled(d, ns, ino, bn)
             && o + |chunk| <= BSIZE
    requires At(d, ns, SlotOf(ino, bn)) < |d|
    ensures NoHoles(Poked(d, At(d, ns, SlotOf(ino, bn)), o, chunk), ns)
  {
    hide At, Used, Owns, MapExact, Poked;
    PokedSound(L, d, ns, owner, ino, bn, o, chunk);
    var d' := Poked(d, At(d, ns, SlotOf(ino, bn)), o, chunk);
    forall i: nat, k: nat | i < |ns| && k * BSIZE < ns[i].size ensures Filled(d', ns, i, k) {
      assert Filled(d, ns, i, k);
      SlotOfOk(|ns|, i, k);
    }
  }

  lemma ProgressMore(L: Layout, d0: seq<Blk>, ns0: seq<Inode>, d: seq<Blk>, ns: seq<Inode>, owner: map<nat, Slot>,
                     ino: nat, off: nat, src: seq<byte>, tot: nat, m: nat)
    requires Sound(L, d, ns, owner) && Progress(d0, ns0, d, ns, ino, off, src, tot) && ino < |ns|
    requires tot + m <= |src| && off + |src| <= MAXFILE * BSIZE && (off + tot) % BSIZE + m <= BSIZE && m > 0
    requires Filled(d, ns, ino, (off + tot) / BSIZE) && At(d, ns, SlotOf(ino, (off + tot) / BSIZE)) < |d|
    ensures var d' := Poked(d, At(d, ns, SlotOf(ino, (off + tot) / BSIZE)), (off + tot) % BSIZE, src[tot..tot + m]);
            Progress(d0, ns0, d', ns, ino, off, src, tot + m)
  {
    hide At, Sound, FileByte, Filled, Poked;
    var o := off + tot;
    var bn, chunk := o / BSIZE, src[tot..tot + m];
    var d' := Poked(d, At(d, ns, SlotOf(ino, bn)), o % BSIZE, chunk);
    var tot' := tot + m;
    forall i: nat, k: nat | i < |ns| && k < MAXFILE * BSIZE ensures ByteOk(d0, ns0, d', ns, ino, off, src, tot', i, k) {
      assert ByteOk(d0, ns0, d, ns, ino, off, src, tot, i, k);
      PokedByte(L, d, ns, owner, ino, bn, o % BSIZE, chunk, i, k);
      Offset(bn, o % BSIZE, m, k);
    }
  }

  lemma ProgressEnd(L: Layout, d0: seq<Blk>, ns0: seq<Inode>, d: seq<Blk>, ns: seq<Inode>, owner: map<nat, Slot>,
                    ino: nat, off: nat, src: seq<byte>, tot: nat)
    requires Sound(L, d, ns, owner) && NoHoles(d, ns) && NoHoles(d0, ns0)
             && Progress(d0, ns0, d, ns, ino, off, src, tot) && ino < |ns|
    requires Shape(ns0) && tot <= |src| && off + |src| <= MAXFILE * BSIZE && off <= ns0[ino].size
    ensures var ns' := if off + tot > ns[ino].size then ns[ino := ns[ino].(size := off + tot)] else ns;
            && Sound(L, d, ns', owner) && NoHoles(d, ns')
            && Content(d, ns', ino) == Overlay(Content(d0, ns0, ino), off, src[..tot])
            && forall i :: 0 <= i < |ns| && i != ino ==> Content(d, ns', i) == Content(d0, ns0, i)
  {
    hide At, Sound, FileByte, Filled, NoHoles, Progress;
    var ns' := if off + tot > ns[ino].size then ns[ino := ns[ino].(size := off + tot)] else ns;
    var size := ns'[ino].size;
    ProgressSizes(d0, ns0, d, ns, ino, off, src, tot);
    assert ns' == ns[ino := ns[ino].(size := size)];
    ResizedSound(L, d, ns, owner, ino, size);
    ProgressFills(d0, ns0, d, ns, ino, off, src, tot);
    SizeFilled(d, ns, ino);
    ResizedNoHoles(d, ns, ino, size);
    ProgressContent(d0, ns0, d, ns, ino, off, src, tot, size);
    forall i | 0 <= i < |ns| && i != ino ensures Content(d, ns', i) == Content(d0, ns0, i) {
      OtherContent(d0, ns0, d, ns, ino, off, src, tot, size, i);
    }
  }

  lemma ProgressSizes(d0: seq<Blk>, ns0: seq<Inode>, d: seq<Blk>, ns: seq<Inode>, ino: nat, off: nat, src: seq<byte>,
                      tot: nat)
    requires Progress(d0, ns0, d, ns, ino, off, src, tot)
    ensures |ns| == |ns0| && forall i :: 0 <= i < |ns| ==> ns[i].size == ns0[i].size
  {
  }

  lemma SizeFilled(d: seq<Blk>, ns: seq<Inode>, ino: nat)
    requires NoHoles(d, ns) && ino < |ns|
    ensures forall bn: nat :: bn * BSIZE < ns[ino].size ==> Filled(d, ns, ino, bn)
  {
    hide Filled;
  }

  /** Sizes do not matter to slots. */
  lemma ResizedAt(d: seq<Blk>, ns: seq<Inode>, ino: nat, size: nat, s: Slot)
    requires ino < |ns|
    ensures At(d, ns[ino := ns[ino].(size := size)], s) == At(d, ns, s)
  {
  }

  lemma ResizedSound(L: Layout, d: seq<Blk>, ns: seq<Inode>, owner: map<nat, Slot>, ino: nat, size: nat)
    requires Sound(L, d, ns, owner) && ino < |ns| && size <= MAXFILE * BSIZE
    ensures Sound(L, d, ns[ino := ns[ino].(size := size)], owner)
  {
    hide At, Used;
    var ns' := ns[ino := ns[ino].(size := size)];
    forall s ensures At(d, ns', s) == At(d, ns, s) { ResizedAt(d, ns, ino, size, s); }
  }

  lemma ResizedNoHoles(d: seq<Blk>, ns: seq<Inode>, ino: nat, size: nat)
    requires NoHoles(d, ns) && ino < |ns| && forall bn: nat :: bn * BSIZE < size ==> Filled(d, ns, ino, bn)
    ensures NoHoles(d, ns[ino := ns[ino].(size := size)])
  {
    hide At;
    var ns' := ns[ino := ns[ino].(size := size)];
    forall i: nat, bn: nat | i < |ns'| && bn * BSIZE < ns'[i].size ensures Filled(d, ns', i, bn) {
      ResizedAt(d, ns, ino, size, SlotOf(i, bn));
      assert Filled(d, ns, i, bn);
    }
  }

  lemma ResizedByte(d: seq<Blk>, ns: seq<Inode>, ino: nat, size: nat, i: nat, k: nat)
    requires ino < |ns|
    ensures FileByte(d, ns[ino := ns[ino].(size := size)], i, k) == FileByte(d, ns, i, k)
  {
    hide At;
    ResizedAt(d, ns, ino, size, SlotOf(i, k / BSIZE));
  }

  /** Every block below what has been written is there. */
  lemma ProgressFills(d0: seq<Blk>, ns0: seq<Inode>, d: seq<Blk>, ns: seq<Inode>, ino: nat, off: nat, src: seq<byte>,
                      tot: nat)
    requires NoHoles(d, ns) && Progress(d0, ns0, d, ns, ino, off, src, tot) && ino < |ns| && off <= ns[ino].size
    requires off + tot <= MAXFILE * BSIZE
    ensures forall bn: nat :: bn * BSIZE < off + tot ==> Filled(d, ns, ino, bn)
  {
    hide At, FileByte;
    forall bn: nat | bn * BSIZE < off + tot ensures Filled(d, ns, ino, bn) {
      if bn * BSIZE >= ns[ino].size {
        var k := bn * BSIZE;
        assert k / BSIZE == bn;
        assert ByteOk(d0, ns0, d, ns, ino, off, src, tot, ino, k);
      }
    }
  }

  lemma ProgressContent(d0: seq<Blk>, ns0: seq<Inode>, d: seq<Blk>, ns: seq<Inode>, ino: nat, off: nat, src: seq<byte>,
                        tot: nat, size: nat)
    requires NoHoles(d0, ns0) && Shape(ns0) && Progress(d0, ns0, d, ns, ino, off, src, tot) && ino < |ns|
    requires off <= ns0[ino].size && off + tot <= MAXFILE * BSIZE
    requires size == if off + tot > ns[ino].size then off + tot else ns[ino].size
    ensures tot <= |src| && |ns| == |ns0|
    ensures Content(d, ns[ino := ns[ino].(size := size)], ino) == Overlay(Content(d0, ns0, ino), off, src[..tot])
  {
    hide At, FileByte, Filled;
    var ns' := ns[ino := ns[ino].(size := size)];
    var f, g := Content(d0, ns0, ino), Content(d, ns', ino);
    var w := Overlay(f, off, src[..tot]);
    assert |w| == |g| == size;
    forall k | 0 <= k < size ensures g[k] == w[k] {
      ResizedByte(d, ns, ino, size, ino, k);
      assert ByteOk(d0, ns0, d, ns, ino, off, src, tot, ino, k);
      if !(off <= k < off + tot) {
        assert k / BSIZE * BSIZE <= k;
        assert Filled(d0, ns0, ino, k / BSIZE);
      }
    }
  }

  lemma OtherContent(d0: seq<Blk>, ns0: seq<Inode>, d: seq<Blk>, ns: seq<Inode>, ino: nat, off: nat, src: seq<byte>,
                     tot: nat, size: nat, i: nat)
    requires NoHoles(d0, ns0) && Shape(ns0) && Progress(d0, ns0, d, ns, ino, off, src, tot) && ino < |ns| && i < |ns|
             && i != ino
    ensures |ns| == |ns0| && Content(d, ns[ino := ns[ino].(size := size)], i) == Content(d0, ns0, i)
  {
    hide At, FileByte, Filled;
    var ns' := ns[ino := ns[ino].(size := size)];
    var f, g := Content(d0, ns0, i), Content(d, ns', i);
    forall k | 0 <= k < |f| ensures g[k] == f[k] {
      ResizedByte(d, ns, ino, size, i, k);
      assert ByteOk(d0, ns0, d, ns, ino, off, src, tot, i, k);
      assert k / BSIZE * BSIZE <= k;
      assert Filled(d0, ns0, i, k / BSIZE);
    }
  }

  // ---- truncating ----

  /** What the others own. */
  ghost function Others(owner: map<nat, Slot>, ino: nat): map<nat, Slot> {
    map b | b in owner && owner[b].ino != ino :: owner[b]
  }

  /** The owners without the first i direct blocks of ino. */
  ghost function OthersDirect(owner: map<nat, Slot>, ino: nat, i: nat): map<nat, Slot> {
    map b | b in owner && !(owner[b].Direct? && owner[b].ino == ino && owner[b].i < i) :: owner[b]
  }

  /** The inode with its first i addresses cleared. */
  ghost function Zapped(ns: seq<Inode>, ino: nat, i: nat): seq<Inode>
    requires ino < |ns|
  {
    var a := ns[ino].addrs;
    ns[ino := ns[ino].(addrs := seq(|a|, q requires 0 <= q < |a| => if q < i then 0 else a[q]))]
  }

  /** Data blocks have the bytes they had. */
  ghost predicate DataSame(L: Layout, d0: seq<Blk>, d: seq<Blk>) {
    |d0| == |d| == L.size && forall x :: L.data <= x < L.size ==> d[x] == d0[x]
  }

  lemma DataSameRefl(L: Layout, d: seq<Blk>)
    requires |d| == L.size
    ensures DataSame(L, d, d)
  {
  }

  lemma DataSameTrans(L: Layout, d0: seq<Blk>, d1: seq<Blk>, d: seq<Blk>)
    requires DataSame(L, d0, d1) && DataSame(L, d1, d)
    ensures DataSame(L, d0, d)
  {
  }

  lemma DataSameMore(L: Layout, d0: seq<Blk>, d1: seq<Blk>, d: seq<Blk>)
    requires DataSame(L, d0, d1) && |d| == L.size && forall x :: L.data <= x < L.size ==> d[x] == d1[x]
    ensures DataSame(L, d0, d)
  {
  }

  lemma SoundShape(L: Layout, d: seq<Blk>, ns: seq<Inode>, owner: map<nat, Slot>)
    requires Sound(L, d, ns, owner)
    ensures LayoutOk(L) && |d| == L.size && Shape(ns)
  {
    hide At, Used;
  }

  lemma TruncStart(L: Layout, d: seq<Blk>, ns: seq<Inode>, owner: map<nat, Slot>, ino: nat)
    requires Sound(L, d, ns, owner) && ino < |ns|
    ensures ns == Zapped(ns, ino, 0) && owner == OthersDirect(owner, ino, 0) && DataSame(L, d, d)
  {
    hide At, Used;
    assert ns[ino].addrs == Zapped(ns, ino, 0)[ino].addrs;
  }

  lemma ZappedAt(ns: seq<Inode>, ino: nat, i: nat)
    requires ino < |ns| && Shape(ns) && i <= NDIRECT
    ensures var z := Zapped(ns, ino, i);
            && |z| == |ns| && |z[ino].addrs| == NDIRECT + 1 && z[ino].addrs[i] == ns[ino].addrs[i] && Shape(z)
            && (i < NDIRECT ==> StoreInode(z, Direct(ino, i), 0) == Zapped(ns, ino, i + 1))
            && (i == NDIRECT ==> StoreInode(z, Indirect(ino), 0) == Zapped(ns, ino, i + 1))
            && (ns[ino].addrs[i] == 0 ==> z == Zapped(ns, ino, i + 1))
  {
    var z, z' := Zapped(ns, ino, i), Zapped(ns, ino, i + 1);
    assert z[ino].addrs[i := 0] == z'[ino].addrs;
    if ns[ino].addrs[i] == 0 { assert z[ino].addrs == z'[ino].addrs; }
  }

  lemma TruncDirect(L: Layout, d: seq<Blk>, ns: seq<Inode>, owner0: map<nat, Slot>, owner: map<nat, Slot>, ino: nat,
                    i: nat)
    requires Sound(L, d, ns, owner) && owner == OthersDirect(owner0, ino, i) && ino < |ns| && i < NDIRECT
             && ns[ino].addrs[i] != 0
    ensures OthersDirect(owner0, ino, i + 1) == owner - {ns[ino].addrs[i]}
  {
    hide At, Used;
    DirectAt(d, ns, ino, i);
    var s := Direct(ino, i);
    assert OwnedBy(owner, At(d, ns, s), s);
    forall b | b in owner ensures owner[b] == s <==> b == ns[ino].addrs[i] {}
  }

  lemma TruncSkip(L: Layout, d: seq<Blk>, ns: seq<Inode>, owner0: map<nat, Slot>, owner: map<nat, Slot>, ino: nat,
                  i: nat)
    requires Sound(L, d, ns, owner) && owner == OthersDirect(owner0, ino, i) && ino < |ns| && i < NDIRECT
             && ns[ino].addrs[i] == 0
    requires L.data > 0
    ensures OthersDirect(owner0, ino, i + 1) == owner
  {
    hide At, Used;
    DirectAt(d, ns, ino, i);
    forall b | b in owner ensures owner[b] != Direct(ino, i) {}
  }

  lemma NoIndirect(L: Layout, d: seq<Blk>, ns: seq<Inode>, owner0: map<nat, Slot>, owner: map<nat, Slot>, ino: nat)
    requires Sound(L, d, ns, owner) && owner == OthersDirect(owner0, ino, NDIRECT) && ino < |ns|
             && ns[ino].addrs[NDIRECT] == 0
    requires forall b :: b in owner0 ==> SlotOk(|ns|, owner0[b])
    ensures owner == Others(owner0, ino)
  {
    hide At, Used;
    DirectAt(d, ns, ino, NDIRECT);
    forall b | b in owner ensures owner[b].ino != ino {
      if owner[b].Listed? && owner[b].ino == ino { EmptyListed(d, ns, ino, owner[b].j); }
    }
  }

  lemma IndirectBlock(L: Layout, d: seq<Blk>, ns: seq<Inode>, owner: map<nat, Slot>, ino: nat)
    requires Sound(L, d, ns, owner) && ino < |ns| && |ns[ino].addrs| == NDIRECT + 1 && ns[ino].addrs[NDIRECT] != 0
    ensures L.data <= ns[ino].addrs[NDIRECT] < |d| && At(d, ns, Indirect(ino)) == ns[ino].addrs[NDIRECT]
    ensures ns[ino].addrs[NDIRECT] in owner && owner[ns[ino].addrs[NDIRECT]] == Indirect(ino)
  {
    hide At, Used;
    DirectAt(d, ns, ino, NDIRECT);
    assert OwnedBy(owner, At(d, ns, Indirect(ino)), Indirect(ino));
  }

  lemma WithoutNone(owner: map<nat, Slot>, ino: nat)
    ensures Without(owner, ino, 0) == owner
  {
  }

  /** The words read before the loop are still the ones in the block. */
  lemma ListedWord(L: Layout, d0: seq<Blk>, d: seq<Blk>, ns: seq<Inode>, owner: map<nat, Slot>, ino: nat, j: nat)
    requires DataSame(L, d0, d) && ino < |ns| && |ns[ino].addrs| == NDIRECT + 1 && j < NINDIRECT && L.data > 0
    requires L.data <= ns[ino].addrs[NDIRECT] < L.size
    ensures At(d, ns, Listed(ino, j)) == GetWord(d0[ns[ino].addrs[NDIRECT]], j)
  {
  }

  /** All of ino's blocks are gone, and the other files are as they were. */
  lemma TruncEnd(L: Layout, d0: seq<Blk>, ns0: seq<Inode>, owner0: map<nat, Slot>, d: seq<Blk>, ns: seq<Inode>,
                 owner: map<nat, Slot>, ino: nat)
    requires Sound(L, d0, ns0, owner0) && NoHoles(d0, ns0) && Sound(L, d, ns, owner) && DataSame(L, d0, d)
    requires ino < |ns0| && ns == Zapped(ns0, ino, NDIRECT + 1)
    ensures var ns' := ns[ino := ns[ino].(size := 0)];
            && ns' == ns0[ino := Inode(0, seq(NDIRECT + 1, _ => 0))] && Sound(L, d, ns', owner) && NoHoles(d, ns')
            && forall i :: 0 <= i < |ns'| && i != ino ==> Content(d, ns', i) == Content(d0, ns0, i)
  {
    hide At, Used, Owns, MapExact;
    var ns' := ns[ino := ns[ino].(size := 0)];
    assert ns[ino].addrs == seq(NDIRECT + 1, _ => 0);
    ResizedSound(L, d, ns, owner, ino, 0);
    forall i: nat, bn: nat | i < |ns'| && bn * BSIZE < ns'[i].size ensures Filled(d, ns', i, bn) {
      assert Filled(d0, ns0, i, bn);
      OtherAt(L, d0, ns0, owner0, d, ns', i, bn);
    }
    forall i | 0 <= i < |ns'| && i != ino ensures Content(d, ns', i) == Content(d0, ns0, i) {
      var f, g := Content(d0, ns0, i), Content(d, ns', i);
      forall k | 0 <= k < |f| ensures g[k] == f[k] {
        assert k / BSIZE * BSIZE <= k;
        assert Filled(d0, ns0, i, k / BSIZE);
        OtherAt(L, d0, ns0, owner0, d, ns', i, k / BSIZE);
      }
    }
  }

  /** A block of a file whose inode is unchanged, when all data blocks are. */
  lemma OtherAt(L: Layout, d0: seq<Blk>, ns0: seq<Inode>, owner0: map<nat, Slot>, d: seq<Blk>, ns: seq<Inode>, i: nat,
                bn: nat)
    requires Sound(L, d0, ns0, owner0) && DataSame(L, d0, d) && i < |ns0| && |ns| == |ns0| && ns[i] == ns0[i]
             && bn < MAXFILE
    requires Filled(d0, ns0, i, bn)
    ensures At(d, ns, SlotOf(i, bn)) == At(d0, ns0, SlotOf(i, bn))
    ensures var b := At(d0, ns0, SlotOf(i, bn)); L.data <= b < |d| && b < |d0| && d[b] == d0[b]
  {
    hide Used;
    DataBlock(L, d0, ns0, owner0, i, bn);
    if bn >= NDIRECT {
      var a := Addr(ns0, i, NDIRECT);
      assert At(d0, ns0, Indirect(i)) == a;
      assert OwnedBy(owner0, a, Indirect(i));
    }
  }

  lemma TruncOwners(L: Layout, ns: seq<Inode>, d: seq<Blk>, owner0: map<nat, Slot>, owner: map<nat, Slot>, ino: nat)
    requires Sound(L, d, ns, owner) && owner == OthersDirect(owner0, ino, NDIRECT) && ino < |ns|
             && |ns[ino].addrs| == NDIRECT + 1
    requires ns[ino].addrs[NDIRECT] != 0 && forall b :: b in owner0 ==> SlotOk(|ns|, owner0[b])
    ensures Without(owner, ino, NINDIRECT) - {ns[ino].addrs[NDIRECT]} == Others(owner0, ino)
  {
    hide At, Used;
    IndirectBlock(L, d, ns, owner, ino);
    forall b | b in owner ensures owner[b] == Indirect(ino) <==> b == ns[ino].addrs[NDIRECT] {}
  }

  lemma OwnersOk(L: Layout, d: seq<Blk>, ns: seq<Inode>, owner: map<nat, Slot>)
    requires Sound(L, d, ns, owner)
    ensures forall b :: b in owner ==> SlotOk(|ns|, owner[b])
  {
    hide At, Used;
  }
}
