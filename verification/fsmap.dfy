/** The block map of inodes (fs.c): which block is behind which slot, who owns each
    block, and the bytes of each file. */
module FsMap {
  import opened Basics
  import opened FsBits

  const NDIRECT: nat := 12
  const MAXFILE: nat := 268         // NDIRECT + NINDIRECT

  datatype Inode = Inode(size: nat, addrs: seq<nat>)

  /** A place that can hold a block number. */
  datatype Slot = Direct(ino: nat, i: nat) | Indirect(ino: nat) | Listed(ino: nat, j: nat)

  /** Blocks below data are metadata; the free map is among them. */
  datatype Layout = Layout(size: nat, bmapstart: nat, data: nat)

  predicate LayoutOk(L: Layout) {
    0 < L.bmapstart && 0 < L.data <= L.size <= WORD && MapBlock(L.bmapstart, L.size - 1) < L.data
  }

  predicate SlotOk(n: nat, s: Slot) {
    s.ino < n && (s.Direct? ==> s.i < NDIRECT) && (s.Listed? ==> s.j < NINDIRECT)
  }

  function SlotOf(ino: nat, bn: nat): Slot { if bn < NDIRECT then Direct(ino, bn) else Listed(ino, bn - NDIRECT) }

  function Addr(ns: seq<Inode>, ino: nat, i: nat): nat {
    if ino < |ns| && i < |ns[ino].addrs| then ns[ino].addrs[i] else 0
  }

  /** The block number in a slot; 0 is none. */
  function At(d: seq<Blk>, ns: seq<Inode>, s: Slot): nat {
    match s
    case Direct(ino, i) => Addr(ns, ino, i)
    case Indirect(ino) => Addr(ns, ino, NDIRECT)
    case Listed(ino, j) => Word(d, Addr(ns, ino, NDIRECT), j)
  }

  function Word(d: seq<Blk>, a: nat, j: nat): nat {
    if a == 0 || a >= |d| || j >= NINDIRECT then 0 else GetWord(d[a], j)
  }

  /** A block in a slot is owned by that slot. */
  ghost predicate OwnedBy(owner: map<nat, Slot>, b: nat, s: Slot) { b in owner && owner[b] == s }

  /** The blocks in all slots are pairwise distinct data blocks, and owner says whose each is. */
  ghost predicate Owns(L: Layout, d: seq<Blk>, ns: seq<Inode>, owner: map<nat, Slot>) {
    && |d| == L.size
    && (forall s :: SlotOk(|ns|, s) && At(d, ns, s) != 0 ==> OwnedBy(owner, At(d, ns, s), s))
    && (forall b :: b in owner ==> L.data <= b < L.size && SlotOk(|ns|, owner[b]) && At(d, ns, owner[b]) == b)
  }

  ghost predicate Shape(ns: seq<Inode>) {
    forall ino :: 0 <= ino < |ns| ==> |ns[ino].addrs| == NDIRECT + 1 && ns[ino].size <= MAXFILE * BSIZE
  }

  /** The free map is exactly the metadata and the owned blocks. */
  ghost predicate MapExact(L: Layout, d: seq<Blk>, owner: map<nat, Slot>) {
    forall x: nat :: x < L.size ==> (Used(d, L.bmapstart, x) <==> x < L.data || x in owner)
  }

  ghost predicate Filled(d: seq<Blk>, ns: seq<Inode>, ino: nat, bn: nat) { At(d, ns, SlotOf(ino, bn)) != 0 }

  /** No block index below the size of a file is a hole. */
  ghost predicate NoHoles(d: seq<Blk>, ns: seq<Inode>) {
    forall ino: nat, bn: nat :: ino < |ns| && bn * BSIZE < ns[ino].size ==> Filled(d, ns, ino, bn)
  }

  ghost predicate Sound(L: Layout, d: seq<Blk>, ns: seq<Inode>, owner: map<nat, Slot>) {
    LayoutOk(L) && Shape(ns) && Owns(L, d, ns, owner) && MapExact(L, d, owner)
  }

  /** What soundness means, without the owner map: slots hold distinct data blocks, and the
      free map is exactly the metadata and the blocks in slots. */
  lemma SoundMeans(L: Layout, d: seq<Blk>, ns: seq<Inode>, owner: map<nat, Slot>)
    requires Sound(L, d, ns, owner)
    ensures forall s, t :: SlotOk(|ns|, s) && SlotOk(|ns|, t) && s != t && At(d, ns, s) != 0 ==>
                             At(d, ns, s) != At(d, ns, t)
    ensures forall s :: SlotOk(|ns|, s) && At(d, ns, s) != 0 ==> L.data <= At(d, ns, s) < L.size
    ensures forall x: nat :: x < L.size ==>
              (Used(d, L.bmapstart, x) <==> x < L.data || exists s :: SlotOk(|ns|, s) && At(d, ns, s) == x)
  {
    hide At, Used;
    forall s, t | SlotOk(|ns|, s) && SlotOk(|ns|, t) && s != t && At(d, ns, s) != 0
      ensures At(d, ns, s) != At(d, ns, t)
    {
      assert OwnedBy(owner, At(d, ns, s), s);
    }
    forall x: nat | x < L.size && x in owner ensures exists s :: SlotOk(|ns|, s) && At(d, ns, s) == x {
      assert SlotOk(|ns|, owner[x]) && At(d, ns, owner[x]) == x;
    }
  }

  // ---- what slots depend on ----

  /** Slots see only the indirect blocks. */
  lemma AtFrame(L: Layout, d: seq<Blk>, d': seq<Blk>, ns: seq<Inode>, owner: map<nat, Slot>, s: Slot)
    requires Owns(L, d, ns, owner) && |d'| == |d| && SlotOk(|ns|, s)
    requires forall b :: b in owner && owner[b].Indirect? ==> d'[b] == d[b]
    ensures At(d', ns, s) == At(d, ns, s)
  {
    if s.Listed? {
      var a := Addr(ns, s.ino, NDIRECT);
      assert At(d, ns, Indirect(s.ino)) == a;
      if a != 0 { assert OwnedBy(owner, a, Indirect(s.ino)); }
    }
  }

  /** Changing metadata, free blocks or file data leaves every slot as it is. */
  lemma OwnsFrame(L: Layout, d: seq<Blk>, d': seq<Blk>, ns: seq<Inode>, owner: map<nat, Slot>)
    requires Owns(L, d, ns, owner) && |d'| == |d|
    requires forall b :: b in owner && owner[b].Indirect? ==> d'[b] == d[b]
    ensures Owns(L, d', ns, owner)
    ensures forall s :: SlotOk(|ns|, s) ==> At(d', ns, s) == At(d, ns, s)
  {
    hide At;
    forall s | SlotOk(|ns|, s) ensures At(d', ns, s) == At(d, ns, s) { AtFrame(L, d, d', ns, owner, s); }
  }

  lemma SlotOfOk(n: nat, ino: nat, bn: nat)
    requires ino < n && bn < MAXFILE
    ensures SlotOk(n, SlotOf(ino, bn))
  {
  }

  lemma SlotOfInjective(ino: nat, bn: nat, ino': nat, bn': nat)
    requires SlotOf(ino, bn) == SlotOf(ino', bn')
    ensures ino == ino' && bn == bn'
  {
  }

  // ---- taking and giving back blocks ----

  /** balloc's effect: the bit is set and the block zeroed. */
  function Taken(L: Layout, d: seq<Blk>, b: nat): seq<Blk>
    requires LayoutOk(L) && |d| == L.size && b < L.size
  {
    MapInside(L, b);
    Marked(d, L.bmapstart, b)[b := Zeros()]
  }

  lemma MapInside(L: Layout, b: nat)
    requires LayoutOk(L) && b < L.size
    ensures L.bmapstart <= MapBlock(L.bmapstart, b) < L.data <= L.size
  {
    assert b / BPB <= (L.size - 1) / BPB;
  }

  /** Only the map block and the block itself change. */
  lemma TakenFrame(L: Layout, d: seq<Blk>, b: nat, x: nat)
    requires LayoutOk(L) && |d| == L.size && L.data <= b < L.size && L.data <= x < L.size
    ensures |Taken(L, d, b)| == |d|
    ensures x != b ==> Taken(L, d, b)[x] == d[x]
    ensures Taken(L, d, b)[b] == Zeros()
  {
    MapInside(L, b);
  }

  lemma UsedFrame(L: Layout, d: seq<Blk>, d': seq<Blk>, x: nat)
    requires LayoutOk(L) && |d| == L.size == |d'| && x < L.size && forall y :: 0 <= y < L.data ==> d'[y] == d[y]
    ensures Used(d', L.bmapstart, x) <==> Used(d, L.bmapstart, x)
  {
    MapInside(L, x);
  }

  lemma UsedOfTaken(L: Layout, d: seq<Blk>, b: nat, x: nat)
    requires LayoutOk(L) && |d| == L.size && L.data <= b < L.size && x < L.size
    ensures Used(Taken(L, d, b), L.bmapstart, x) <==> x == b || Used(d, L.bmapstart, x)
  {
    hide Used, Zeros;
    MapInside(L, b);
    var m := Marked(d, L.bmapstart, b);
    UsedOfMarked(d, L.bmapstart, b, x);
    UsedFrame(L, m, m[b := Zeros()], x);
  }

  /** Storing a block number in a slot. */
  function StoreInode(ns: seq<Inode>, s: Slot, b: nat): (r: seq<Inode>)
    requires SlotOk(|ns|, s) && Shape(ns)
    ensures |r| == |ns|
  {
    match s
    case Direct(ino, i) => ns[ino := ns[ino].(addrs := ns[ino].addrs[i := b])]
    case Indirect(ino) => ns[ino := ns[ino].(addrs := ns[ino].addrs[NDIRECT := b])]
    case Listed(_, _) => ns
  }

  function StoreDisk(d: seq<Blk>, ns: seq<Inode>, s: Slot, b: nat): seq<Blk>
    requires SlotOk(|ns|, s) && b < WORD
  {
    match s
    case Direct(_, _) => d
    case Indirect(_) => d
    case Listed(ino, j) =>
      var a := Addr(ns, ino, NDIRECT);
      if a < |d| then d[a := PutWord(d[a], j, b)] else d
  }

  /** A free block is a data block nobody owns. */
  lemma TakenSound(L: Layout, d: seq<Blk>, ns: seq<Inode>, owner: map<nat, Slot>, b: nat)
    requires Sound(L, d, ns, owner) && b < L.size && !Used(d, L.bmapstart, b)
    ensures L.data <= b && b !in owner && Taken(L, d, b)[b] == Zeros()
    ensures Owns(L, Taken(L, d, b), ns, owner)
    ensures forall s :: SlotOk(|ns|, s) ==> At(Taken(L, d, b), ns, s) == At(d, ns, s)
    ensures forall x :: x in owner ==> Taken(L, d, b)[x] == d[x]
    ensures forall x: nat :: x < L.size ==>
              (Used(Taken(L, d, b), L.bmapstart, x) <==> x < L.data || x in owner || x == b)
  {
    hide At, Used, Taken, Zeros;
    TakenFrame(L, d, b, b);
    forall x | x in owner ensures Taken(L, d, b)[x] == d[x] { TakenFrame(L, d, b, x); }
    OwnsFrame(L, d, Taken(L, d, b), ns, owner);
    forall x: nat | x < L.size ensures Used(Taken(L, d, b), L.bmapstart, x) <==> x < L.data || x in owner || x == b {
      UsedOfTaken(L, d, b, x);
    }
  }

  /** The map says the same when only data blocks differ. */
  lemma MapFrame(L: Layout, d: seq<Blk>, d': seq<Blk>, owner: map<nat, Slot>)
    requires LayoutOk(L) && |d| == L.size == |d'| && MapExact(L, d, owner)
             && forall y :: 0 <= y < L.data ==> d'[y] == d[y]
    ensures MapExact(L, d', owner)
  {
    hide Used;
    forall x: nat | x < L.size ensures Used(d', L.bmapstart, x) <==> Used(d, L.bmapstart, x) { UsedFrame(L, d, d', x); }
  }

  /** Storing b in slot s changes what is in s and in no other slot. */
  lemma StoredAt(L: Layout, d: seq<Blk>, ns: seq<Inode>, owner: map<nat, Slot>, s: Slot, b: nat, t: Slot)
    requires Owns(L, d, ns, owner) && Shape(ns) && SlotOk(|ns|, s) && SlotOk(|ns|, t) && L.data <= b < L.size
             && b < WORD && L.data > 0
    requires s.Listed? ==> At(d, ns, Indirect(s.ino)) != 0
    requires s.Indirect? ==> d[b] == Zeros() && At(d, ns, s) == 0
    ensures At(StoreDisk(d, ns, s, b), StoreInode(ns, s, b), t) == if t == s then b else At(d, ns, t)
  {
    hide PutWord, GetWord, Zeros;
    if s.Indirect? && t.Listed? { GetZero(t.j); }
    if s.Listed? {
      var a := Addr(ns, s.ino, NDIRECT);
      assert OwnedBy(owner, a, Indirect(s.ino));
      if t.Listed? {
        GetOfPut(d[a], s.j, b, t.j);
        var a' := Addr(ns, t.ino, NDIRECT);
        if a' == a {
          assert At(d, ns, Indirect(t.ino)) == a;
          assert OwnedBy(owner, a, Indirect(t.ino));
        }
      }
    }
  }

  lemma StoredOwns(L: Layout, d: seq<Blk>, ns: seq<Inode>, owner: map<nat, Slot>, s: Slot, b: nat)
    requires Owns(L, d, ns, owner) && Shape(ns) && SlotOk(|ns|, s) && L.data <= b < L.size && b < WORD && L.data > 0
    requires b !in owner && At(d, ns, s) == 0
    requires s.Listed? ==> At(d, ns, Indirect(s.ino)) != 0
    requires s.Indirect? ==> d[b] == Zeros()
    ensures var d', ns' := StoreDisk(d, ns, s, b), StoreInode(ns, s, b);
            && Owns(L, d', ns', owner[b := s]) && Shape(ns') && |ns'| == |ns|
            && At(d', ns', s) == b && forall t :: SlotOk(|ns|, t) && t != s ==> At(d', ns', t) == At(d, ns, t)
  {
    hide At, Zeros;
    var d', ns' := StoreDisk(d, ns, s, b), StoreInode(ns, s, b);
    forall t | SlotOk(|ns|, t) ensures At(d', ns', t) == if t == s then b else At(d, ns, t) {
      StoredAt(L, d, ns, owner, s, b, t);
    }
    assert SlotOk(|ns|, s);
    forall t | SlotOk(|ns'|, t) && At(d', ns', t) != 0 ensures OwnedBy(owner[b := s], At(d', ns', t), t) {
      if t != s { assert OwnedBy(owner, At(d, ns, t), t); }
    }
  }

  // ---- bytes of files ----

  function FileByte(d: seq<Blk>, ns: seq<Inode>, ino: nat, k: nat): byte {
    var b := At(d, ns, SlotOf(ino, k / BSIZE));
    if b == 0 || b >= |d| then 0 else d[b][k % BSIZE]
  }

  /** Slot t still has its block, with the same bytes. */
  ghost predicate Kept(d: seq<Blk>, ns: seq<Inode>, d': seq<Blk>, ns': seq<Inode>, t: Slot) {
    var b := At(d, ns, t);
    !t.Indirect? && b != 0 ==> At(d', ns', t) == b && b < |d| && b < |d'| && d'[b] == d[b]
  }

  /** Every file block is still there with the same bytes; sizes are the same. */
  ghost predicate KeepsFiles(d: seq<Blk>, ns: seq<Inode>, d': seq<Blk>, ns': seq<Inode>) {
    && |ns'| == |ns| && (forall i :: 0 <= i < |ns| ==> ns'[i].size == ns[i].size)
    && (forall t :: SlotOk(|ns|, t) ==> Kept(d, ns, d', ns', t))
  }

  /** Filling an empty slot with a new block disturbs nothing. */
  lemma AssignStep(L: Layout, d: seq<Blk>, ns: seq<Inode>, owner: map<nat, Slot>, s: Slot, b: nat)
    requires Sound(L, d, ns, owner) && b < L.size && !Used(d, L.bmapstart, b) && SlotOk(|ns|, s) && At(d, ns, s) == 0
    requires s.Listed? ==> At(d, ns, Indirect(s.ino)) != 0
    ensures b < WORD
    ensures var d1 := Taken(L, d, b);
            var d', ns' := StoreDisk(d1, ns, s, b), StoreInode(ns, s, b);
            && Sound(L, d', ns', owner[b := s]) && KeepsFiles(d, ns, d', ns')
            && At(d', ns', s) == b && (forall t :: SlotOk(|ns|, t) && t != s ==> At(d', ns', t) == At(d, ns, t))
            && d'[b] == Zeros()
  {
    hide At, Taken, Zeros, Used;
    TakenSound(L, d, ns, owner, b);
    var d1 := Taken(L, d, b);
    StoredOwns(L, d1, ns, owner, s, b);
    var d', ns' := StoreDisk(d1, ns, s, b), StoreInode(ns, s, b);
    StoreFrame(L, d1, ns, owner, s, b);
    assert MapExact(L, d1, owner[b := s]);
    MapFrame(L, d1, d', owner[b := s]);
    forall t | SlotOk(|ns|, t) ensures Kept(d, ns, d', ns', t) {
      if !t.Indirect? && At(d, ns, t) != 0 { assert OwnedBy(owner, At(d, ns, t), t); }
    }
  }

  /** Storing touches at most an indirect block. */
  lemma StoreFrame(L: Layout, d: seq<Blk>, ns: seq<Inode>, owner: map<nat, Slot>, s: Slot, b: nat)
    requires Owns(L, d, ns, owner) && Shape(ns) && SlotOk(|ns|, s) && b < WORD && b !in owner
    requires s.Listed? ==> At(d, ns, Indirect(s.ino)) != 0
    ensures var d', ns' := StoreDisk(d, ns, s, b), StoreInode(ns, s, b);
            && |d'| == |d| && (forall x :: 0 <= x < |d| && !(x in owner && owner[x].Indirect?) ==> d'[x] == d[x])
            && |ns'| == |ns| && (forall i :: 0 <= i < |ns| ==> ns'[i].size == ns[i].size)
  {
    hide PutWord;
    if s.Listed? { assert OwnedBy(owner, Addr(ns, s.ino, NDIRECT), Indirect(s.ino)); }
  }

  lemma KeptByte(d: seq<Blk>, ns: seq<Inode>, d': seq<Blk>, ns': seq<Inode>, ino: nat, k: nat)
    requires KeepsFiles(d, ns, d', ns') && ino < |ns| && k < MAXFILE * BSIZE && Filled(d, ns, ino, k / BSIZE)
    ensures Filled(d', ns', ino, k / BSIZE) && FileByte(d', ns', ino, k) == FileByte(d, ns, ino, k)
  {
    hide At;
    SlotOfOk(|ns|, ino, k / BSIZE);
    assert Kept(d, ns, d', ns', SlotOf(ino, k / BSIZE));
  }

  lemma KeepsRefl(L: Layout, d: seq<Blk>, ns: seq<Inode>, owner: map<nat, Slot>)
    requires Owns(L, d, ns, owner)
    ensures KeepsFiles(d, ns, d, ns)
  {
    hide At;
    forall t | SlotOk(|ns|, t) ensures Kept(d, ns, d, ns, t) {
      if At(d, ns, t) != 0 { assert OwnedBy(owner, At(d, ns, t), t); }
    }
  }

  lemma KeepsTrans(d: seq<Blk>, ns: seq<Inode>, d1: seq<Blk>, ns1: seq<Inode>, d2: seq<Blk>, ns2: seq<Inode>)
    requires KeepsFiles(d, ns, d1, ns1) && KeepsFiles(d1, ns1, d2, ns2)
    ensures KeepsFiles(d, ns, d2, ns2)
  {
    hide At;
    forall t | SlotOk(|ns|, t) ensures Kept(d, ns, d2, ns2, t) {
      assert Kept(d, ns, d1, ns1, t) && Kept(d1, ns1, d2, ns2, t);
    }
  }

  lemma KeepsNoHoles(d: seq<Blk>, ns: seq<Inode>, d': seq<Blk>, ns': seq<Inode>)
    requires KeepsFiles(d, ns, d', ns') && NoHoles(d, ns) && Shape(ns)
    ensures NoHoles(d', ns')
  {
    hide At;
    forall ino: nat, bn: nat | ino < |ns'| && bn * BSIZE < ns'[ino].size ensures Filled(d', ns', ino, bn) {
      assert Filled(d, ns, ino, bn);
      SlotOfOk(|ns|, ino, bn);
      assert Kept(d, ns, d', ns', SlotOf(ino, bn));
    }
  }

  /** memmove of chunk to offset o of a block. */
  function Spliced(p: Blk, o: nat, chunk: seq<byte>): Blk
    requires o + |chunk| <= BSIZE
  {
    p[..o] + chunk + p[o + |chunk|..]
  }

  /** Writing into the block behind one file block. */
  function Poked(d: seq<Blk>, b: nat, o: nat, chunk: seq<byte>): seq<Blk>
    requires b < |d| && o + |chunk| <= BSIZE
  {
    d[b := Spliced(d[b], o, chunk)]
  }

  lemma DataBlock(L: Layout, d: seq<Blk>, ns: seq<Inode>, owner: map<nat, Slot>, ino: nat, bn: nat)
    requires Sound(L, d, ns, owner) && ino < |ns| && bn < MAXFILE && Filled(d, ns, ino, bn)
    ensures var b := At(d, ns, SlotOf(ino, bn)); L.data <= b < |d| && b in owner && owner[b] == SlotOf(ino, bn)
  {
    hide At, Used;
    SlotOfOk(|ns|, ino, bn);
    assert OwnedBy(owner, At(d, ns, SlotOf(ino, bn)), SlotOf(ino, bn));
  }

  lemma PokedSound(L: Layout, d: seq<Blk>, ns: seq<Inode>, owner: map<nat, Slot>, ino: nat, bn: nat, o: nat,
                   chunk: seq<byte>)
    requires Sound(L, d, ns, owner) && ino < |ns| && bn < MAXFILE && Filled(d, ns, ino, bn) && o + |chunk| <= BSIZE
    ensures At(d, ns, SlotOf(ino, bn)) < |d|
    ensures var d' := Poked(d, At(d, ns, SlotOf(ino, bn)), o, chunk);
            Sound(L, d', ns, owner) && forall s :: SlotOk(|ns|, s) ==> At(d', ns, s) == At(d, ns, s)
  {
    hide At, Used, Spliced;
    DataBlock(L, d, ns, owner, ino, bn);
    var d' := Poked(d, At(d, ns, SlotOf(ino, bn)), o, chunk);
    OwnsFrame(L, d, d', ns, owner);
    MapFrame(L, d, d', owner);
  }

  /** Exactly the bytes written change, and only in that file. */
  lemma PokedByte(L: Layout, d: seq<Blk>, ns: seq<Inode>, owner: map<nat, Slot>, ino: nat, bn: nat, o: nat,
                  chunk: seq<byte>, i: nat, k: nat)
    requires Sound(L, d, ns, owner) && ino < |ns| && bn < MAXFILE && Filled(d, ns, ino, bn) && o + |chunk| <= BSIZE
    requires i < |ns| && k < MAXFILE * BSIZE && At(d, ns, SlotOf(ino, bn)) < |d|
    ensures var d' := Poked(d, At(d, ns, SlotOf(ino, bn)), o, chunk);
            && (Filled(d', ns, i, k / BSIZE) <==> Filled(d, ns, i, k / BSIZE))
            && FileByte(d', ns, i, k) ==
                 if i == ino && bn * BSIZE + o <= k < bn * BSIZE + o + |chunk|
                   then chunk[k - (bn * BSIZE + o)] else FileByte(d, ns, i, k)
  {
    hide At, Used, Sound;
    PokedSound(L, d, ns, owner, ino, bn, o, chunk);
    DataBlock(L, d, ns, owner, ino, bn);
    SlotOfOk(|ns|, i, k / BSIZE);
    Offset(bn, o, |chunk|, k);
    if Filled(d, ns, i, k / BSIZE) {
      DataBlock(L, d, ns, owner, i, k / BSIZE);
      if At(d, ns, SlotOf(i, k / BSIZE)) == At(d, ns, SlotOf(ino, bn)) { SlotOfInjective(i, k / BSIZE, ino, bn); }
    }
  }

  lemma Offset(bn: nat, o: nat, n: nat, k: nat)
    requires o + n <= BSIZE
    ensures bn * BSIZE + o <= k < bn * BSIZE + o + n <==> k / BSIZE == bn && o <= k % BSIZE < o + n
    ensures k / BSIZE == bn ==> k == bn * BSIZE + k % BSIZE
  {
  }

  // ---- giving blocks back ----

  /** bfree's effect on the disk. */
  function Given(L: Layout, d: seq<Blk>, b: nat): (r: seq<Blk>)
    requires LayoutOk(L) && |d| == L.size && b < L.size
    ensures |r| == |d|
  {
    MapInside(L, b);
    Unmarked(d, L.bmapstart, b)
  }

  /** Clearing a bit touches a map block only: slots stay, and the map loses b. */
  lemma GivenFrame(L: Layout, d: seq<Blk>, ns: seq<Inode>, owner: map<nat, Slot>, live: map<nat, Slot>, b: nat)
    requires LayoutOk(L) && Owns(L, d, ns, owner) && MapExact(L, d, live) && L.data <= b < L.size
    ensures Owns(L, Given(L, d, b), ns, owner) && MapExact(L, Given(L, d, b), live - {b})
    ensures forall x :: L.data <= x < L.size ==> Given(L, d, b)[x] == d[x]
    ensures forall s :: SlotOk(|ns|, s) ==> At(Given(L, d, b), ns, s) == At(d, ns, s)
  {
    hide At, Used, Bit, ClearBit;
    MapInside(L, b);
    OwnsFrame(L, d, Given(L, d, b), ns, owner);
    forall x: nat | x < L.size ensures Used(Given(L, d, b), L.bmapstart, x) <==> x != b && Used(d, L.bmapstart, x) {
      UsedOfUnmarked(d, L.bmapstart, b, x);
    }
  }

  /** itrunc's step for one direct block. */
  lemma FreeDirect(L: Layout, d: seq<Blk>, ns: seq<Inode>, owner: map<nat, Slot>, ino: nat, i: nat)
    requires Sound(L, d, ns, owner) && ino < |ns| && i < NDIRECT && ns[ino].addrs[i] != 0
    ensures var b := ns[ino].addrs[i];
            && OwnedBy(owner, b, Direct(ino, i)) && L.data <= b < L.size && Used(d, L.bmapstart, b)
            && Sound(L, Given(L, d, b), StoreInode(ns, Direct(ino, i), 0), owner - {b})
            && (forall x :: L.data <= x < L.size ==> Given(L, d, b)[x] == d[x])
  {
    hide At, Used, Given;
    var s := Direct(ino, i);
    var b := ns[ino].addrs[i];
    assert At(d, ns, s) == b by { DirectAt(d, ns, ino, i); }
    assert OwnedBy(owner, At(d, ns, s), s);
    GivenFrame(L, d, ns, owner, owner, b);
    var d', ns', owner' := Given(L, d, b), StoreInode(ns, s, 0), owner - {b};
    forall t | SlotOk(|ns|, t) ensures At(d', ns', t) == if t == s then 0 else At(d, ns, t) { ClearedAt(d', ns, s, t); }
    forall t | SlotOk(|ns'|, t) && At(d', ns', t) != 0 ensures OwnedBy(owner', At(d', ns', t), t) {
      assert OwnedBy(owner, At(d, ns, t), t);
    }
  }

  lemma DirectAt(d: seq<Blk>, ns: seq<Inode>, ino: nat, i: nat)
    requires ino < |ns| && i < |ns[ino].addrs|
    ensures i < NDIRECT ==> At(d, ns, Direct(ino, i)) == ns[ino].addrs[i]
    ensures i == NDIRECT ==> At(d, ns, Indirect(ino)) == ns[ino].addrs[i]
  {
  }

  lemma ClearedAt(d: seq<Blk>, ns: seq<Inode>, s: Slot, t: Slot)
    requires Shape(ns) && SlotOk(|ns|, s) && SlotOk(|ns|, t) && !s.Listed?
    ensures At(d, StoreInode(ns, s, 0), t) == if t == s || (s.Indirect? && t.Listed? && t.ino == s.ino)
            then 0 else At(d, ns, t)
  {
  }

  /** The owners that are left when the first j listed blocks of ino have been freed. */
  ghost function Without(owner: map<nat, Slot>, ino: nat, j: nat): map<nat, Slot> {
    map b | b in owner && !(owner[b].Listed? && owner[b].ino == ino && owner[b].j < j) :: owner[b]
  }

  /** The block of entry j, if there is one, is still marked used when its turn comes. */
  lemma FreeListed(L: Layout, d: seq<Blk>, ns: seq<Inode>, owner: map<nat, Slot>, ino: nat, j: nat)
    requires LayoutOk(L) && Owns(L, d, ns, owner) && MapExact(L, d, Without(owner, ino, j)) && ino < |ns|
             && j < NINDIRECT
    ensures var w := At(d, ns, Listed(ino, j));
            if w == 0 then Without(owner, ino, j + 1) == Without(owner, ino, j)
            else
              && OwnedBy(owner, w, Listed(ino, j)) && L.data <= w < L.size && Used(d, L.bmapstart, w)
              && Without(owner, ino, j + 1) == Without(owner, ino, j) - {w}
  {
    hide At, Used;
    var s := Listed(ino, j);
    var w := At(d, ns, s);
    assert SlotOk(|ns|, s);
    if w != 0 { assert OwnedBy(owner, w, s); }
    forall b | b in owner ensures owner[b] == s <==> w != 0 && b == w {}
  }

  /** After the indirect block itself is freed and its slot cleared, ino has no indirect blocks. */
  lemma FreeIndirect(L: Layout, d: seq<Blk>, ns: seq<Inode>, owner: map<nat, Slot>, ino: nat)
    requires LayoutOk(L) && Shape(ns) && Owns(L, d, ns, owner) && MapExact(L, d, Without(owner, ino, NINDIRECT))
             && ino < |ns|
    requires ns[ino].addrs[NDIRECT] != 0
    ensures var a := ns[ino].addrs[NDIRECT];
            && OwnedBy(owner, a, Indirect(ino)) && L.data <= a < L.size && Used(d, L.bmapstart, a)
            && Sound(L, Given(L, d, a), StoreInode(ns, Indirect(ino), 0), Without(owner, ino, NINDIRECT) - {a})
            && (forall x :: L.data <= x < L.size ==> Given(L, d, a)[x] == d[x])
  {
    hide At, Used, Given;
    var s := Indirect(ino);
    var a := ns[ino].addrs[NDIRECT];
    DirectAt(d, ns, ino, NDIRECT);
    assert OwnedBy(owner, At(d, ns, s), s);
    var live := Without(owner, ino, NINDIRECT);
    GivenFrame(L, d, ns, owner, live, a);
    var d', ns', owner' := Given(L, d, a), StoreInode(ns, s, 0), live - {a};
    forall t | SlotOk(|ns|, t)
      ensures At(d', ns', t) == if t == s || (t.Listed? && t.ino == ino) then 0 else At(d, ns, t)
    {
      ClearedAt(d', ns, s, t);
    }
    forall t | SlotOk(|ns'|, t) && At(d', ns', t) != 0 ensures OwnedBy(owner', At(d', ns', t), t) {
      assert OwnedBy(owner, At(d, ns, t), t);
    }
  }
}
