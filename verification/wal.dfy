/** The on-disk write-ahead log: header and log blocks, installation of a
    committed transaction, and the disk that recovery produces. */
module Wal {

  import opened Basics

  const BWORDS: nat := 256          // BSIZE / sizeof(uint)
  const MAXOPBLOCKS: nat := 10
  const LOGSIZE: nat := MAXOPBLOCKS * 3
  const NBUF: nat := MAXOPBLOCKS * 3

  /** A disk block, seen as the array of words that the log header code reads. */
  type Block = b: seq<int> | |b| == BWORDS witness seq(BWORDS, _ => 0)
  type Disk = seq<Block>

  /** log.start and log.size, and the number of blocks of the device. */
  datatype Layout = Layout(start: nat, size: nat, nblocks: nat) {
    predicate Valid() { 1 <= size && start + size <= nblocks }
    predicate InLog(b: int) { start <= b < start + size }
    predicate Home(b: int) { 0 <= b < nblocks && !InLog(b) }
  }

  /** Block numbers that a transaction may carry. */
  ghost predicate Loggable(L: Layout, blocks: seq<int>) {
    && |blocks| <= LOGSIZE && |blocks| < L.size
    && NoRepeat(blocks)
    && forall i :: 0 <= i < |blocks| ==> L.Home(blocks[i])
  }

  predicate CountOk(h: Block) { 0 <= h[0] <= LOGSIZE }

  function HeadBlocks(h: Block): seq<int>
    requires CountOk(h)
  {
    h[1..1 + h[0]]
  }

  /** write_head: the count, the block numbers, and whatever the block held after them. */
  function PutHead(h: Block, blocks: seq<int>): (r: Block)
    requires |blocks| <= LOGSIZE
    ensures CountOk(r) && HeadBlocks(r) == blocks
  {
    [|blocks|] + blocks + h[1 + |blocks|..]
  }

  ghost predicate DiskOk(L: Layout, d: Disk) {
    && L.Valid()
    && |d| == L.nblocks
    && CountOk(d[L.start])
    && Loggable(L, HeadBlocks(d[L.start]))
  }

  ghost predicate SameHome(L: Layout, d: Disk, e: Disk) {
    && |d| == |e| == L.nblocks
    && forall b :: L.Home(b) ==> d[b] == e[b]
  }

  /** install_trans after its first k iterations. */
  function Install(L: Layout, d: Disk, blocks: seq<int>, k: nat): (r: Disk)
    requires L.Valid() && |d| == L.nblocks
    requires Loggable(L, blocks) && k <= |blocks|
    ensures |r| == |d|
    ensures forall b :: L.InLog(b) ==> r[b] == d[b]
  {
    if k == 0 then d
    else Install(L, d, blocks, k - 1)[blocks[k - 1] := d[L.start + k]]
  }

  lemma {:induction false} InstallAt(L: Layout, d: Disk, blocks: seq<int>, k: nat)
    requires L.Valid() && |d| == L.nblocks
    requires Loggable(L, blocks) && k <= |blocks|
    ensures forall i :: 0 <= i < k ==> Install(L, d, blocks, k)[blocks[i]] == d[L.start + 1 + i]
    ensures forall b :: L.Home(b) && b !in blocks[..k] ==> Install(L, d, blocks, k)[b] == d[b]
  {
    if k > 0 {
      InstallAt(L, d, blocks, k - 1);
      assert blocks[..k] == blocks[..k - 1] + [blocks[k - 1]];
    }
  }

  /** The disk that an undisturbed recover_from_log leaves. */
  function Recovered(L: Layout, d: Disk): (r: Disk)
    requires DiskOk(L, d)
    ensures |r| == |d|
  {
    var blocks := HeadBlocks(d[L.start]);
    Install(L, d, blocks, |blocks|)[L.start := PutHead(d[L.start], [])]
  }

  /** What recovery leaves in a home block, read off the header. */
  lemma RecoveredAt(L: Layout, d: Disk)
    requires DiskOk(L, d)
    ensures var blocks := HeadBlocks(d[L.start]);
            && (forall i :: 0 <= i < |blocks| ==> Recovered(L, d)[blocks[i]] == d[L.start + 1 + i])
            && (forall b :: L.Home(b) && b !in blocks ==> Recovered(L, d)[b] == d[b])
  {
    var blocks := HeadBlocks(d[L.start]);
    InstallAt(L, d, blocks, |blocks|);
    assert blocks[..|blocks|] == blocks;
  }

  /** Block by block: what d's home and log blocks must be for recovery to produce c. */
  ghost predicate RecoversTo(L: Layout, d: Disk, c: Disk)
    requires DiskOk(L, d)
  {
    var blocks := HeadBlocks(d[L.start]);
    && |c| == L.nblocks
    && (forall i :: 0 <= i < |blocks| ==> c[blocks[i]] == d[L.start + 1 + i])
    && (forall b :: L.Home(b) && b !in blocks ==> c[b] == d[b])
  }

  lemma RecoversToExact(L: Layout, d: Disk, c: Disk)
    requires DiskOk(L, d)
    ensures RecoversTo(L, d, c) <==> SameHome(L, Recovered(L, d), c)
  {
    RecoveredAt(L, d);
    var blocks := HeadBlocks(d[L.start]);
    if RecoversTo(L, d, c) {
      forall b | L.Home(b) ensures Recovered(L, d)[b] == c[b] {
        if b in blocks {
          var j :| 0 <= j < |blocks| && blocks[j] == b;
          assert Recovered(L, d)[blocks[j]] == d[L.start + 1 + j];
        }
      }
    }
  }

  /** Writing a block of the log area other than the header leaves a clean disk clean. */
  lemma LogBlockWrite(L: Layout, d: Disk, c: Disk, p: nat, x: Block)
    requires DiskOk(L, d) && HeadBlocks(d[L.start]) == [] && RecoversTo(L, d, c)
    requires L.start < p < L.start + L.size
    ensures DiskOk(L, d[p := x]) && RecoversTo(L, d[p := x], c)
  {
    assert d[p := x][L.start] == d[L.start];
  }

  /** A disk with the given blocks overwritten: the effect of one transaction. */
  function Overwrite(d: Disk, t: map<int, Block>): (r: Disk)
    ensures |r| == |d|
  {
    seq(|d|, i requires 0 <= i < |d| => if i in t then t[i] else d[i])
  }

  /** Writing the header commits: recovery then yields the transaction's data. */
  lemma HeaderCommits(L: Layout, d: Disk, c: Disk, blocks: seq<int>, t: map<int, Block>)
    requires DiskOk(L, d) && HeadBlocks(d[L.start]) == [] && RecoversTo(L, d, c)
    requires Loggable(L, blocks)
    requires forall b :: b in t <==> b in blocks
    requires forall i :: 0 <= i < |blocks| ==> d[L.start + 1 + i] == t[blocks[i]]
    ensures var d' := d[L.start := PutHead(d[L.start], blocks)];
            DiskOk(L, d') && RecoversTo(L, d', Overwrite(c, t))
  {
  }

  /** Redoing part of the log changes nothing: recovery may itself be interrupted. */
  lemma ReinstallKeeps(L: Layout, d: Disk, c: Disk, i: nat)
    requires DiskOk(L, d) && RecoversTo(L, d, c) && i < |HeadBlocks(d[L.start])|
    ensures var d' := d[HeadBlocks(d[L.start])[i] := d[L.start + 1 + i]];
            DiskOk(L, d') && RecoversTo(L, d', c) && d'[L.start] == d[L.start]
  {
    var d' := d[HeadBlocks(d[L.start])[i] := d[L.start + 1 + i]];
    assert d'[L.start] == d[L.start];
  }

  ghost predicate Installed(L: Layout, d: Disk, k: nat)
    requires DiskOk(L, d)
  {
    var blocks := HeadBlocks(d[L.start]);
    k <= |blocks| && forall i :: 0 <= i < k ==> d[blocks[i]] == d[L.start + 1 + i]
  }

  /** Clearing the header once every block is installed. */
  lemma ClearKeeps(L: Layout, d: Disk, c: Disk)
    requires DiskOk(L, d) && RecoversTo(L, d, c) && Installed(L, d, |HeadBlocks(d[L.start])|)
    ensures SameHome(L, d, c)
    ensures var d' := d[L.start := PutHead(d[L.start], [])];
            DiskOk(L, d') && RecoversTo(L, d', c)
  {
    var blocks := HeadBlocks(d[L.start]);
    forall b | L.Home(b) ensures d[b] == c[b] {
      if b in blocks {
        var j :| 0 <= j < |blocks| && blocks[j] == b;
        assert d[blocks[j]] == d[L.start + 1 + j];
      }
    }
  }
}
