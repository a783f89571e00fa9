/** log.c as it runs: the commit and recovery code over the buffer cache, with
    every disk state it passes through. */
module Log {
  import opened Basics
  import opened Wal
  import opened Bio

  /** What the log code relies on in the cache: each buffer's count when nobody
      holds it, and, for each logged block that still has to be installed, the
      buffer that holds it and the data in it. */
  datatype View = View(refs: seq<int>, slots: seq<nat>, blocks: seq<int>, vals: seq<Block>) {
    ghost predicate Ok() {
      && |refs| == NBUF && |slots| == |blocks| == |vals|
      && (forall i :: 0 <= i < |slots| ==> slots[i] < NBUF && refs[slots[i]] >= 1)
      && (forall k :: 0 <= k < NBUF ==> refs[k] >= 0)
      && NoRepeat(blocks)
    }

    ghost predicate Spare() { exists k :: 0 <= k < |refs| && refs[k] == 0 }

    /** No handle is open: only the log's pins count. */
    ghost predicate PinsOnly() {
      Ok() && NoRepeat(slots) && forall k :: 0 <= k < NBUF ==> refs[k] == if k in slots then 1 else 0
    }

    function Rest(): View
      requires |slots| == |blocks| == |vals| >= 1
    {
      View(refs, slots[1..], blocks[1..], vals[1..])
    }
  }

  /** Every cached block of the device agrees with the disk, except logged ones. */
  ghost predicate Agrees(b: Buf, disk: Disk, dev: nat, blocks: seq<int>) {
    b.dev == dev && b.valid && b.blockno !in blocks ==> 0 <= b.blockno < |disk| && b.data == disk[b.blockno]
  }

  /** Nobody has a buffer of block b. */
  ghost predicate Idle(bufs: seq<Buf>, dev: nat, b: int, v: View) {
    forall k :: 0 <= k < |bufs| && k < |v.refs| && Is(bufs[k], dev, b) ==> v.refs[k] == 0
  }

  predicate Keeps(b: Buf, dev: nat, blockno: int, val: Block) { Is(b, dev, blockno) && b.valid && b.data == val }

  /** The cache is as v says, with the buffers in `open` held by the log code. */
  ghost predicate Settled(bufs: seq<Buf>, disk: Disk, dev: nat, v: View, open: set<nat>) {
    && |bufs| == NBUF && v.Ok() && Unique(bufs) && dev != 0
    && (forall k :: 0 <= k < NBUF ==>
          && bufs[k].locked == (k in open)
          && bufs[k].refcnt == v.refs[k] + (if k in open then 1 else 0)
          && Agrees(bufs[k], disk, dev, v.blocks))
    && (forall i :: 0 <= i < |v.slots| ==> Keeps(bufs[v.slots[i]], dev, v.blocks[i], v.vals[i]))
  }

  lemma OpenSettled(was: seq<Buf>, now: seq<Buf>, stamp: seq<nat>, disk: Disk, dev: nat, b: int,
                    r: Option<nat>, v: View, open: set<nat>)
    requires 0 <= b < |disk| && Settled(was, disk, dev, v, open) && ReadIn(was, now, stamp, disk, dev, b, r)
    requires r.Some? && Unique(now)
    requires forall k :: k in open && k < NBUF ==> !Is(was[k], dev, b)
    ensures r.value !in open && Settled(now, disk, dev, v, open + {r.value})
    ensures Is(now[r.value], dev, b) && now[r.value].valid
    ensures forall k :: 0 <= k < NBUF && k != r.value ==> now[k] == was[k]
    ensures b !in v.blocks ==> now[r.value].data == disk[b]
  {
  }

  /** Bread does not wait for a lock, and finds a buffer. */
  lemma CanOpen(bufs: seq<Buf>, disk: Disk, dev: nat, v: View, open: set<nat>, b: int, spare: nat)
    requires Settled(bufs, disk, dev, v, open)
    requires forall k :: k in open && k < NBUF ==> !Is(bufs[k], dev, b)
    ensures forall k :: 0 <= k < NBUF && (Is(bufs[k], dev, b) || bufs[k].refcnt == 0) ==> !bufs[k].locked
    ensures b in v.blocks ==> !Absent(bufs, dev, b)
    ensures spare < NBUF && spare !in open && v.refs[spare] == 0 ==> !AllInUse(bufs)
  {
    if b in v.blocks {
      var i :| 0 <= i < |v.blocks| && v.blocks[i] == b;
      assert Keeps(bufs[v.slots[i]], dev, v.blocks[i], v.vals[i]);
    }
  }

  lemma CloseSettled(bufs: seq<Buf>, disk: Disk, dev: nat, v: View, open: set<nat>, i: nat)
    requires Settled(bufs, disk, dev, v, open) && i in open && i < NBUF
    ensures Settled(bufs[i := bufs[i].(refcnt := bufs[i].refcnt - 1, locked := false)], disk, dev, v, open - {i})
  {
  }

  /** Overwriting a held buffer and writing it to disk. */
  lemma WriteSettled(bufs: seq<Buf>, disk: Disk, dev: nat, v: View, open: set<nat>, i: nat, b: int, x: Block)
    requires Settled(bufs, disk, dev, v, open) && i in open && i < NBUF && 0 <= b < |disk|
    requires Is(bufs[i], dev, b) && bufs[i].valid
    requires forall j :: 0 <= j < |v.blocks| && v.blocks[j] == b ==> v.vals[j] == x
    ensures Settled(bufs[i := bufs[i].(data := x)], disk[b := x], dev, v, open)
  {
    var bufs' := bufs[i := bufs[i].(data := x)];
    forall k | 0 <= k < NBUF ensures Agrees(bufs'[k], disk[b := x], dev, v.blocks) {
      assert Agrees(bufs[k], disk, dev, v.blocks);
    }
  }

  /** bunpin of the first logged block, once the disk has it. */
  lemma UnpinSettled(bufs: seq<Buf>, disk: Disk, dev: nat, v: View, open: set<nat>)
    requires Settled(bufs, disk, dev, v, open) && |v.blocks| >= 1
    requires 0 <= v.blocks[0] < |disk| && disk[v.blocks[0]] == v.vals[0]
    ensures var i := v.slots[0];
            Settled(bufs[i := bufs[i].(refcnt := bufs[i].refcnt - 1)], disk, dev,
                    v.(refs := v.refs[i := v.refs[i] - 1]).Rest(), open)
  {
    var i := v.slots[0];
    var bufs' := bufs[i := bufs[i].(refcnt := bufs[i].refcnt - 1)];
    var v' := v.(refs := v.refs[i := v.refs[i] - 1]).Rest();
    forall j | 0 <= j < |v'.slots| ensures v'.slots[j] != i {
      assert Is(bufs[v.slots[j + 1]], dev, v.blocks[j + 1]) && Is(bufs[i], dev, v.blocks[0]);
    }
    forall k | 0 <= k < NBUF ensures Agrees(bufs'[k], disk, dev, v'.blocks) {
      assert Agrees(bufs[k], disk, dev, v.blocks);
      if bufs[k].blockno in v.blocks && bufs[k].blockno !in v.blocks[1..] {
        assert bufs[k].blockno == v.blocks[0];
      }
    }
  }

  function Unpinned(v: View): View
    requires |v.slots| == |v.blocks| == |v.vals| >= 1 && v.slots[0] < |v.refs|
  {
    v.(refs := v.refs[v.slots[0] := v.refs[v.slots[0]] - 1]).Rest()
  }

  /** A logged block is in its slot, with its value. */
  lemma FoundAt(bufs: seq<Buf>, disk: Disk, dev: nat, v: View, open: set<nat>, j: nat, i: nat)
    requires Settled(bufs, disk, dev, v, open) && j < |v.blocks| && i < NBUF && Is(bufs[i], dev, v.blocks[j])
    ensures i == v.slots[j] && bufs[i].data == v.vals[j]
    ensures forall m :: 0 <= m < |v.blocks| && v.blocks[m] == v.blocks[j] ==> m == j
  {
    assert Keeps(bufs[v.slots[j]], dev, v.blocks[j], v.vals[j]);
  }

  ghost function SpareOf(v: View, bufs: seq<Buf>, disk: Disk, dev: nat, open: set<nat>): (k: nat)
    requires Settled(bufs, disk, dev, v, open)
    ensures v.Spare() ==> k < NBUF == |v.refs| && v.refs[k] == 0
  {
    if v.Spare() then var k :| 0 <= k < |v.refs| && v.refs[k] == 0; k else NBUF
  }

  class Log {
    const cache: Cache
    const dev: nat
    const start: nat
    const size: nat
    var outstanding: int
    var committing: bool
    var n: int
    var block: seq<int>          // log.lh.block

    constructor (cache: Cache, dev: nat, start: nat, size: nat)
      ensures this.cache == cache && this.dev == dev && this.start == start && this.size == size
      ensures outstanding == 0 && !committing && n == 0 && |block| == LOGSIZE
    {
      this.cache, this.dev, this.start, this.size := cache, dev, start, size;
      outstanding, committing, n, block := 0, false, 0, seq(LOGSIZE, _ => 0);
    }

    /** begin_op's locked section, when it does not go to sleep. */
    method TryBegin() returns (ok: bool)
      modifies this`outstanding
      ensures ok <==> !committing && n + (old(outstanding) + 1) * MAXOPBLOCKS <= LOGSIZE
      ensures outstanding == old(outstanding) + (if ok then 1 else 0)
    {
      ok := !committing && !(n + (outstanding + 1) * MAXOPBLOCKS > LOGSIZE);
      if ok { outstanding := outstanding + 1; }
    }

    /** log_write of a held buffer whose contents were `was` before the caller changed them;
        false is a panic.  Afterwards the buffer's block is logged once, with its new contents,
        and pinned. */
    method LogWrite(i: nat, ghost v: View, ghost was: Block, ghost open: set<nat>) returns (ok: bool)
      requires cache.Valid() && i < NBUF && i in open && |block| == LOGSIZE && 0 <= n <= LOGSIZE
               && v.blocks == block[..n]
      requires cache.bufs[i].dev == dev && cache.bufs[i].valid
      requires Settled(cache.bufs[i := cache.bufs[i].(data := was)], cache.disk, dev, v, open)
      modifies this`n, this`block, cache`bufs
      ensures cache.Valid() && |block| == LOGSIZE && 0 <= n <= LOGSIZE
      ensures ok <==> old(n) < LOGSIZE && old(n) < size - 1 && outstanding >= 1
      ensures !ok ==> n == old(n) && block == old(block) && cache.bufs == old(cache.bufs)
      ensures ok ==>
                var b := old(cache.bufs[i].blockno);
                && (b in old(block[..n]) ==> n == old(n)) && n <= old(n) + 1
                && cache.bufs[i] == old(cache.bufs[i]).(refcnt := cache.bufs[i].refcnt)
                && Wrote(v, i, b, cache.bufs[i].data).blocks == block[..n]
                && Settled(cache.bufs, cache.disk, dev, Wrote(v, i, b, cache.bufs[i].data), open)
    {
      hide Settled, Cache.Valid, Wrote;
      if n >= LOGSIZE || n >= size - 1 { return false; }
      if outstanding < 1 { return false; }
      BufCount(cache);
      var b := cache.bufs[i].blockno;
      WroteSettled(cache.bufs, cache.disk, dev, v, open, i, b, was);
      var k := 0;
      while k < n && block[k] != b
        invariant 0 <= k <= n && b !in block[..k]
      {
        assert block[..k + 1] == block[..k] + [block[k]];
        k := k + 1;
      }
      ghost var lh := block;
      block := block[k := b];
      if k == n {
        cache.Bpin(i);
        n := n + 1;
        assert block[..n] == lh[..n - 1] + [b];
      } else {
        assert block == lh && lh[k] in lh[..n];
      }
      return true;
    }

    /** end_op: the last operation commits. */
    method EndOp(ghost v: View, ghost c: Disk, ghost t: map<int, Block>)
      returns (ok: bool, ghost w: View, ghost before: seq<Disk>)
      requires !committing && Ready(v, c) && v.blocks == Logged() && HeadBlocks(cache.disk[start]) == [] && IsTxn(v, t)
      modifies this`outstanding, this`committing, this`n, cache
      ensures outstanding == old(outstanding) - 1 && cache.Valid() && |cache.disk| == old(|cache.disk|)
      ensures ok ==> !committing
      ensures old(cache.trace) <= before <= cache.trace && AllRecover(L(), before[old(|cache.trace|)..], c)
      ensures AllRecover(L(), cache.trace[|before|..], Overwrite(c, t))
      ensures outstanding != 0 ==> ok && w == v && cache.trace == old(cache.trace) && n == old(n) && Ready(v, c)
                                   && HeadBlocks(cache.disk[start]) == [] && cache.disk == old(cache.disk)
      ensures outstanding == 0 ==>
                && (v.Spare() ==> ok) && (v.PinsOnly() && v.blocks != [] ==> (ok <==> |v.blocks| < NBUF))
                && (v.blocks != [] && Idle(old(cache.bufs), dev, start + 1, v) ==> (ok <==> v.Spare()))
                && (ok ==> n == 0 && Ready(w, Overwrite(c, t)) && w.blocks == [] && HeadBlocks(cache.disk[start]) == []
                           && SameHome(L(), cache.disk, Overwrite(c, t)) && (v.PinsOnly() ==> w.PinsOnly()))
    {
      hide Settled, AllRecover, RecoversTo, DiskOk, Loggable, Cache.Valid, Overwrite, IsTxn, SameHome;
      outstanding := outstanding - 1;
      ok, w, before := true, v, cache.trace;
      NothingYet(L(), cache.trace, c);
      NothingYet(L(), cache.trace, Overwrite(c, t));
      if outstanding == 0 {
        committing := true;
        ok, w, before := Commit(v, c, t);
        if ok { committing := false; }
      }
    }

    /** bread, seen through the view. */
    method Open(b: int, ghost v: View, ghost open: set<nat>, ghost spare: nat) returns (r: Option<nat>)
      requires cache.Valid() && Settled(cache.bufs, cache.disk, dev, v, open) && 0 <= b < |cache.disk|
      requires forall k :: k in open && k < NBUF ==> !Is(cache.bufs[k], dev, b)
      modifies cache`bufs
      ensures cache.Valid()
      ensures b in v.blocks || (spare < NBUF && spare !in open && spare < |v.refs| && v.refs[spare] == 0) ==> r.Some?
      ensures !v.Spare() && open == {} && Idle(old(cache.bufs), dev, b, v) ==> r.None?
      ensures r.Some? ==>
                && r.value < NBUF && r.value !in open
                && Settled(cache.bufs, cache.disk, dev, v, open + {r.value})
                && Is(cache.bufs[r.value], dev, b) && cache.bufs[r.value].valid
                && (b !in v.blocks ==> cache.bufs[r.value].data == cache.disk[b])
                && cache.bufs == old(cache.bufs)[r.value := cache.bufs[r.value]]
    {
      CanOpen(cache.bufs, cache.disk, dev, v, open, b, spare);
      if !v.Spare() && open == {} && Idle(cache.bufs, dev, b, v) { CannotOpen(cache.bufs, cache.disk, dev, v, b); }
      r := cache.Bread(dev, b);
      if r.Some? {
        OpenSettled(old(cache.bufs), cache.bufs, cache.stamp, cache.disk, dev, b, r, v, open);
      }
    }

    /** Overwrite a held buffer, then bwrite. */
    method Store(i: nat, x: Block, ghost b: int, ghost v: View, ghost open: set<nat>)
      requires cache.Valid() && Settled(cache.bufs, cache.disk, dev, v, open) && i in open && i < NBUF
      requires 0 <= b < |cache.disk| && Is(cache.bufs[i], dev, b) && cache.bufs[i].valid
      requires |v.vals| == |v.blocks| && forall j :: 0 <= j < |v.blocks| && v.blocks[j] == b ==> v.vals[j] == x
      modifies cache`bufs, cache`disk, cache`trace
      ensures cache.Valid() && Settled(cache.bufs, cache.disk, dev, v, open)
      ensures cache.disk == old(cache.disk)[b := x] && cache.trace == old(cache.trace) + [cache.disk]
    {
      WriteSettled(cache.bufs, cache.disk, dev, v, open, i, b, x);
      cache.bufs := cache.bufs[i := cache.bufs[i].(data := x)];
      cache.Bwrite(i);
    }

    /** brelse, seen through the view. */
    method Close(i: nat, ghost v: View, ghost open: set<nat>)
      requires cache.Valid() && Settled(cache.bufs, cache.disk, dev, v, open) && i in open && i < NBUF
      modifies cache`bufs, cache`next, cache`prev, cache`ring, cache`stamp, cache`clock
      ensures cache.Valid() && Settled(cache.bufs, cache.disk, dev, v, open - {i})
    {
      CloseSettled(cache.bufs, cache.disk, dev, v, open, i);
      cache.Brelse(i);
    }

    /** The two breads with which write_log and install_trans begin an iteration. */
    method ReadPair(logBlock: int, home: int, ghost v: View) returns (l: Option<nat>, h: Option<nat>)
      requires cache.Valid() && Settled(cache.bufs, cache.disk, dev, v, {})
      requires 0 <= logBlock < |cache.disk| && 0 <= home < |cache.disk| && logBlock != home && logBlock !in v.blocks
      modifies cache`bufs
      ensures cache.Valid()
      ensures !v.Spare() && Idle(old(cache.bufs), dev, logBlock, v) ==> l.None?
      ensures v.Spare() && home in v.blocks ==> l.Some? && h.Some?
      ensures |v.refs| == NBUF && v.refs[0] == 0 && v.refs[1] == 0 ==> l.Some? && h.Some?
      ensures l.Some? && h.Some? ==>
                && |cache.bufs| == NBUF && l.value < NBUF && h.value < NBUF && l.value != h.value
                && Settled(cache.bufs, cache.disk, dev, v, {l.value, h.value})
                && Is(cache.bufs[l.value], dev, logBlock) && Is(cache.bufs[h.value], dev, home)
                && cache.bufs[l.value].valid && cache.bufs[h.value].valid
                && cache.bufs[l.value].data == cache.disk[logBlock]
    {
      hide Settled, Cache.Valid;
      h := None;
      ghost var spare := SpareOf(v, cache.bufs, cache.disk, dev, {});
      l := Open(logBlock, v, {}, spare);
      if l.Some? {
        h := Open(home, v, {} + {l.value}, if l.value == 0 then 1 else 0);
        if h.Some? {
          assert {} + {l.value} + {h.value} == {l.value, h.value};
        }
      }
    }

    /** One iteration of write_log: the cached home block goes to a log block. */
    method WriteOne(to: int, from: int, ghost v: View, ghost j: nat) returns (ok: bool)
      requires cache.Valid() && Settled(cache.bufs, cache.disk, dev, v, {})
      requires 0 <= to < |cache.disk| && 0 <= from < |cache.disk| && to != from && to !in v.blocks
      requires j < |v.blocks| && |v.vals| == |v.blocks| && v.blocks[j] == from
      modifies cache
      ensures cache.Valid() && (v.Spare() ==> ok) && (!v.Spare() && Idle(old(cache.bufs), dev, to, v) ==> !ok)
      ensures !ok ==> cache.disk == old(cache.disk) && cache.trace == old(cache.trace)
      ensures ok ==> Settled(cache.bufs, cache.disk, dev, v, {})
                     && cache.disk == old(cache.disk)[to := v.vals[j]] && cache.trace == old(cache.trace) + [cache.disk]
    {
      hide Settled, Cache.Valid;
      var t, f := ReadPair(to, from, v);
      if t.None? || f.None? { return false; }
      ghost var open := {t.value, f.value};
      FoundAt(cache.bufs, cache.disk, dev, v, open, j, f.value);
      Store(t.value, cache.bufs[f.value].data, to, v, open);
      Close(f.value, v, open);
      Close(t.value, v, open - {f.value});
      assert open - {f.value} - {t.value} == {};
      return true;
    }

    /** One iteration of install_trans: a log block goes to its home block. */
    method InstallOne(from: int, home: int, recovering: bool, ghost v: View) returns (ok: bool)
      requires cache.Valid() && Settled(cache.bufs, cache.disk, dev, v, {})
      requires 0 <= from < |cache.disk| && 0 <= home < |cache.disk| && from != home && from !in v.blocks
      requires |v.vals| == |v.slots| == |v.blocks| && |v.refs| == NBUF
      requires recovering ==> v.blocks == []
      requires !recovering ==> |v.blocks| >= 1 && v.blocks[0] == home && v.vals[0] == cache.disk[from]
                               && v.slots[0] < NBUF
      modifies cache
      ensures cache.Valid()
      ensures if recovering then v.refs[0] == 0 && v.refs[1] == 0 ==> ok else v.Spare() ==> ok
      ensures !ok ==> cache.disk == old(cache.disk) && cache.trace == old(cache.trace)
      ensures ok ==> Settled(cache.bufs, cache.disk, dev, if recovering then v else Unpinned(v), {})
                     && cache.disk == old(cache.disk)[home := old(cache.disk)[from]]
                     && cache.trace == old(cache.trace) + [cache.disk]
    {
      hide Settled, Cache.Valid;
      var l, d := ReadPair(from, home, v);
      if l.None? || d.None? { return false; }
      ghost var open := {l.value, d.value};
      if !recovering { FoundAt(cache.bufs, cache.disk, dev, v, open, 0, d.value); }
      Store(d.value, cache.bufs[l.value].data, home, v, open);
      ghost var w := v;
      if !recovering {
        UnpinSettled(cache.bufs, cache.disk, dev, v, open);
        cache.Bunpin(d.value);
        w := Unpinned(v);
      }
      Close(l.value, w, open);
      Close(d.value, w, open - {l.value});
      assert open - {l.value} - {d.value} == {};
      return true;
    }

    /** write_head's copy of the in-memory header over what the block holds. */
    method FillHead(h: Block) returns (hb: Block)
      requires |block| == LOGSIZE && 0 <= n <= LOGSIZE
      ensures hb == PutHead(h, block[..n])
    {
      hb := h[0 := n];
      var i := 0;
      while i < n
        invariant 0 <= i <= n && hb == [n] + block[..i] + h[1 + i..]
      {
        hb := hb[1 + i := block[i]];
        assert block[..i + 1] == block[..i] + [block[i]];
        i := i + 1;
      }
    }

    method WriteHead(ghost v: View) returns (ok: bool)
      requires cache.Valid() && Settled(cache.bufs, cache.disk, dev, v, {})
      requires start < |cache.disk| && start !in v.blocks && |v.vals| == |v.blocks|
      requires |block| == LOGSIZE && 0 <= n <= LOGSIZE
      modifies cache
      ensures cache.Valid() && (v.Spare() ==> ok)
      ensures !ok ==> cache.disk == old(cache.disk) && cache.trace == old(cache.trace)
      ensures ok ==> Settled(cache.bufs, cache.disk, dev, v, {})
                     && cache.disk == old(cache.disk)[start := PutHead(old(cache.disk)[start], block[..n])]
                     && cache.trace == old(cache.trace) + [cache.disk]
    {
      hide Settled, Cache.Valid, PutHead;
      ghost var spare := SpareOf(v, cache.bufs, cache.disk, dev, {});
      var r := Open(start, v, {}, spare);
      if r.None? { return false; }
      var hb := FillHead(cache.bufs[r.value].data);
      Store(r.value, hb, start, v, {} + {r.value});
      Close(r.value, v, {} + {r.value});
      assert {} + {r.value} - {r.value} == {};
      return true;
    }

    method ReadHead(ghost v: View) returns (ok: bool)
      requires cache.Valid() && Settled(cache.bufs, cache.disk, dev, v, {})
      requires start < |cache.disk| && start !in v.blocks && CountOk(cache.disk[start])
      requires |block| == LOGSIZE
      modifies this`n, this`block, cache
      ensures cache.Valid() && (v.Spare() ==> ok) && |block| == LOGSIZE
      ensures cache.disk == old(cache.disk) && cache.trace == old(cache.trace)
      ensures ok ==> Settled(cache.bufs, cache.disk, dev, v, {})
                     && 0 <= n <= LOGSIZE && block[..n] == HeadBlocks(cache.disk[start])
    {
      hide Settled, Cache.Valid;
      ghost var spare := SpareOf(v, cache.bufs, cache.disk, dev, {});
      var r := Open(start, v, {}, spare);
      if r.None? { return false; }
      var h: Block := cache.bufs[r.value].data;
      n := h[0];
      var i, lh := 0, block;
      while i < n
        invariant 0 <= i <= n <= LOGSIZE && |lh| == LOGSIZE && lh[..i] == h[1..1 + i]
      {
        lh := lh[i := h[1 + i]];
        assert lh[..i + 1] == h[1..1 + i] + [h[1 + i]];
        i := i + 1;
      }
      block := lh;
      Close(r.value, v, {} + {r.value});
      assert {} + {r.value} - {r.value} == {};
      return true;
    }

    ghost function L(): Layout
      reads cache
    {
      Layout(start, size, |cache.disk|)
    }

    /** log.lh.block[..log.lh.n]. */
    ghost function Logged(): seq<int>
      reads this
      requires |block| == LOGSIZE && 0 <= n <= LOGSIZE
    {
      block[..n]
    }

    /** The disk states passed through since the trace was `was`. */
    ghost function Since(was: seq<Disk>): seq<Disk>
      reads cache
      requires |was| <= |cache.trace|
    {
      cache.trace[|was|..]
    }

    /** The log code's state between operations: the disk recovers to c. */
    ghost predicate Ready(v: View, c: Disk)
      reads this, cache
    {
      && cache.Valid() && Settled(cache.bufs, cache.disk, dev, v, {})
      && |block| == LOGSIZE && 0 <= n <= LOGSIZE
      && DiskOk(L(), cache.disk) && RecoversTo(L(), cache.disk, c)
      && Loggable(L(), Logged())
    }

    /** write_log: until the header is written, every state recovers to what was there before. */
    method WriteLog(ghost v: View, ghost c: Disk) returns (ok: bool)
      requires Ready(v, c) && v.blocks == Logged() && HeadBlocks(cache.disk[start]) == []
      modifies cache
      ensures cache.Valid() && |cache.disk| == old(|cache.disk|) && (v.Spare() ==> ok)
      ensures n > 0 && !v.Spare() && Idle(old(cache.bufs), dev, start + 1, v) ==> !ok
      ensures old(cache.trace) <= cache.trace && AllRecover(L(), Since(old(cache.trace)), c)
      ensures ok ==> Ready(v, c) && HeadBlocks(cache.disk[start]) == []
                     && Pending(v, cache.disk, start, Logged(), 0)
    {
      hide Settled, AllRecover, RecoversTo, DiskOk, Loggable, Cache.Valid, Copied, Pending, View.Spare, Idle;
      NothingYet(L(), cache.trace, c);
      ViewOk(cache.bufs, cache.disk, dev, v);
      CopyStart(L(), cache.disk, v, Logged());
      var tail := 0;
      while tail < n
        invariant 0 <= tail <= n && |cache.disk| == old(|cache.disk|)
        invariant Ready(v, c) && CountOk(cache.disk[start]) && HeadBlocks(cache.disk[start]) == []
        invariant old(cache.trace) <= cache.trace && AllRecover(L(), Since(old(cache.trace)), c)
        invariant Copied(v, cache.disk, start, tail) && (tail == 0 ==> cache.bufs == old(cache.bufs))
        invariant !v.Spare() && Idle(old(cache.bufs), dev, start + 1, v) ==> tail == 0
      {
        CopyOne(L(), cache.disk, c, v, Logged(), tail);
        ghost var was := cache.trace;
        ok := WriteOne(start + tail + 1, block[tail], v, tail);
        if !ok { return; }
        Extend(L(), old(cache.trace), was, cache.disk, c);
        tail := tail + 1;
      }
      CopyEnd(L(), cache.disk, v, Logged());
      return true;
    }

    /** install_trans: every state it passes through recovers to c. */
    method InstallTrans(recovering: bool, ghost v: View, ghost c: Disk) returns (ok: bool, ghost w: View)
      requires Ready(v, c) && HeadBlocks(cache.disk[start]) == Logged()
      requires if recovering then v.blocks == [] && v.refs[0] == 0 && v.refs[1] == 0
               else Pending(v, cache.disk, start, Logged(), 0)
      modifies cache
      ensures cache.Valid() && |cache.disk| == old(|cache.disk|) && (v.Spare() ==> ok)
      ensures old(cache.trace) <= cache.trace && AllRecover(L(), Since(old(cache.trace)), c)
      ensures ok ==> Ready(w, c) && w.blocks == [] && (v.Spare() ==> w.Spare()) && (v.PinsOnly() ==> w.PinsOnly())
                     && HeadBlocks(cache.disk[start]) == Logged() && Installed(L(), cache.disk, n)
                     && (recovering ==> w == v)
    {
      hide Settled, AllRecover, RecoversTo, Redone, DiskOk, Installed, Loggable, Pending, Cache.Valid, View.PinsOnly,
        View.Spare;
      RedoStart(L(), cache.disk, c, Logged());
      NothingYet(L(), cache.trace, c);
      var tail := 0;
      w := v;
      while tail < n
        invariant 0 <= tail <= n && |cache.disk| == old(|cache.disk|)
        invariant cache.Valid() && Settled(cache.bufs, cache.disk, dev, w, {})
        invariant Redone(L(), cache.disk, c, Logged(), tail)
        invariant old(cache.trace) <= cache.trace && AllRecover(L(), Since(old(cache.trace)), c)
        invariant if recovering then w == v else Pending(w, cache.disk, start, Logged(), tail)
        invariant (v.Spare() ==> w.Spare()) && (v.PinsOnly() ==> w.PinsOnly())
      {
        ViewOk(cache.bufs, cache.disk, dev, w);
        RedoOne(L(), cache.disk, c, Logged(), tail);
        if !recovering { PendingNext(w, L(), cache.disk, Logged(), tail); }
        ghost var was := cache.trace;
        ok := InstallOne(start + tail + 1, block[tail], recovering, w);
        if !ok { return; }
        Extend(L(), old(cache.trace), was, cache.disk, c);
        if !recovering {
          PinsKept(w);
          w := Unpinned(w);
          ViewOk(cache.bufs, cache.disk, dev, w);
        }
        tail := tail + 1;
      }
      RedoEnd(L(), cache.disk, c, Logged());
      if !recovering { PendingDone(w, cache.disk, start, Logged()); }
      return true, w;
    }

    /** The common end of commit and recover_from_log: install, then clear the header. */
    method InstallAndClear(recovering: bool, ghost v: View, ghost c: Disk) returns (ok: bool, ghost w: View)
      requires Ready(v, c) && HeadBlocks(cache.disk[start]) == Logged()
      requires if recovering then v.blocks == [] && v.refs[0] == 0 && v.refs[1] == 0
               else Pending(v, cache.disk, start, Logged(), 0)
      modifies this`n, cache
      ensures cache.Valid() && |cache.disk| == old(|cache.disk|) && (v.Spare() ==> ok)
      ensures old(cache.trace) <= cache.trace && AllRecover(L(), Since(old(cache.trace)), c)
      ensures ok ==> n == 0 && Ready(w, c) && w.blocks == [] && (recovering ==> w == v)
                     && (v.PinsOnly() ==> w.PinsOnly())
                     && HeadBlocks(cache.disk[start]) == [] && SameHome(L(), cache.disk, c)
    {
      hide Settled, AllRecover, RecoversTo, DiskOk, Installed, Loggable, Pending, Cache.Valid, SameHome;
      ok, w := InstallTrans(recovering, v, c);
      if !ok { return; }
      HeaderCleared(L(), cache.disk, c, Logged());
      ViewOk(cache.bufs, cache.disk, dev, w);
      n := 0;
      ghost var mid := cache.trace;
      ok := WriteHead(w);
      if ok { Extend(L(), old(cache.trace), mid, cache.disk, c); }
    }

    /** commit: every state up to the last log write recovers to the old contents c,
        every state from the header write on recovers to c with the transaction t
        applied, and at the end the home blocks are just that. */
    method Commit(ghost v: View, ghost c: Disk, ghost t: map<int, Block>)
      returns (ok: bool, ghost w: View, ghost before: seq<Disk>)
      requires Ready(v, c) && v.blocks == Logged() && HeadBlocks(cache.disk[start]) == []
      requires IsTxn(v, t)
      modifies this`n, cache
      ensures cache.Valid() && |cache.disk| == old(|cache.disk|) && (v.Spare() ==> ok)
      ensures v.blocks != [] && Idle(old(cache.bufs), dev, start + 1, v) ==> (ok <==> v.Spare())
      ensures v.PinsOnly() && v.blocks != [] ==> (ok <==> |v.blocks| < NBUF)
      ensures old(cache.trace) <= before <= cache.trace
      ensures AllRecover(L(), before[old(|cache.trace|)..], c)
      ensures AllRecover(L(), cache.trace[|before|..], Overwrite(c, t))
      ensures ok ==> n == 0 && Ready(w, Overwrite(c, t)) && w.blocks == [] && HeadBlocks(cache.disk[start]) == []
                     && SameHome(L(), cache.disk, Overwrite(c, t)) && (v.PinsOnly() ==> w.PinsOnly())
    {
      hide Settled, AllRecover, RecoversTo, DiskOk, Installed, Loggable, Pending, Cache.Valid, Overwrite, IsTxn,
        SameHome;
      before := cache.trace;
      w := v;
      LogSpace(L(), Logged());
      if v.PinsOnly() && v.blocks != [] {
        SpareExact(v);
        PinsIdle(L(), cache.bufs, cache.disk, dev, v);
      }
      ghost var c' := Overwrite(c, t);
      NothingYet(L(), cache.trace, c);
      NothingYet(L(), cache.trace, c');
      if n == 0 {
        EmptyTxn(L(), cache.disk, c, t, v);
        assert Logged() == [];
        return true, w, before;
      }
      ok := WriteLog(v, c);
      before := cache.trace;
      NothingYet(L(), cache.trace, c');
      if !ok { return; }
      HeaderWritten(L(), cache.disk, c, Logged(), v, t);
      ok := WriteHead(v);
      if !ok { return; }
      Extend(L(), before, before, cache.disk, c');
      ghost var mid := cache.trace;
      ok, w := InstallAndClear(false, v, c');
      Chain(L(), before, mid, cache.trace, c');
    }

    /** recover_from_log, with no buffer in use: it always finishes, every state it
        passes through recovers to the same contents c, and c is what it leaves. */
    method RecoverFromLog(ghost v: View, ghost c: Disk) returns (ok: bool)
      requires Ready(v, c) && v.blocks == [] && v.refs[0] == 0 && v.refs[1] == 0
      modifies this`n, this`block, cache
      ensures ok && n == 0 && Ready(v, c) && |cache.disk| == old(|cache.disk|)
      ensures old(cache.trace) <= cache.trace && AllRecover(L(), Since(old(cache.trace)), c)
      ensures HeadBlocks(cache.disk[start]) == [] && SameHome(L(), cache.disk, c)
    {
      hide Settled, AllRecover, RecoversTo, DiskOk, Installed, Loggable, Pending, Cache.Valid, SameHome;
      ViewOk(cache.bufs, cache.disk, dev, v);
      RecoverReady(L(), cache.disk, v);
      ok := ReadHead(v);
      HeadLoggable(L(), cache.disk);
      ghost var w;
      ok, w := InstallAndClear(true, v, c);
    }
  }

  ghost function Below(n: nat): (s: set<nat>)
    ensures |s| == n && forall k: nat :: k in s <==> k < n
  {
    if n == 0 then {} else Below(n - 1) + {n - 1}
  }

  /** With no handle open, only pins count, so a commit finds the spare buffer it
      needs exactly when the transaction has fewer than NBUF blocks. */
  lemma SpareExact(v: View)
    requires v.PinsOnly()
    ensures v.Spare() <==> |v.blocks| < NBUF
  {
    var all := Below(NBUF);
    ElementCount(v.slots);
    assert Elements(v.slots) <= all;
    if v.Spare() {
      var k :| 0 <= k < |v.refs| && v.refs[k] == 0;
      assert Elements(v.slots) <= all - {k};
      SubsetSize(Elements(v.slots), all - {k});
    } else {
      assert all == Elements(v.slots) by {
        forall k | k in all ensures k in v.slots { assert v.refs[k] != 0; }
      }
    }
  }

  /** With every buffer in use, a block that nobody has cannot be read. */
  lemma CannotOpen(bufs: seq<Buf>, disk: Disk, dev: nat, v: View, b: int)
    requires Settled(bufs, disk, dev, v, {}) && !v.Spare() && Idle(bufs, dev, b, v)
    ensures Absent(bufs, dev, b) && AllInUse(bufs)
  {
    forall k | 0 <= k < |bufs| ensures !Is(bufs[k], dev, b) && bufs[k].refcnt != 0 { assert v.refs[k] != 0; }
  }

  /** The log pins home blocks only. */
  lemma PinsIdle(L: Layout, bufs: seq<Buf>, disk: Disk, dev: nat, v: View)
    requires Settled(bufs, disk, dev, v, {}) && v.PinsOnly() && Loggable(L, v.blocks) && v.blocks != []
    ensures Idle(bufs, dev, L.start + 1, v)
  {
    forall j | 0 <= j < |v.slots| ensures !Is(bufs[v.slots[j]], dev, L.start + 1) {
      assert Keeps(bufs[v.slots[j]], dev, v.blocks[j], v.vals[j]) && L.Home(v.blocks[j]);
    }
  }

  lemma LogSpace(L: Layout, blocks: seq<int>)
    requires Loggable(L, blocks)
    ensures |blocks| <= NBUF
  {
  }

  lemma PinsKept(v: View)
    requires v.Ok() && |v.blocks| >= 1
    ensures v.PinsOnly() ==> Unpinned(v).PinsOnly()
  {
    if v.PinsOnly() {
      assert v.slots[0] !in v.slots[1..];
      var w := Unpinned(v);
      forall k | 0 <= k < NBUF ensures w.refs[k] == if k in w.slots then 1 else 0 {
        assert k in v.slots <==> k == v.slots[0] || k in v.slots[1..];
      }
    }
  }

  // ---- log_write ----

  function IndexOf(blocks: seq<int>, b: int): (j: nat)
    requires b in blocks
    ensures j < |blocks| && blocks[j] == b
  {
    if blocks[0] == b then 0 else 1 + IndexOf(blocks[1..], b)
  }

  /** The view when buffer i, of block b, has been written with x and logged. */
  function Wrote(v: View, i: nat, b: int, x: Block): View {
    if b in v.blocks && |v.vals| == |v.blocks| then v.(vals := v.vals[IndexOf(v.blocks, b) := x])
    else if i < |v.refs| then View(v.refs[i := v.refs[i] + 1], v.slots + [i], v.blocks + [b], v.vals + [x])
    else v
  }

  lemma BufCount(c: Cache)
    requires c.Valid()
    ensures |c.bufs| == NBUF
  {
  }

  lemma WroteSettled(bufs: seq<Buf>, disk: Disk, dev: nat, v: View, open: set<nat>, i: nat, b: int, was: Block)
    requires |bufs| == NBUF && i < NBUF && i in open && Is(bufs[i], dev, b) && bufs[i].valid
    requires Settled(bufs[i := bufs[i].(data := was)], disk, dev, v, open)
    ensures var w := Wrote(v, i, b, bufs[i].data);
            if b in v.blocks then w.blocks == v.blocks && Settled(bufs, disk, dev, w, open)
            else w.blocks == v.blocks + [b] && Settled(bufs[i := bufs[i].(refcnt := bufs[i].refcnt + 1)], disk, dev, w,
                                                       open)
  {
    if b in v.blocks {
      AbsorbSettled(bufs, disk, dev, v, open, i, b, was);
    } else {
      AppendSettled(bufs, disk, dev, v, open, i, b, was);
    }
  }

  lemma AbsorbSettled(bufs: seq<Buf>, disk: Disk, dev: nat, v: View, open: set<nat>, i: nat, b: int, was: Block)
    requires |bufs| == NBUF && i < NBUF && i in open && Is(bufs[i], dev, b) && bufs[i].valid && b in v.blocks
    requires Settled(bufs[i := bufs[i].(data := was)], disk, dev, v, open)
    ensures Wrote(v, i, b, bufs[i].data).blocks == v.blocks
            && Settled(bufs, disk, dev, Wrote(v, i, b, bufs[i].data), open)
  {
    var prior := bufs[i := bufs[i].(data := was)];
    var w, j := Wrote(v, i, b, bufs[i].data), IndexOf(v.blocks, b);
    FoundAt(prior, disk, dev, v, open, j, i);
    SameUnique(prior, bufs);
    forall k | 0 <= k < |w.slots| ensures Keeps(bufs[w.slots[k]], dev, w.blocks[k], w.vals[k]) {
      assert Keeps(prior[v.slots[k]], dev, v.blocks[k], v.vals[k]);
    }
    forall k | 0 <= k < NBUF ensures Agrees(bufs[k], disk, dev, w.blocks) {
      assert Agrees(prior[k], disk, dev, v.blocks);
    }
  }

  lemma AppendSettled(bufs: seq<Buf>, disk: Disk, dev: nat, v: View, open: set<nat>, i: nat, b: int, was: Block)
    requires |bufs| == NBUF && i < NBUF && i in open && Is(bufs[i], dev, b) && bufs[i].valid && b !in v.blocks
    requires Settled(bufs[i := bufs[i].(data := was)], disk, dev, v, open)
    ensures var w := Wrote(v, i, b, bufs[i].data);
            w.blocks == v.blocks + [b] && Settled(bufs[i := bufs[i].(refcnt := bufs[i].refcnt + 1)], disk, dev, w, open)
  {
    var prior, now := bufs[i := bufs[i].(data := was)], bufs[i := bufs[i].(refcnt := bufs[i].refcnt + 1)];
    var w := Wrote(v, i, b, bufs[i].data);
    SameUnique(prior, now);
    assert w.Ok();
    forall k | 0 <= k < |w.slots| ensures Keeps(now[w.slots[k]], dev, w.blocks[k], w.vals[k]) {
      if k < |v.slots| { assert Keeps(prior[v.slots[k]], dev, v.blocks[k], v.vals[k]); }
    }
    forall k | 0 <= k < NBUF ensures Agrees(now[k], disk, dev, w.blocks) {
      assert Agrees(prior[k], disk, dev, v.blocks);
    }
  }

  lemma SameUnique(a: seq<Buf>, b: seq<Buf>)
    requires Unique(a) && |a| == |b| && forall k :: 0 <= k < |a| ==> a[k].dev == b[k].dev
                                                                     && a[k].blockno == b[k].blockno
    ensures Unique(b)
  {
  }

  // ---- write_log ----

  /** The first k log blocks hold the data to be logged. */
  ghost predicate Copied(v: View, d: Disk, start: nat, k: nat) {
    k <= |v.vals| && start + 1 + k <= |d| && d[start + 1..start + 1 + k] == v.vals[..k]
  }

  lemma CopyStart(L: Layout, d: Disk, v: View, blocks: seq<int>)
    requires DiskOk(L, d)
    ensures Copied(v, d, L.start, 0) && CountOk(d[L.start])
  {
  }

  lemma CopyOne(L: Layout, d: Disk, c: Disk, v: View, blocks: seq<int>, k: nat)
    requires DiskOk(L, d) && RecoversTo(L, d, c) && HeadBlocks(d[L.start]) == [] && Loggable(L, blocks)
    requires v.Ok() && v.blocks == blocks && k < |blocks| && Copied(v, d, L.start, k)
    ensures |v.vals| == |v.blocks| && L.start + k + 1 < |d| && 0 <= blocks[k] < |d| && L.start + k + 1 != blocks[k]
    ensures L.start + k + 1 !in v.blocks
    ensures var d' := d[L.start + k + 1 := v.vals[k]];
            && DiskOk(L, d') && RecoversTo(L, d', c) && d'[L.start] == d[L.start] && CountOk(d'[L.start])
            && Copied(v, d', L.start, k + 1)
  {
    LogBlockWrite(L, d, c, L.start + 1 + k, v.vals[k]);
    var d' := d[L.start + k + 1 := v.vals[k]];
    assert d'[L.start + 1..L.start + 1 + (k + 1)] == d[L.start + 1..L.start + 1 + k] + [v.vals[k]];
    assert v.vals[..k + 1] == v.vals[..k] + [v.vals[k]];
  }

  lemma CopyEnd(L: Layout, d: Disk, v: View, blocks: seq<int>)
    requires v.Ok() && v.blocks == blocks && Copied(v, d, L.start, |blocks|)
    ensures Pending(v, d, L.start, blocks, 0)
  {
    assert blocks[0..] == blocks && v.vals[..|blocks|] == v.vals;
  }

  /** t is the transaction that v's logged blocks and their data make. */
  ghost predicate IsTxn(v: View, t: map<int, Block>) {
    && |v.vals| == |v.blocks|
    && (forall b :: b in t <==> b in v.blocks)
    && (forall i :: 0 <= i < |v.blocks| ==> t[v.blocks[i]] == v.vals[i])
  }

  lemma HeaderWritten(L: Layout, d: Disk, c: Disk, blocks: seq<int>, v: View, t: map<int, Block>)
    requires DiskOk(L, d) && RecoversTo(L, d, c) && HeadBlocks(d[L.start]) == [] && Loggable(L, blocks)
    requires IsTxn(v, t) && v.blocks == blocks && Pending(v, d, L.start, blocks, 0)
    ensures L.start < |d| && L.start !in blocks && |v.vals| == |v.blocks|
    ensures var d' := d[L.start := PutHead(d[L.start], blocks)];
            && DiskOk(L, d') && RecoversTo(L, d', Overwrite(c, t)) && HeadBlocks(d'[L.start]) == blocks
            && Pending(v, d', L.start, blocks, 0)
  {
    forall i | 0 <= i < |blocks| ensures d[L.start + 1 + i] == t[blocks[i]] {
      assert v.vals[i] == d[L.start + 1..L.start + 1 + |blocks|][i];
    }
    HeaderCommits(L, d, c, blocks, t);
  }

  lemma HeaderCleared(L: Layout, d: Disk, c: Disk, blocks: seq<int>)
    requires DiskOk(L, d) && RecoversTo(L, d, c) && HeadBlocks(d[L.start]) == blocks && Installed(L, d, |blocks|)
    ensures L.start < |d| && Loggable(L, [])
    ensures var d' := d[L.start := PutHead(d[L.start], [])];
            DiskOk(L, d') && RecoversTo(L, d', c) && HeadBlocks(d'[L.start]) == [] && SameHome(L, d', c)
  {
    ClearKeeps(L, d, c);
  }

  lemma HeadLoggable(L: Layout, d: Disk)
    requires DiskOk(L, d)
    ensures Loggable(L, HeadBlocks(d[L.start]))
  {
  }

  lemma RecoverReady(L: Layout, d: Disk, v: View)
    requires DiskOk(L, d) && |v.refs| >= 1 && v.refs[0] == 0
    ensures L.start < |d| && CountOk(d[L.start]) && v.Spare()
  {
  }

  lemma EmptyTxn(L: Layout, d: Disk, c: Disk, t: map<int, Block>, v: View)
    requires DiskOk(L, d) && RecoversTo(L, d, c) && HeadBlocks(d[L.start]) == []
    requires IsTxn(v, t) && v.blocks == []
    ensures Overwrite(c, t) == c && SameHome(L, d, c)
  {
  }

  lemma Chain(L: Layout, base: seq<Disk>, mid: seq<Disk>, trace: seq<Disk>, c: Disk)
    requires base <= mid <= trace && AllRecover(L, mid[|base|..], c) && AllRecover(L, trace[|mid|..], c)
    ensures base <= trace && AllRecover(L, trace[|base|..], c)
  {
    forall j | 0 <= j < |trace[|base|..]|
      ensures DiskOk(L, trace[|base|..][j]) && RecoversTo(L, trace[|base|..][j], c)
    {
      if j < |mid| - |base| {
        assert mid[|base|..][j] == trace[|base|..][j];
      } else {
        assert trace[|mid|..][j - (|mid| - |base|)] == trace[|base|..][j];
      }
    }
  }

  /** The first k blocks of a committed transaction are installed. */
  ghost predicate Redone(L: Layout, d: Disk, c: Disk, blocks: seq<int>, k: nat) {
    && DiskOk(L, d) && RecoversTo(L, d, c) && HeadBlocks(d[L.start]) == blocks
    && k <= |blocks| && Installed(L, d, k)
  }

  /** v keeps the blocks from the k-th on, each with what its log block has. */
  ghost predicate Pending(v: View, d: Disk, start: nat, blocks: seq<int>, k: nat) {
    && v.Ok() && k <= |blocks| && start + 1 + |blocks| <= |d|
    && v.blocks == blocks[k..] && v.vals == d[start + 1 + k..start + 1 + |blocks|]
  }

  lemma PendingNext(v: View, L: Layout, d: Disk, blocks: seq<int>, k: nat)
    requires Pending(v, d, L.start, blocks, k) && k < |blocks| && L.Home(blocks[k]) && |d| == L.nblocks
             && |blocks| < L.size
    requires L.start + 1 + k !in blocks
    ensures |v.slots| == |v.blocks| == |v.vals| >= 1 && |v.refs| == NBUF && v.slots[0] < NBUF
    ensures v.blocks[0] == blocks[k] && v.vals[0] == d[L.start + 1 + k] && L.start + 1 + k !in v.blocks
    ensures v.Spare() ==> Unpinned(v).Spare()
    ensures Unpinned(v).Ok() ==> Pending(Unpinned(v), d[blocks[k] := d[L.start + 1 + k]], L.start, blocks, k + 1)
  {
    SpareKept(v);
  }

  lemma PendingDone(v: View, d: Disk, start: nat, blocks: seq<int>)
    requires Pending(v, d, start, blocks, |blocks|)
    ensures v.blocks == []
  {
  }

  lemma RedoStart(L: Layout, d: Disk, c: Disk, blocks: seq<int>)
    requires DiskOk(L, d) && RecoversTo(L, d, c) && HeadBlocks(d[L.start]) == blocks
    ensures Redone(L, d, c, blocks, 0)
  {
  }

  lemma RedoEnd(L: Layout, d: Disk, c: Disk, blocks: seq<int>)
    requires Redone(L, d, c, blocks, |blocks|)
    ensures DiskOk(L, d) && RecoversTo(L, d, c) && HeadBlocks(d[L.start]) == blocks && Loggable(L, blocks)
    ensures Installed(L, d, |blocks|)
  {
  }

  lemma NothingYet(L: Layout, trace: seq<Disk>, c: Disk)
    ensures trace <= trace && AllRecover(L, trace[|trace|..], c)
  {
  }

  lemma RedoOne(L: Layout, d: Disk, c: Disk, blocks: seq<int>, k: nat)
    requires Redone(L, d, c, blocks, k) && k < |blocks|
    ensures L.Valid() && |d| == L.nblocks && |blocks| < L.size && L.Home(blocks[k])
    ensures L.start + 1 + k !in blocks
    ensures var d' := d[blocks[k] := d[L.start + 1 + k]];
            Redone(L, d', c, blocks, k + 1) && DiskOk(L, d') && RecoversTo(L, d', c)
  {
    ReinstallKeeps(L, d, c, k);
    var d' := d[blocks[k] := d[L.start + 1 + k]];
    forall i | 0 <= i < k + 1 ensures d'[blocks[i]] == d'[L.start + 1 + i] {
      if i < k { assert d[blocks[i]] == d[L.start + 1 + i]; }
    }
  }

  lemma ViewOk(bufs: seq<Buf>, disk: Disk, dev: nat, v: View)
    requires Settled(bufs, disk, dev, v, {})
    ensures v.Ok()
  {
  }

  lemma SpareKept(v: View)
    requires v.Ok() && |v.blocks| >= 1
    ensures v.Spare() ==> Unpinned(v).Spare()
  {
    if v.Spare() {
      var k :| 0 <= k < |v.refs| && v.refs[k] == 0;
      assert Unpinned(v).refs[k] == 0;
    }
  }

  ghost predicate AllRecover(L: Layout, ds: seq<Disk>, c: Disk) {
    forall j :: 0 <= j < |ds| ==> DiskOk(L, ds[j]) && RecoversTo(L, ds[j], c)
  }

  lemma Extend(L: Layout, base: seq<Disk>, trace: seq<Disk>, d: Disk, c: Disk)
    requires base <= trace && AllRecover(L, trace[|base|..], c) && DiskOk(L, d) && RecoversTo(L, d, c)
    ensures base <= trace + [d] && AllRecover(L, (trace + [d])[|base|..], c)
  {
  }
}
