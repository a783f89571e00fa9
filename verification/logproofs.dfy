/** The log machine keeps its invariant, and what follows for every run. */
module LogProofs {
  import opened Basics
  import opened Wal
  import opened LogMachine

  lemma {:induction false} CountUpdate(ops: seq<Option<nat>>, p: nat, v: Option<nat>)
    requires p < |ops|
    ensures Count(ops[p := v]) == Count(ops) - (if ops[p].Some? then 1 else 0) + (if v.Some? then 1 else 0)
  {
    if p == 0 {
      assert ops[p := v][1..] == ops[1..];
    } else {
      assert ops[p := v][1..] == ops[1..][p - 1 := v];
      CountUpdate(ops[1..], p - 1, v);
    }
  }

  lemma {:induction false} CountZero(ops: seq<Option<nat>>, p: nat)
    requires p < |ops| && Count(ops) == 0
    ensures ops[p].None?
  {
    if p > 0 { CountZero(ops[1..], p - 1); }
  }

  lemma {:induction false} CountNone(ops: seq<Option<nat>>)
    requires forall p :: 0 <= p < |ops| ==> ops[p].None?
    ensures Count(ops) == 0 && Reserve(ops) == 0
  {
    if ops != [] { CountNone(ops[1..]); }
  }

  lemma BootInv(L: Layout, d: Disk)
    requires DiskOk(L, d)
    ensures Inv(Boot(L, d))
  {
    CountNone(Boot(L, d).ops);
    RecoversToExact(L, d, Recovered(L, d));
  }

  lemma CrashInv(s: State)
    requires Inv(s)
    ensures Inv(DoCrash(s))
  {
    CountNone(DoCrash(s).ops);
  }

  /** A step that changes only the cache, and that only at b, need only look after b. */
  lemma CacheStep(s: State, t: State, b: int)
    requires Inv(s) && !s.phase.Down? && t == s.(cache := t.cache)
    requires |t.cache| <= NBUF
    requires forall x :: x != b && x in t.cache ==> x in s.cache && t.cache[x] == s.cache[x]
    requires forall x :: x != b && x in s.cache ==> x in t.cache
    requires b in t.cache ==> BufferOk(t, b)
    requires Pinned(s.phase, s.lh, b) ==> b in t.cache
    ensures Inv(t)
  {
    forall x | x in t.cache ensures BufferOk(t, x) {
      if x != b { assert BufferOk(s, x); }
    }
  }

  lemma BgetInv(s: State, p: nat, b: int, junk: Block)
    requires Inv(s) && DoBget(s, p, b, junk).Some?
    ensures Inv(DoBget(s, p, b, junk).value)
  {
    if b in s.cache { assert BufferOk(s, b); }
    CacheStep(s, DoBget(s, p, b, junk).value, b);
  }

  lemma LockInv(s: State, p: nat, b: int)
    requires Inv(s) && DoLock(s, p, b).Some?
    ensures Inv(DoLock(s, p, b).value)
  {
    assert BufferOk(s, b);
    CacheStep(s, DoLock(s, p, b).value, b);
  }

  lemma ModifyInv(s: State, p: nat, b: int, data: Block)
    requires Inv(s) && DoModify(s, p, b, data).Some?
    ensures Inv(DoModify(s, p, b, data).value)
  {
    assert BufferOk(s, b);
    CacheStep(s, DoModify(s, p, b, data).value, b);
  }

  lemma BrelseInv(s: State, p: nat, b: int)
    requires Inv(s) && DoBrelse(s, p, b).Some?
    ensures Inv(DoBrelse(s, p, b).value)
  {
    assert BufferOk(s, b);
    CacheStep(s, DoBrelse(s, p, b).value, b);
  }

  lemma EvictInv(s: State, b: int)
    requires Inv(s) && DoEvict(s, b).Some?
    ensures Inv(DoEvict(s, b).value)
  {
    var t := DoEvict(s, b).value;
    assert BufferOk(s, b);
    assert s.cache == t.cache[b := s.cache[b]];
    CacheStep(s, t, b);
  }

  lemma BeginOpInv(s: State, p: nat)
    requires Inv(s) && DoBeginOp(s, p).Some?
    ensures Inv(DoBeginOp(s, p).value)
  {
    var t := DoBeginOp(s, p).value;
    CountUpdate(s.ops, p, Some(0));
    forall x | x in t.cache ensures BufferOk(t, x) { assert BufferOk(s, x); }
  }

  lemma EndOpInv(s: State, p: nat)
    requires Inv(s) && DoEndOp(s, p).Some?
    ensures Inv(DoEndOp(s, p).value)
  {
    var t := DoEndOp(s, p).value;
    CountUpdate(s.ops, p, None);
    if Count(t.ops) == 0 {
      forall q | 0 <= q < |t.ops| ensures t.ops[q].None? { CountZero(t.ops, q); }
    }
    assert forall x :: Pinned(t.phase, t.lh, x) == Pinned(s.phase, s.lh, x);
    forall x | x in t.cache ensures BufferOk(t, x) { assert BufferOk(s, x); }
  }

  /** Before installation begins the log pins exactly the logged blocks. */
  lemma PinnedAll(ph: Phase, lh: seq<int>, x: int)
    requires Online(ph) && FirstPinned(ph) == 0
    ensures Pinned(ph, lh, x) <==> x in lh
  {
    if x in lh { var i :| 0 <= i < |lh| && lh[i] == x; }
  }

  lemma LogWriteInv(s: State, p: nat, b: int)
    requires Inv(s) && DoLogWrite(s, p, b).Some?
    ensures Inv(DoLogWrite(s, p, b).value)
  {
    var t := DoLogWrite(s, p, b).value;
    assert BufferOk(s, b);
    if b !in s.lh { CountUpdate(s.ops, p, t.ops[p]); }
    forall x ensures Pinned(t.phase, t.lh, x) <==> Pinned(s.phase, s.lh, x) || x == b {
      PinnedAll(s.phase, s.lh, x);
      PinnedAll(t.phase, t.lh, x);
    }
    PinnedAll(s.phase, s.lh, b);
    forall x | x in t.cache ensures BufferOk(t, x) { assert BufferOk(s, x); }
  }

  // ---- steps of the log code ----

  /** The buffer that bread finds or sets up for x. */
  function Buffer(c: map<int, Entry>, x: int, data: Block): Entry {
    if x in c then c[x].(valid := true, data := data) else Entry(true, data, 0, None, {}, false)
  }

  function Value(s: State, x: int): Block
    requires 0 <= x < |s.disk|
  {
    if x in s.cache && s.cache[x].valid then s.cache[x].data else s.disk[x]
  }

  lemma CopyFacts(s: State, from: int, to: int)
    requires |s.cache| <= NBUF && from != to && CopyBlock(s, from, to).Some?
    ensures var t := CopyBlock(s, from, to).value;
            var v := Value(s, from);
            && t == s.(cache := t.cache, disk := s.disk[to := v])
            && |t.cache| <= NBUF
            && t.cache == s.cache[from := Buffer(s.cache, from, v)][to := Buffer(s.cache, to, v)]
            && Unheld(s.cache, from) && Unheld(s.cache, to)
  {
  }

  lemma CopyCache(s: State, from: int, to: int, ph: Phase)
    requires Inv(s) && from != to && CopyBlock(s, from, to).Some? && !ph.Down?
    requires !Online(ph) ==> !Online(s.phase)
    requires forall x :: Pinned(ph, s.lh, x) == Pinned(s.phase, s.lh, x)
    requires s.L.Home(to) ==> Value(s, from) == s.current[to]
    requires s.L.Home(from) ==> Value(s, from) == s.current[from]
    requires DiskOk(s.L, s.disk[to := Value(s, from)])
    ensures var t := CopyBlock(s, from, to).value.(phase := ph);
            Sized(t) && CacheOk(t)
  {
    CopyFacts(s, from, to);
    var t := CopyBlock(s, from, to).value.(phase := ph);
    forall x | x in t.cache ensures BufferOk(t, x) {
      if x in s.cache { assert BufferOk(s, x); }
      if x != from && x != to { assert t.cache[x] == s.cache[x] && t.disk[x] == s.disk[x]; }
    }
  }

  /** Copying one block, given that the disk stays in order and what the copied value means. */
  lemma CopyStep(s: State, from: int, to: int, ph: Phase)
    requires Inv(s) && from != to && CopyBlock(s, from, to).Some? && !ph.Down?
    requires OpsOk(s.ops, s.outstanding, s.committing, ph)
    requires !Online(ph) ==> !Online(s.phase)
    requires forall x :: Pinned(ph, s.lh, x) == Pinned(s.phase, s.lh, x)
    requires s.L.Home(to) ==> Value(s, from) == s.current[to]
    requires s.L.Home(from) ==> Value(s, from) == s.current[from]
    requires DiskInv(s.L, s.disk[to := Value(s, from)], s.current, s.lh, Committed(s), ph)
    ensures Inv(CopyBlock(s, from, to).value.(phase := ph))
  {
    CopyCache(s, from, to, ph);
    CopyFacts(s, from, to);
  }

  lemma HeaderFacts(s: State, blocks: seq<int>)
    requires Inv(s) && |blocks| <= LOGSIZE && PutHeader(s, blocks).Some?
    ensures var t := PutHeader(s, blocks).value;
            var h := PutHead(s.disk[s.L.start], blocks);
            && t == s.(cache := s.cache[s.L.start := Buffer(s.cache, s.L.start, h)], disk := s.disk[s.L.start := h])
            && |t.cache| <= NBUF
            && Unheld(s.cache, s.L.start)
            && t.txns == s.txns
  {
    if s.L.start in s.cache { assert BufferOk(s, s.L.start); }
  }

  lemma HeaderCache(s: State, blocks: seq<int>, ph: Phase)
    requires Inv(s) && |blocks| <= LOGSIZE && PutHeader(s, blocks).Some? && !ph.Down?
    requires !Online(ph) ==> !Online(s.phase)
    requires forall x :: Pinned(ph, s.lh, x) == Pinned(s.phase, s.lh, x)
    requires DiskOk(s.L, s.disk[s.L.start := PutHead(s.disk[s.L.start], blocks)])
    ensures var t := PutHeader(s, blocks).value.(phase := ph);
            Sized(t) && CacheOk(t)
  {
    HeaderFacts(s, blocks);
    var t := PutHeader(s, blocks).value.(phase := ph);
    forall x | x in t.cache ensures BufferOk(t, x) {
      if x in s.cache { assert BufferOk(s, x); }
    }
  }

  /** write_head, given that the disk stays in order. */
  lemma HeaderStep(s: State, blocks: seq<int>, ph: Phase, txns: seq<map<int, Block>>)
    requires Inv(s) && |blocks| <= LOGSIZE && PutHeader(s, blocks).Some? && !ph.Down?
    requires OpsOk(s.ops, s.outstanding, s.committing, ph)
    requires !Online(ph) ==> !Online(s.phase)
    requires forall x :: Pinned(ph, s.lh, x) == Pinned(s.phase, s.lh, x)
    requires DiskInv(s.L, s.disk[s.L.start := PutHead(s.disk[s.L.start], blocks)], s.current, s.lh,
                     Replay(s.base, txns), ph)
    ensures Inv(PutHeader(s, blocks).value.(phase := ph, txns := txns))
  {
    HeaderCache(s, blocks, ph);
    HeaderFacts(s, blocks);
    CacheOkTxns(PutHeader(s, blocks).value.(phase := ph), PutHeader(s, blocks).value.(phase := ph, txns := txns));
  }

  lemma CacheOkTxns(s: State, t: State)
    requires Sized(s) && CacheOk(s) && t == s.(txns := t.txns)
    ensures Sized(t) && CacheOk(t)
  {
    forall x | x in t.cache ensures BufferOk(t, x) { assert BufferOk(s, x); }
  }

  lemma Parts(s: State)
    requires Inv(s)
    ensures DiskInv(s.L, s.disk, s.current, s.lh, Committed(s), s.phase)
    ensures OpsOk(s.ops, s.outstanding, s.committing, s.phase)
    ensures |s.lh| <= LOGSIZE && |s.current| == |s.disk| == s.L.nblocks && s.L.start < |s.disk|
    ensures s.L.Valid() && |s.lh| < s.L.size && |s.cache| <= NBUF
    ensures forall i :: 0 <= i < |s.lh| ==> s.L.Home(s.lh[i])
  {
  }

  // ---- the disk part of each step of the log code ----

  lemma WriteLogDisk(L: Layout, d: Disk, cur: Disk, lh: seq<int>, com: Disk, k: nat)
    requires DiskInv(L, d, cur, lh, com, WriteLog(k)) && k < |lh|
    ensures DiskInv(L, d[L.start + 1 + k := cur[lh[k]]], cur, lh, com, WriteLog(k + 1))
  {
    var d' := d[L.start + 1 + k := cur[lh[k]]];
    LogBlockWrite(L, d, com, L.start + 1 + k, cur[lh[k]]);
    assert d'[L.start] == d[L.start];
    assert forall x :: Pinned(WriteLog(k + 1), lh, x) == Pinned(WriteLog(k), lh, x);
  }

  /** The transaction, applied to what was committed before, is the latest logged state. */
  lemma TxnIsCurrent(L: Layout, d: Disk, cur: Disk, lh: seq<int>, com: Disk, txn: map<int, Block>)
    requires DiskInv(L, d, cur, lh, com, WriteHead)
    requires forall b :: b in txn <==> b in lh
    requires forall b :: b in txn ==> 0 <= b < |cur| && txn[b] == cur[b]
    ensures SameHome(L, cur, Overwrite(com, txn))
  {
    forall b | L.Home(b) ensures cur[b] == Overwrite(com, txn)[b] {
      if b !in lh { assert !Pinned(WriteHead, lh, b); }
    }
  }

  lemma WriteHeadDiskCurrent(L: Layout, d: Disk, cur: Disk, lh: seq<int>, com: Disk)
    requires DiskInv(L, d, cur, lh, com, WriteHead)
    ensures DiskCurrent(L, d[L.start := PutHead(d[L.start], lh)], cur, lh, Installing(0))
  {
    forall b | L.Home(b) && !Pinned(Installing(0), lh, b) ensures d[b] == cur[b] {
      PinnedAll(Installing(0), lh, b);
      PinnedAll(WriteHead, lh, b);
    }
  }

  lemma WriteHeadDisk(L: Layout, d: Disk, cur: Disk, lh: seq<int>, com: Disk, txn: map<int, Block>)
    requires DiskInv(L, d, cur, lh, com, WriteHead)
    requires forall b :: b in txn <==> b in lh
    requires forall b :: b in txn ==> 0 <= b < |cur| && txn[b] == cur[b]
    ensures DiskInv(L, d[L.start := PutHead(d[L.start], lh)], cur, lh, Overwrite(com, txn), Installing(0))
  {
    HeaderCommits(L, d, com, lh, txn);
    TxnIsCurrent(L, d, cur, lh, com, txn);
    WriteHeadDiskCurrent(L, d, cur, lh, com);
  }

  lemma PinnedNext(lh: seq<int>, k: nat, x: int)
    requires k < |lh| && NoRepeat(lh)
    ensures Pinned(Installing(k), lh, x) <==> Pinned(Installing(k + 1), lh, x) || x == lh[k]
    ensures !Pinned(Installing(k + 1), lh, lh[k])
  {
    if Pinned(Installing(k), lh, x) && x != lh[k] {
      var i :| k <= i < |lh| && lh[i] == x;
      assert k + 1 <= i;
    }
  }

  lemma CopyHomeDisk(L: Layout, d: Disk, cur: Disk, lh: seq<int>, com: Disk, k: nat)
    requires DiskInv(L, d, cur, lh, com, Installing(k)) && k < |lh|
    ensures DiskInv(L, d[lh[k] := d[L.start + 1 + k]], cur, lh, com, Installing(k))
    ensures d[L.start + 1 + k] == cur[lh[k]]
  {
    ReinstallKeeps(L, d, com, k);
    assert Pinned(Installing(k), lh, lh[k]);
  }

  lemma UnpinDisk(L: Layout, d: Disk, cur: Disk, lh: seq<int>, com: Disk, k: nat)
    requires DiskInv(L, d, cur, lh, com, Installing(k)) && k < |lh| && d[lh[k]] == cur[lh[k]]
    ensures DiskInv(L, d, cur, lh, com, Installing(k + 1))
  {
    forall b | L.Home(b) && !Pinned(Installing(k + 1), lh, b) ensures d[b] == cur[b] {
      PinnedNext(lh, k, b);
    }
  }

  lemma InstalledDisk(L: Layout, d: Disk, cur: Disk, lh: seq<int>, com: Disk)
    requires DiskInv(L, d, cur, lh, com, Installing(|lh|))
    ensures DiskInv(L, d, cur, [], com, ClearHead)
  {
    forall i | 0 <= i < |lh| ensures d[lh[i]] == d[L.start + 1 + i] {
      assert !Pinned(Installing(|lh|), lh, lh[i]);
    }
    assert forall b :: L.Home(b) ==> !Pinned(Installing(|lh|), lh, b);
  }

  lemma ClearDisk(L: Layout, d: Disk, cur: Disk, com: Disk, ph: Phase)
    requires ph.ClearHead? || ph.RedoClear?
    requires DiskInv(L, d, cur, [], com, ph)
    ensures var d' := d[L.start := PutHead(d[L.start], [])];
            && (ph.ClearHead? ==> DiskInv(L, d', cur, [], com, Finishing))
            && (ph.RedoClear? ==> DiskInv(L, d', cur, [], com, Running))
  {
    ClearKeeps(L, d, com);
    assert forall b :: !Pinned(ClearHead, [], b);
  }

  lemma RedoDisk(L: Layout, d: Disk, cur: Disk, lh: seq<int>, com: Disk, k: nat)
    requires DiskInv(L, d, cur, lh, com, Redo(k)) && k < |lh|
    ensures DiskInv(L, d[lh[k] := d[L.start + 1 + k]], cur, lh, com, Redo(k + 1))
    ensures d[L.start + 1 + k] == cur[lh[k]]
  {
    ReinstallKeeps(L, d, com, k);
  }

  // ---- the steps themselves ----

  /** What bread of a log block, or of a logged home block, returns. */
  lemma LogBlockValue(s: State, x: int)
    requires Inv(s) && s.L.InLog(x)
    ensures Value(s, x) == s.disk[x]
  {
    if x in s.cache { assert BufferOk(s, x); }
  }

  lemma LoggedValue(s: State, x: int)
    requires Inv(s) && Pinned(s.phase, s.lh, x) && Unheld(s.cache, x)
    ensures 0 <= x < |s.disk| && Value(s, x) == s.current[x]
  {
    assert BufferOk(s, x);
  }

  lemma WriteLogInv(s: State)
    requires Inv(s) && s.phase.WriteLog? && s.phase.k < |s.lh| && DoCommit(s).Some?
    ensures Inv(DoCommit(s).value)
  {
    hide Inv, DiskInv, CopyBlock;
    Parts(s);
    var k := s.phase.k;
    var from, to := s.lh[k], s.L.start + 1 + k;
    CopyFacts(s, from, to);
    assert Pinned(s.phase, s.lh, from);
    LoggedValue(s, from);
    WriteLogDisk(s.L, s.disk, s.current, s.lh, Committed(s), k);
    assert forall x :: Pinned(WriteLog(k + 1), s.lh, x) == Pinned(s.phase, s.lh, x);
    CopyStep(s, from, to, WriteLog(k + 1));
  }

  lemma WrittenLogInv(s: State)
    requires Inv(s) && s.phase.WriteLog? && s.phase.k == |s.lh|
    ensures Inv(DoCommit(s).value)
  {
    var t := DoCommit(s).value;
    assert forall x :: Pinned(t.phase, t.lh, x) == Pinned(s.phase, s.lh, x);
    forall x | x in t.cache ensures BufferOk(t, x) { assert BufferOk(s, x); }
  }

  lemma WriteHeadInv(s: State)
    requires Inv(s) && s.phase.WriteHead? && DoCommit(s).Some?
    ensures Inv(DoCommit(s).value)
  {
    hide Inv, DiskInv, PutHeader;
    Parts(s);
    var t := DoCommit(s).value;
    var txn := map b | b in s.lh :: s.current[b];
    assert t == PutHeader(s, s.lh).value.(phase := Installing(0), txns := s.txns + [txn]);
    assert (s.txns + [txn])[..|s.txns|] == s.txns;
    WriteHeadDisk(s.L, s.disk, s.current, s.lh, Committed(s), txn);
    forall x ensures Pinned(Installing(0), s.lh, x) == Pinned(s.phase, s.lh, x) {
      PinnedAll(Installing(0), s.lh, x);
      PinnedAll(s.phase, s.lh, x);
    }
    HeaderStep(s, s.lh, Installing(0), s.txns + [txn]);
  }

  lemma UnpinInv(s: State)
    requires Inv(s) && s.phase.Installing? && s.phase.k < |s.lh|
    requires s.disk[s.lh[s.phase.k]] == s.current[s.lh[s.phase.k]]
    ensures Inv(s.(phase := Installing(s.phase.k + 1), cache := Unpin(s.cache, s.lh[s.phase.k])))
  {
    var k := s.phase.k;
    var t := s.(phase := Installing(k + 1), cache := Unpin(s.cache, s.lh[k]));
    UnpinDisk(s.L, s.disk, s.current, s.lh, Committed(s), k);
    forall x | x in t.cache ensures BufferOk(t, x) {
      assert BufferOk(s, x);
      PinnedNext(s.lh, k, x);
    }
    forall x | Pinned(t.phase, t.lh, x) ensures x in t.cache { PinnedNext(s.lh, k, x); }
  }

  lemma InstallCopyInv(s: State)
    requires Inv(s) && s.phase.Installing? && s.phase.k < |s.lh|
    requires CopyBlock(s, s.L.start + 1 + s.phase.k, s.lh[s.phase.k]).Some?
    ensures var u := CopyBlock(s, s.L.start + 1 + s.phase.k, s.lh[s.phase.k]).value;
            && Inv(u) && u.phase == s.phase && u.lh == s.lh && |u.current| == |u.disk| == s.L.nblocks
            && 0 <= s.lh[s.phase.k] < s.L.nblocks
            && u.disk[s.lh[s.phase.k]] == u.current[s.lh[s.phase.k]]
  {
    hide Inv, DiskInv, CopyBlock;
    Parts(s);
    var k := s.phase.k;
    var from, to := s.L.start + 1 + k, s.lh[k];
    LogBlockValue(s, from);
    CopyHomeDisk(s.L, s.disk, s.current, s.lh, Committed(s), k);
    CopyFacts(s, from, to);
    CopyStep(s, from, to, s.phase);
    var u := CopyBlock(s, from, to).value;
    assert u == u.(phase := s.phase);
  }

  lemma InstallInv(s: State)
    requires Inv(s) && s.phase.Installing? && s.phase.k < |s.lh| && DoCommit(s).Some?
    ensures Inv(DoCommit(s).value)
  {
    hide Inv, CopyBlock;
    InstallCopyInv(s);
    var u := CopyBlock(s, s.L.start + 1 + s.phase.k, s.lh[s.phase.k]).value;
    UnpinInv(u);
    assert DoCommit(s).value == u.(phase := Installing(u.phase.k + 1), cache := Unpin(u.cache, u.lh[u.phase.k]));
  }

  lemma InstalledInv(s: State)
    requires Inv(s) && s.phase.Installing? && s.phase.k == |s.lh|
    ensures Inv(DoCommit(s).value)
  {
    var t := DoCommit(s).value;
    InstalledDisk(s.L, s.disk, s.current, s.lh, Committed(s));
    forall x | x in t.cache ensures BufferOk(t, x) { assert BufferOk(s, x); }
  }

  lemma ClearInv(s: State)
    requires Inv(s) && s.lh == [] && (s.phase.ClearHead? || s.phase.RedoClear?) && PutHeader(s, []).Some?
    ensures s.phase.ClearHead? ==> Inv(DoCommit(s).value)
    ensures s.phase.RedoClear? ==> Inv(DoRecover(s).value)
  {
    hide Inv, DiskInv, PutHeader;
    Parts(s);
    var ph := if s.phase.ClearHead? then Finishing else Running;
    ClearDisk(s.L, s.disk, s.current, Committed(s), s.phase);
    HeaderStep(s, [], ph, s.txns);
    HeaderFacts(s, []);
    var u := PutHeader(s, []).value;
    assert u.(phase := ph, txns := s.txns) == u.(phase := ph);
  }

  lemma FinishInv(s: State)
    requires Inv(s) && s.phase.Finishing?
    ensures Inv(DoCommit(s).value)
  {
    var t := DoCommit(s).value;
    forall x | x in t.cache ensures BufferOk(t, x) { assert BufferOk(s, x); }
  }

  lemma ReadHeadInv(s: State)
    requires Inv(s) && s.phase.Down? && DoRecover(s).Some?
    ensures Inv(DoRecover(s).value)
  {
  }

  lemma RedoInv(s: State)
    requires Inv(s) && s.phase.Redo? && s.phase.k < |s.lh| && DoRecover(s).Some?
    ensures Inv(DoRecover(s).value)
  {
    hide Inv, DiskInv, CopyBlock;
    Parts(s);
    var k := s.phase.k;
    var from, to := s.L.start + 1 + k, s.lh[k];
    LogBlockValue(s, from);
    RedoDisk(s.L, s.disk, s.current, s.lh, Committed(s), k);
    CopyStep(s, from, to, Redo(k + 1));
  }

  lemma RedoneInv(s: State)
    requires Inv(s) && s.phase.Redo? && s.phase.k == |s.lh|
    ensures Inv(DoRecover(s).value)
  {
    var t := DoRecover(s).value;
    forall x | x in t.cache ensures BufferOk(t, x) { assert BufferOk(s, x); }
  }

  lemma StepInv(s: State, a: Step)
    requires Inv(s) && Apply(s, a).Some?
    ensures Inv(Apply(s, a).value)
  {
    match a
    case Bget(p, b, junk) => BgetInv(s, p, b, junk);
    case Lock(p, b) => LockInv(s, p, b);
    case Modify(p, b, data) => ModifyInv(s, p, b, data);
    case LogWrite(p, b) => LogWriteInv(s, p, b);
    case Brelse(p, b) => BrelseInv(s, p, b);
    case Evict(b) => EvictInv(s, b);
    case BeginOp(p) => BeginOpInv(s, p);
    case EndOp(p) => EndOpInv(s, p);
    case Crash => CrashInv(s);
    case Commit =>
      match s.phase {
        case WriteLog(k) => if k < |s.lh| { WriteLogInv(s); } else { WrittenLogInv(s); }
        case WriteHead => WriteHeadInv(s);
        case Installing(k) => if k < |s.lh| { InstallInv(s); } else { InstalledInv(s); }
        case ClearHead => ClearInv(s);
        case Finishing => FinishInv(s);
        case _ =>
      }
    case Recover =>
      match s.phase {
        case Down => ReadHeadInv(s);
        case Redo(k) => if k < |s.lh| { RedoInv(s); } else { RedoneInv(s); }
        case RedoClear => ClearInv(s);
        case _ =>
      }
  }
}
