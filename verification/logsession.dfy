/** The log as the file system uses it, from boot on: recover, then transactions of
    bread, modify, log_write and brelse between begin_op and end_op. */
module LogSession {
  import opened Basics
  import opened Wal
  import opened Bio
  import opened Log

  /** One change of a block. */
  datatype Change = Change(b: int, x: Block)

  /** The transaction that changes make: the last change of each block. */
  function Txn(cs: seq<Change>): map<int, Block> {
    if cs == [] then map[] else Txn(cs[..|cs| - 1])[cs[|cs| - 1].b := cs[|cs| - 1].x]
  }

  /** The disk's contents after the first k transactions. */
  function After(d: Disk, txs: seq<seq<Change>>, k: nat): (r: Disk)
    requires k <= |txs|
    ensures |r| == |d|
  {
    if k == 0 then d else Overwrite(After(d, txs, k - 1), Txn(txs[k - 1]))
  }

  ghost predicate AllHome(L: Layout, cs: seq<Change>) { forall i :: 0 <= i < |cs| ==> L.Home(cs[i].b) }

  /** The log between log_write calls of one operation. */
  ghost predicate InOp(log: Log, v: View, c: Disk, cs: seq<Change>)
    reads log, log.cache
  {
    && log.Ready(v, c) && v.blocks == log.Logged() && HeadBlocks(log.cache.disk[log.start]) == []
    && v.PinsOnly() && IsTxn(v, Txn(cs)) && log.outstanding == 1 && !log.committing
  }

  /** bread, a change to the buffer, log_write and brelse.  False is a panic: the log is full. */
  method Update(log: Log, ch: Change, ghost v: View, ghost c: Disk, ghost cs: seq<Change>)
    returns (ok: bool, ghost w: View)
    requires InOp(log, v, c, cs) && log.L().Home(ch.b)
    modifies log, log.cache
    ensures ok <==> old(log.n) < NBUF && old(log.n) < log.size - 1
    ensures log.cache.disk == old(log.cache.disk) && log.cache.trace == old(log.cache.trace)
    ensures ok ==> InOp(log, w, c, cs + [ch]) && log.n <= old(log.n) + 1
  {
    hide Settled, RecoversTo, DiskOk, Cache.Valid, IsTxn, Wrote, Txn, Loggable, Idle, View.PinsOnly, View.Ok;
    PinsOk(v);
    LogSpace(log.L(), log.Logged());
    SpareExact(v);
    ghost var spare := SpareOf(v, log.cache.bufs, log.cache.disk, log.dev, {});
    ghost var lh := log.Logged();
    w := v;
    var r := log.Open(ch.b, v, {}, spare);
    if r.None? { return false, w; }
    var i := r.value;
    HeldLocked(log.cache, log.dev, v, {} + {i}, i);
    ghost var was, held := log.cache.bufs[i].data, log.cache.bufs;
    log.cache.SetData(i, ch.x);
    assert log.cache.bufs[i := log.cache.bufs[i].(data := was)] == held;
    ok := log.LogWrite(i, v, was, {} + {i});
    if !ok { return; }
    w := Wrote(v, i, ch.b, ch.x);
    WroteTxn(v, i, ch, cs);
    WrotePins(held, log.cache.disk, log.dev, v, {} + {i}, i, ch);
    WroteLoggable(log.L(), v, i, ch, lh);
    log.Close(i, w, {} + {i});
    assert {} + {i} - {i} == {};
  }

  lemma PinsOk(v: View)
    requires v.PinsOnly()
    ensures v.Ok() && |v.refs| == NBUF
  {
  }

  lemma HeldLocked(c: Cache, dev: nat, v: View, open: set<nat>, i: nat)
    requires c.Valid() && Settled(c.bufs, c.disk, dev, v, open) && i in open && i < NBUF
    ensures |c.bufs| == NBUF && c.bufs[i].locked
  {
  }

  lemma WroteTxn(v: View, i: nat, ch: Change, cs: seq<Change>)
    requires v.Ok() && i < NBUF && IsTxn(v, Txn(cs))
    ensures IsTxn(Wrote(v, i, ch.b, ch.x), Txn(cs + [ch]))
  {
    assert (cs + [ch])[..|cs|] == cs;
    assert Txn(cs + [ch]) == Txn(cs)[ch.b := ch.x];
  }

  lemma WrotePins(bufs: seq<Buf>, disk: Disk, dev: nat, v: View, open: set<nat>, i: nat, ch: Change)
    requires Settled(bufs, disk, dev, v, open) && v.PinsOnly() && i < NBUF && Is(bufs[i], dev, ch.b)
    ensures Wrote(v, i, ch.b, ch.x).PinsOnly()
  {
    if ch.b !in v.blocks {
      forall j | 0 <= j < |v.slots| ensures v.slots[j] != i {
        assert Keeps(bufs[v.slots[j]], dev, v.blocks[j], v.vals[j]);
      }
    }
  }

  lemma WroteLoggable(L: Layout, v: View, i: nat, ch: Change, lh: seq<int>)
    requires v.Ok() && i < NBUF && Loggable(L, lh) && v.blocks == lh && L.Home(ch.b) && |lh| < LOGSIZE
             && |lh| < L.size - 1
    ensures Loggable(L, Wrote(v, i, ch.b, ch.x).blocks)
  {
  }

  // ---- transactions ----

  /** The log between transactions: nothing logged, and the home blocks are c. */
  ghost predicate AtRest(log: Log, v: View, c: Disk)
    reads log, log.cache
  {
    && log.Ready(v, c) && v.blocks == [] && log.n == 0 && HeadBlocks(log.cache.disk[log.start]) == []
    && v.PinsOnly() && log.outstanding == 0 && !log.committing && SameHome(log.L(), log.cache.disk, c)
  }

  /** begin_op, the changes, end_op.  Up to a point every disk state recovers to the old contents, and
      after it to the contents with all the changes.  It ends without a panic if the changes
      are within an operation's budget. */
  method Transaction(log: Log, cs: seq<Change>, ghost v: View, ghost c: Disk)
    returns (ok: bool, ghost w: View, ghost before: seq<Disk>)
    requires AtRest(log, v, c) && AllHome(log.L(), cs)
    modifies log, log.cache
    ensures |cs| <= MAXOPBLOCKS < log.size ==> ok
    ensures |log.cache.disk| == old(|log.cache.disk|)
    ensures old(log.cache.trace) <= before <= log.cache.trace
    ensures AllRecover(log.L(), before[old(|log.cache.trace|)..], c)
    ensures AllRecover(log.L(), log.cache.trace[|before|..], Overwrite(c, Txn(cs)))
    ensures ok ==> AtRest(log, w, Overwrite(c, Txn(cs)))
  {
    hide Settled, RecoversTo, DiskOk, Cache.Valid, IsTxn, Loggable, AllRecover, Overwrite, SameHome;
    before := log.cache.trace;
    NothingYet(log.L(), log.cache.trace, c);
    NothingYet(log.L(), log.cache.trace, Overwrite(c, Txn(cs)));
    var begun := log.TryBegin();
    NoChanges(v);
    w := v;
    var i := 0;
    assert cs[..0] == [];
    while i < |cs|
      invariant 0 <= i <= |cs| && InOp(log, w, c, cs[..i]) && log.n <= i
      invariant log.cache.disk == old(log.cache.disk) && log.cache.trace == old(log.cache.trace)
    {
      ok, w := Update(log, cs[i], w, c, cs[..i]);
      if !ok { return; }
      assert cs[..i + 1] == cs[..i] + [cs[i]];
      i := i + 1;
    }
    assert cs[..i] == cs;
    SpareExact(w);
    ok, w, before := log.EndOp(w, c, Txn(cs));
  }

  lemma NoChanges(v: View)
    requires v.Ok() && v.blocks == []
    ensures IsTxn(v, Txn([]))
  {
  }

  // ---- sessions ----

  /** Each disk state recovers to the contents after some number of whole transactions, and that
      number never falls. */
  ghost predicate Atomic(L: Layout, d: Disk, txs: seq<seq<Change>>, trace: seq<Disk>, ks: seq<nat>) {
    && |ks| == |trace| && (forall j :: 0 <= j < |ks| ==> ks[j] <= |txs|)
    && (forall i, j :: 0 <= i < j < |ks| ==> ks[i] <= ks[j])
    && (forall j :: 0 <= j < |ks| ==> DiskOk(L, trace[j]) && RecoversTo(L, trace[j], After(d, txs, ks[j])))
  }

  lemma AtomicMore(L: Layout, d: Disk, txs: seq<seq<Change>>, trace: seq<Disk>, ks: seq<nat>, more: seq<Disk>, k: nat)
    requires Atomic(L, d, txs, trace, ks) && k <= |txs| && AllRecover(L, more, After(d, txs, k))
    requires forall j :: 0 <= j < |ks| ==> ks[j] <= k
    ensures Atomic(L, d, txs, trace + more, ks + seq(|more|, _ => k))
  {
    hide RecoversTo, DiskOk, After;
  }

  /** Power-on: an empty cache, and recovery. */
  method Boot(d: Disk, dev: nat, start: nat, size: nat) returns (log: Log, ghost v: View)
    requires dev != 0 && DiskOk(Layout(start, size, |d|), d)
    ensures fresh(log) && fresh(log.cache) && log.L() == Layout(start, size, |d|)
    ensures AtRest(log, v, Recovered(log.L(), d)) && AllRecover(log.L(), log.cache.trace, Recovered(log.L(), d))
  {
    hide Settled, RecoversTo, DiskOk, Cache.Valid, Loggable, AllRecover, SameHome, Recovered;
    ghost var L := Layout(start, size, |d|);
    var cache := new Cache(d);
    log := new Log(cache, dev, start, size);
    v := View(seq(NBUF, _ => 0), [], [], []);
    Fresh(cache, d, dev, L, v);
    NoneLogged(L, d, log.Logged());
    var ok := log.RecoverFromLog(v, Recovered(L, d));
    assert cache.trace[0..] == cache.trace;
  }

  /** From power-on: recovery, then the transactions.  Every disk state on the way recovers to a whole
      number of them, and at the end the home blocks hold all of them.  A panic needs an
      operation that exceeds its budget, or a log smaller than that. */
  method Session(d: Disk, dev: nat, start: nat, size: nat, txs: seq<seq<Change>>)
    returns (ok: bool, log: Log, ghost ks: seq<nat>)
    requires dev != 0 && DiskOk(Layout(start, size, |d|), d)
    requires forall i :: 0 <= i < |txs| ==> AllHome(Layout(start, size, |d|), txs[i])
    ensures fresh(log) && fresh(log.cache) && log.L() == Layout(start, size, |d|)
    ensures Atomic(log.L(), Recovered(log.L(), d), txs, log.cache.trace, ks)
    ensures ok ==> SameHome(log.L(), log.cache.disk, After(Recovered(log.L(), d), txs, |txs|))
    ensures (forall i :: 0 <= i < |txs| ==> |txs[i]| <= MAXOPBLOCKS < size) ==> ok
  {
    hide DiskOk, AllRecover, Overwrite, SameHome, Atomic, Recovered, Txn, AllHome, AtRest;
    ghost var L, c := Layout(start, size, |d|), Recovered(Layout(start, size, |d|), d);
    ghost var w;
    log, w := Boot(d, dev, start, size);
    ok := true;
    ks := seq(|log.cache.trace|, _ => 0);
    AtomicStart(L, c, txs, log.cache.trace);
    var k := 0;
    while k < |txs|
      invariant 0 <= k <= |txs| && fresh(log) && fresh(log.cache) && log.L() == L
      invariant ok && AtRest(log, w, After(c, txs, k))
      invariant Atomic(L, c, txs, log.cache.trace, ks) && forall j :: 0 <= j < |ks| ==> ks[j] <= k
    {
      ghost var was, before := log.cache.trace, log.cache.trace;
      ok, w, before := Transaction(log, txs[k], w, After(c, txs, k));
      AtomicMore(L, c, txs, was, ks, before[|was|..], k);
      ks := ks + seq(|before| - |was|, _ => k);
      assert was + before[|was|..] == before;
      AtomicMore(L, c, txs, before, ks, log.cache.trace[|before|..], k + 1);
      ks := ks + seq(|log.cache.trace| - |before|, _ => k + 1);
      assert before + log.cache.trace[|before|..] == log.cache.trace;
      if !ok { return; }
      k := k + 1;
    }
    RestHome(log, w, After(c, txs, k));
  }

  lemma RestHome(log: Log, v: View, c: Disk)
    requires AtRest(log, v, c)
    ensures SameHome(log.L(), log.cache.disk, c)
  {
  }

  /** Before anything is read the cache agrees with any view that expects nothing of it. */
  lemma Fresh(cache: Cache, d: Disk, dev: nat, L: Layout, v: View)
    requires cache.Valid() && cache.disk == d && dev != 0 && DiskOk(L, d) && v == View(seq(NBUF, _ => 0), [], [], [])
    requires forall b :: 0 <= b < NBUF ==> cache.bufs[b].refcnt == 0 && cache.bufs[b].dev == 0 && !cache.bufs[b].locked
    ensures Settled(cache.bufs, cache.disk, dev, v, {}) && v.PinsOnly()
    ensures RecoversTo(L, d, Recovered(L, d))
  {
    RecoversToExact(L, d, Recovered(L, d));
  }

  lemma NoneLogged(L: Layout, d: Disk, lh: seq<int>)
    requires DiskOk(L, d) && lh == []
    ensures Loggable(L, lh)
  {
  }

  lemma AtomicStart(L: Layout, c: Disk, txs: seq<seq<Change>>, trace: seq<Disk>)
    requires AllRecover(L, trace, c)
    ensures Atomic(L, c, txs, trace, seq(|trace|, _ => 0))
  {
    hide RecoversTo, DiskOk;
  }
}
