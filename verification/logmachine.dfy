/** Every interleaving of file-system operations, the buffer cache, the commit
    and recovery code, evictions and crashes, as one state machine.

    A step is one critical section of the source, and each disk write is a step
    of its own, so a crash may fall between any two of them. */
module LogMachine {
  import opened Basics
  import opened Wal

  const NPROC: nat := 64

  /** A buffer that holds a block.  `users` are the processes between bget and
      brelse; `dirty` says the holder changed the data and has not called
      log_write yet.  Neither exists in the source. */
  datatype Entry = Entry(valid: bool, data: Block, refcnt: int,
                         holder: Option<nat>, users: set<nat>, dirty: bool)

  /** Where the log code is.  Running to Finishing are after boot; the last
      three are crashed and recovering. */
  datatype Phase =
    | Running | WriteLog(k: nat) | WriteHead | Installing(k: nat) | ClearHead | Finishing
    | Down | Redo(k: nat) | RedoClear

  /** `current`, `base` and `txns` are the specification: the latest logged value
      of every block, the disk at the first boot, and the transactions whose
      header write has finished, oldest first. */
  datatype State = State(
    L: Layout,
    disk: Disk,
    cache: map<int, Entry>,
    ops: seq<Option<nat>>,       // per process: blocks appended by its open operation
    outstanding: int,
    committing: bool,
    lh: seq<int>,                // log.lh.block[..log.lh.n]
    phase: Phase,
    current: Disk,
    base: Disk,
    txns: seq<map<int, Block>>)

  datatype Step =
    | Bget(p: nat, b: int, junk: Block)
    | Lock(p: nat, b: int)
    | Modify(p: nat, b: int, data: Block)
    | LogWrite(p: nat, b: int)
    | Brelse(p: nat, b: int)
    | Evict(b: int)
    | BeginOp(p: nat)
    | EndOp(p: nat)
    | Commit
    | Crash
    | Recover

  predicate Online(ph: Phase) { !ph.Down? && !ph.Redo? && !ph.RedoClear? }

  predicate CommitPhase(ph: Phase) {
    ph.WriteLog? || ph.WriteHead? || ph.Installing? || ph.ClearHead? || ph.Finishing?
  }

  function Replay(base: Disk, txns: seq<map<int, Block>>): (r: Disk)
    ensures |r| == |base|
  {
    if txns == [] then base
    else Overwrite(Replay(base, txns[..|txns| - 1]), txns[|txns| - 1])
  }

  function Committed(s: State): Disk { Replay(s.base, s.txns) }

  predicate InOp(ops: seq<Option<nat>>, p: nat) { p < |ops| && ops[p].Some? }

  predicate Holds(s: State, p: nat, b: int) { b in s.cache && s.cache[b].holder == Some(p) }

  // Room for block b: it is cached, or a buffer is unused (Evict frees one).
  predicate Room(c: map<int, Entry>, b: int) { b in c || |c| < NBUF }

  predicate Unheld(c: map<int, Entry>, b: int) { b in c ==> c[b].holder.None? }

  /** The cache after bread and brelse of b by the log code. */
  function Touch(c: map<int, Entry>, d: Disk, b: int): (r: map<int, Entry>)
    requires 0 <= b < |d|
    ensures b in r && r[b].valid
  {
    if b !in c then c[b := Entry(true, d[b], 0, None, {}, false)]
    else if c[b].valid then c
    else c[b := c[b].(valid := true, data := d[b])]
  }

  function Reserve(ops: seq<Option<nat>>): nat {
    if ops == [] then 0
    else (match ops[0] case None => 0 case Some(u) => if u < MAXOPBLOCKS then MAXOPBLOCKS - u else 0)
         + Reserve(ops[1..])
  }

  function Count(ops: seq<Option<nat>>): nat {
    if ops == [] then 0 else (if ops[0].Some? then 1 else 0) + Count(ops[1..])
  }

  // log_write's two tests for space.
  predicate LogRoom(s: State) { |s.lh| < LOGSIZE && |s.lh| < s.L.size - 1 }

  // ---- steps ----

  function DoBget(s: State, p: nat, b: int, junk: Block): Option<State> {
    if !(Online(s.phase) && p < NPROC && s.L.Home(b) && Room(s.cache, b)) then None
    else if b !in s.cache then
      Some(s.(cache := s.cache[b := Entry(false, junk, 1, None, {p}, false)]))
    else if p in s.cache[b].users then None
    else
      var e := s.cache[b];
      Some(s.(cache := s.cache[b := e.(refcnt := e.refcnt + 1, users := e.users + {p})]))
  }

  function DoLock(s: State, p: nat, b: int): Option<State> {
    if !(Online(s.phase) && b in s.cache && p in s.cache[b].users && s.cache[b].holder.None? && 0 <= b < |s.disk|)
    then None
    else
      var e := s.cache[b];
      Some(s.(cache := s.cache[b := e.(holder := Some(p), valid := true,
                                       data := if e.valid then e.data else s.disk[b])]))
  }

  function DoModify(s: State, p: nat, b: int, data: Block): Option<State> {
    if !(Online(s.phase) && Holds(s, p, b) && InOp(s.ops, p)) then None
    else Some(s.(cache := s.cache[b := s.cache[b].(data := data, dirty := true)]))
  }

  function DoLogWrite(s: State, p: nat, b: int): Option<State> {
    if !(Online(s.phase) && Holds(s, p, b) && InOp(s.ops, p) && LogRoom(s) && s.outstanding >= 1
         && 0 <= b < |s.current|)
    then None
    else
      var e := s.cache[b];
      var cur := s.current[b := e.data];
      if b in s.lh then
        Some(s.(cache := s.cache[b := e.(dirty := false)], current := cur))
      else
        Some(s.(cache := s.cache[b := e.(dirty := false, refcnt := e.refcnt + 1)], current := cur,
                lh := s.lh + [b], ops := s.ops[p := Some(s.ops[p].value + 1)]))
  }

  function DoBrelse(s: State, p: nat, b: int): Option<State> {
    if !(Online(s.phase) && Holds(s, p, b) && !s.cache[b].dirty) then None
    else
      var e := s.cache[b];
      Some(s.(cache := s.cache[b := e.(holder := None, users := e.users - {p}, refcnt := e.refcnt - 1)]))
  }

  function DoEvict(s: State, b: int): Option<State> {
    if !(b in s.cache && s.cache[b].refcnt == 0) then None
    else Some(s.(cache := s.cache - {b}))
  }

  function DoBeginOp(s: State, p: nat): Option<State> {
    if !(Online(s.phase) && p < |s.ops| && s.ops[p].None? && !s.committing
         && |s.lh| + (s.outstanding + 1) * MAXOPBLOCKS <= LOGSIZE) then None
    else Some(s.(outstanding := s.outstanding + 1, ops := s.ops[p := Some(0)]))
  }

  /** end_op, for a caller that has logged what it changed. */
  function DoEndOp(s: State, p: nat): Option<State> {
    if !(Online(s.phase) && InOp(s.ops, p) && !s.committing
         && forall b <- s.cache :: s.cache[b].dirty ==> s.cache[b].holder != Some(p)) then None
    else
      var s1 := s.(outstanding := s.outstanding - 1, ops := s.ops[p := None]);
      if s1.outstanding == 0 then
        Some(s1.(committing := true, phase := if s.lh == [] then Finishing else WriteLog(0)))
      else Some(s1)
  }

  /** Copy block `from` over block `to`, in the cache and on disk, by way of bread and bwrite. */
  function CopyBlock(s: State, from: int, to: int): Option<State> {
    if !(0 <= from < |s.disk| && 0 <= to < |s.disk| && Room(s.cache, from)) then None
    else
      var c := Touch(s.cache, s.disk, from);
      if !(Room(c, to) && Unheld(c, from) && Unheld(c, to)) then None
      else
        var c2 := Touch(c, s.disk, to);
        var x := c2[from].data;
        Some(s.(cache := c2[to := c2[to].(data := x)], disk := s.disk[to := x]))
  }

  /** write_head. */
  function PutHeader(s: State, blocks: seq<int>): Option<State> {
    if !(|blocks| <= LOGSIZE && s.L.start < |s.disk| && Room(s.cache, s.L.start) && Unheld(s.cache, s.L.start))
    then None
    else
      var c := Touch(s.cache, s.disk, s.L.start);
      var h := PutHead(c[s.L.start].data, blocks);
      Some(s.(cache := c[s.L.start := c[s.L.start].(data := h)], disk := s.disk[s.L.start := h]))
  }

  /** The next disk write or bookkeeping step of the committing process. */
  function DoCommit(s: State): Option<State> {
    match s.phase
    case WriteLog(k) =>
      if k == |s.lh| then Some(s.(phase := WriteHead))
      else if k > |s.lh| then None
      else
        var r := CopyBlock(s, s.lh[k], s.L.start + 1 + k);
        if r.None? then None else Some(r.value.(phase := WriteLog(k + 1)))
    case WriteHead =>
      if exists b <- s.lh :: !(0 <= b < |s.current|) then None
      else
        var r := PutHeader(s, s.lh);
        if r.None? then None
        else Some(r.value.(phase := Installing(0), txns := s.txns + [map b | b in s.lh :: s.current[b]]))
    case Installing(k) =>
      if k == |s.lh| then Some(s.(lh := [], phase := ClearHead))
      else if k > |s.lh| then None
      else
        var r := CopyBlock(s, s.L.start + 1 + k, s.lh[k]);
        if r.None? then None
        else Some(r.value.(phase := Installing(k + 1), cache := Unpin(r.value.cache, s.lh[k])))
    case ClearHead =>
      var r := PutHeader(s, []);
      if r.None? then None else Some(r.value.(phase := Finishing))
    case Finishing => Some(s.(committing := false, phase := Running))
    case _ => None
  }

  function Unpin(c: map<int, Entry>, b: int): map<int, Entry> {
    if b in c then c[b := c[b].(refcnt := c[b].refcnt - 1)] else c
  }

  function DoCrash(s: State): State {
    s.(cache := map[], ops := seq(NPROC, _ => None), outstanding := 0, committing := false,
       lh := [], phase := Down, current := Committed(s))
  }

  /** The next step of recover_from_log. */
  function DoRecover(s: State): Option<State> {
    match s.phase
    case Down =>
      if !(s.L.start < |s.disk| && Room(s.cache, s.L.start)) then None
      else
        var c := Touch(s.cache, s.disk, s.L.start);
        if !CountOk(c[s.L.start].data) then None
        else Some(s.(cache := c, lh := HeadBlocks(c[s.L.start].data), phase := Redo(0)))
    case Redo(k) =>
      if k == |s.lh| then Some(s.(lh := [], phase := RedoClear))
      else if k > |s.lh| then None
      else
        var r := CopyBlock(s, s.L.start + 1 + k, s.lh[k]);
        if r.None? then None else Some(r.value.(phase := Redo(k + 1)))
    case RedoClear =>
      var r := PutHeader(s, []);
      if r.None? then None else Some(r.value.(phase := Running))
    case _ => None
  }

  function Apply(s: State, a: Step): Option<State> {
    match a
    case Bget(p, b, junk) => DoBget(s, p, b, junk)
    case Lock(p, b) => DoLock(s, p, b)
    case Modify(p, b, data) => DoModify(s, p, b, data)
    case LogWrite(p, b) => DoLogWrite(s, p, b)
    case Brelse(p, b) => DoBrelse(s, p, b)
    case Evict(b) => DoEvict(s, b)
    case BeginOp(p) => DoBeginOp(s, p)
    case EndOp(p) => DoEndOp(s, p)
    case Commit => DoCommit(s)
    case Crash => Some(DoCrash(s))
    case Recover => DoRecover(s)
  }

  function Run(s: State, steps: seq<Step>): Option<State> {
    if steps == [] then Some(s)
    else
      var r := Run(s, steps[..|steps| - 1]);
      if r.None? then None else Apply(r.value, steps[|steps| - 1])
  }

  /** Power-on with any disk whose header is well formed. */
  function Boot(L: Layout, d: Disk): State
    requires DiskOk(L, d)
  {
    State(L, d, map[], seq(NPROC, _ => None), 0, false, [], Down, Recovered(L, d), Recovered(L, d), [])
  }

  // ---- the invariant ----

  function FirstPinned(ph: Phase): nat { if ph.Installing? then ph.k else 0 }

  /** Logged and not yet installed: log_write's pin on b is still there. */
  ghost predicate Pinned(ph: Phase, lh: seq<int>, b: int) {
    Online(ph) && exists i :: FirstPinned(ph) <= i < |lh| && lh[i] == b
  }

  ghost predicate Sized(s: State) {
    && DiskOk(s.L, s.disk)
    && |s.current| == |s.base| == s.L.nblocks
    && |s.ops| == NPROC
    && Loggable(s.L, s.lh)
  }

  ghost predicate OpsOk(ops: seq<Option<nat>>, outstanding: int, committing: bool, ph: Phase) {
    && outstanding == Count(ops)
    && (committing <==> CommitPhase(ph))
    && (!ph.Running? ==> forall p :: 0 <= p < |ops| ==> ops[p].None?)
  }

  /** What buffer e may hold for block b, given whether the log pins b, the
      latest logged value of b and what the disk has at b. */
  ghost predicate EntryOk(L: Layout, ops: seq<Option<nat>>, b: int, e: Entry, pin: bool, latest: Block, onDisk: Block)
  {
    && e.refcnt == |e.users| + (if pin then 1 else 0)
    && (e.holder.Some? ==> e.holder.value in e.users && e.valid)
    && (e.users != {} ==> L.Home(b))
    && (e.dirty ==> e.holder.Some? && e.valid && InOp(ops, e.holder.value))
    && (e.valid && L.Home(b) && !e.dirty ==> e.data == latest)
    && (e.valid && L.InLog(b) ==> e.data == onDisk)
    && (pin ==> e.valid)
  }

  ghost predicate BufferOk(s: State, b: int)
    requires Sized(s) && b in s.cache
  {
    && 0 <= b < s.L.nblocks
    && (!Online(s.phase) ==> s.cache[b].users == {})
    && EntryOk(s.L, s.ops, b, s.cache[b], Pinned(s.phase, s.lh, b), s.current[b], s.disk[b])
  }

  ghost predicate CacheOk(s: State)
    requires Sized(s)
  {
    && |s.cache| <= NBUF
    && (s.phase.Down? ==> s.cache == map[])
    && (forall b :: b in s.cache ==> BufferOk(s, b))
    && (forall b :: Pinned(s.phase, s.lh, b) ==> b in s.cache)
  }

  ghost predicate LogHolds(L: Layout, d: Disk, current: Disk, lh: seq<int>, k: nat)
    requires DiskOk(L, d) && |current| == L.nblocks && Loggable(L, lh) && k <= |lh|
  {
    forall i :: 0 <= i < k ==> d[L.start + 1 + i] == current[lh[i]]
  }

  ghost predicate PhaseOk(L: Layout, d: Disk, current: Disk, lh: seq<int>, committed: Disk, ph: Phase)
    requires DiskOk(L, d) && |current| == L.nblocks && Loggable(L, lh)
  {
    var hb := HeadBlocks(d[L.start]);
    match ph
    case Running => hb == []
    case WriteLog(k) => hb == [] && k <= |lh| && LogHolds(L, d, current, lh, k)
    case WriteHead => hb == [] && LogHolds(L, d, current, lh, |lh|)
    case Installing(k) =>
      hb == lh && k <= |lh| && LogHolds(L, d, current, lh, |lh|) && SameHome(L, current, committed)
    case ClearHead => lh == [] && Installed(L, d, |hb|) && SameHome(L, current, committed)
    case Finishing => lh == [] && hb == []
    case Down => lh == [] && SameHome(L, current, committed)
    case Redo(k) => hb == lh && Installed(L, d, k) && SameHome(L, current, committed)
    case RedoClear => lh == [] && Installed(L, d, |hb|) && SameHome(L, current, committed)
  }

  ghost predicate DiskCurrent(L: Layout, d: Disk, current: Disk, lh: seq<int>, ph: Phase)
    requires |d| == |current| == L.nblocks
  {
    Online(ph) ==> forall b :: L.Home(b) && !Pinned(ph, lh, b) ==> d[b] == current[b]
  }

  /** What holds of the disk and the log header, whatever the cache does. */
  ghost predicate DiskInv(L: Layout, d: Disk, current: Disk, lh: seq<int>, committed: Disk, ph: Phase) {
    && DiskOk(L, d) && |current| == L.nblocks && Loggable(L, lh)
    && PhaseOk(L, d, current, lh, committed, ph)
    && DiskCurrent(L, d, current, lh, ph)
    && RecoversTo(L, d, committed)
  }

  ghost predicate Inv(s: State) {
    && Sized(s)
    && DiskInv(s.L, s.disk, s.current, s.lh, Committed(s), s.phase)
    && OpsOk(s.ops, s.outstanding, s.committing, s.phase)
    && CacheOk(s)
  }
}
