/** When a commit panics for want of a buffer, and when it can finish. */
module LogCommit {
  import opened Basics
  import opened Wal
  import opened LogMachine
  import opened LogProofs
  import opened LogTheorems
  import opened LogReserve

  // ---- a commit that cannot go on ----

  /** Every buffer is pinned by a transaction whose installation has not begun. */
  predicate Full(s: State) {
    (s.phase.WriteLog? || s.phase.WriteHead? || s.phase == Installing(0)) && |s.lh| == NBUF
  }

  /** The cache then holds the logged blocks and nothing else. */
  lemma FullCache(s: State)
    requires Inv(s) && Full(s)
    ensures s.cache.Keys == Elements(s.lh) && |s.cache| == NBUF
    ensures forall b :: b in s.cache ==> s.cache[b].refcnt >= 1 && s.L.Home(b)
  {
    ElementCount(s.lh);
    forall b | b in s.lh ensures b in s.cache { PinnedAll(s.phase, s.lh, b); }
    assert Elements(s.lh) <= s.cache.Keys;
    SubsetSize(Elements(s.lh), s.cache.Keys);
    forall b | b in s.cache ensures s.cache[b].refcnt >= 1 && s.L.Home(b) {
      assert BufferOk(s, b) && b in Elements(s.lh);
      PinnedAll(s.phase, s.lh, b);
    }
  }

  /** With all buffers in use, a block that is not cached cannot be read. */
  lemma CopyNone(s: State, from: int, to: int)
    requires |s.cache| == NBUF && (from !in s.cache || to !in s.cache)
    ensures CopyBlock(s, from, to).None?
  {
    if 0 <= from < |s.disk| && from in s.cache {
      assert Touch(s.cache, s.disk, from).Keys == s.cache.Keys;
    }
  }

  lemma HeaderNone(s: State, blocks: seq<int>)
    requires |s.cache| == NBUF && s.L.start !in s.cache
    ensures PutHeader(s, blocks).None?
  {
  }

  /** What the committing process does next, where it has a block to write. */
  lemma CommitNext(s: State)
    ensures s.phase.WriteLog? && s.phase.k < |s.lh|
            && CopyBlock(s, s.lh[s.phase.k], s.L.start + 1 + s.phase.k).None? ==>
              DoCommit(s).None?
    ensures s.phase.WriteLog? && s.phase.k == |s.lh| ==> DoCommit(s) == Some(s.(phase := WriteHead))
    ensures s.phase.WriteHead? && PutHeader(s, s.lh).None? ==> DoCommit(s).None?
    ensures s.phase.Installing? && s.phase.k < |s.lh|
            && CopyBlock(s, s.L.start + 1 + s.phase.k, s.lh[s.phase.k]).None? ==>
              DoCommit(s).None?
    ensures s.phase.ClearHead? && PutHeader(s, []).None? ==> DoCommit(s).None?
  {
    hide CopyBlock, PutHeader, Unpin;
  }

  /** No log block, and so not the header, is in the cache. */
  lemma NoLogBlock(s: State, b: int)
    requires Inv(s) && Full(s) && s.L.InLog(b)
    ensures b !in s.cache
  {
    hide Inv, Full;
    FullCache(s);
    assert !s.L.Home(b);
  }

  lemma FullCommits(s: State)
    requires Inv(s) && Full(s)
    ensures DoCommit(s).Some? ==> Full(DoCommit(s).value)
    ensures s.phase == WriteLog(0) ==> DoCommit(s).None?
  {
    hide Inv, CopyBlock, PutHeader, DoCommit, Committed, DiskInv, OpsOk;
    FullCache(s);
    Parts(s);
    FullPhase(s);
    CommitNext(s);
    if s.phase.WriteLog? && s.phase.k < |s.lh| {
      NoLogBlock(s, s.L.start + 1 + s.phase.k);
      CopyNone(s, s.lh[s.phase.k], s.L.start + 1 + s.phase.k);
    } else if s.phase.WriteHead? {
      NoLogBlock(s, s.L.start);
      HeaderNone(s, s.lh);
    } else if s.phase.Installing? {
      NoLogBlock(s, s.L.start + 1);
      CopyNone(s, s.L.start + 1, s.lh[0]);
    }
  }

  lemma FullPhase(s: State)
    requires Inv(s)
    ensures s.phase.WriteLog? ==> s.phase.k <= |s.lh|
  {
    hide CacheOk;
  }

  /** Steps of other processes leave the log and the commit alone. */
  lemma OthersStep(s: State, a: Step)
    requires Apply(s, a).Some? && CommitPhase(s.phase) && s.committing && !a.Crash? && !a.Commit? && !a.LogWrite?
    ensures Apply(s, a).value.lh == s.lh && Apply(s, a).value.phase == s.phase
  {
  }

  /** Whatever else happens, such a commit stays where it is. */
  lemma FullStays(s: State, a: Step)
    requires Inv(s) && Full(s) && a != Crash && Apply(s, a).Some?
    ensures Full(Apply(s, a).value)
  {
    hide Inv, Apply, Full;
    CommitPhaseOf(s);
    if a.Commit? {
      FullCommits(s);
      ApplyCommit(s);
    } else if a.LogWrite? {
      NoWrites(s, a.p, a.b);
    } else {
      OthersStep(s, a);
      FullSame(s, Apply(s, a).value);
    }
  }

  lemma CommitPhaseOf(s: State)
    requires Inv(s) && Full(s)
    ensures CommitPhase(s.phase) && s.committing
  {
    hide DiskInv, CacheOk;
  }

  lemma FullSame(s: State, t: State)
    requires Full(s) && t.lh == s.lh && t.phase == s.phase
    ensures Full(t)
  {
  }

  lemma NoWrites(s: State, p: nat, b: int)
    requires Inv(s) && Full(s)
    ensures Apply(s, LogWrite(p, b)).None?
  {
    hide DiskInv, CacheOk;
  }

  lemma {:induction false} FullForever(s: State, steps: seq<Step>)
    requires Inv(s) && Full(s) && Crash !in steps && Run(s, steps).Some?
    ensures Full(Run(s, steps).value) && Inv(Run(s, steps).value)
  {
    hide Inv, Full, Apply;
    if steps != [] {
      var n := |steps| - 1;
      FullForever(s, steps[..n]);
      FullStays(Run(s, steps[..n]).value, steps[n]);
      StepInv(Run(s, steps[..n]).value, steps[n]);
    }
  }

  // ---- a commit that can ----

  /** The processes that have a buffer between bget and brelse. */
  ghost function Handles(s: State): set<(int, nat)> {
    set b, p | b in s.cache && p in s.cache[b].users :: (b, p)
  }

  lemma RunOne(s: State, a: Step, t: State)
    requires Apply(s, a) == Some(t)
    ensures Run(s, [a]) == Some(t)
  {
    hide Apply;
    assert [a][..0] == [];
  }

  /** A process that has a buffer locked can release it: with no operation open it has changed nothing. */
  lemma Release(s: State, b: int, p: nat) returns (t: State)
    requires Inv(s) && CommitPhase(s.phase) && Holds(s, p, b)
    ensures Apply(s, Brelse(p, b)) == Some(t) && Inv(t) && t == s.(cache := t.cache) && Handles(t) < Handles(s)
  {
    hide DiskInv;
    assert BufferOk(s, b);
    BrelseInv(s, p, b);
    t := DoBrelse(s, p, b).value;
    assert (b, p) in Handles(s) && (b, p) !in Handles(t);
  }

  lemma Acquire(s: State, b: int, p: nat) returns (t: State)
    requires Inv(s) && CommitPhase(s.phase) && b in s.cache && p in s.cache[b].users && s.cache[b].holder.None?
    ensures Apply(s, Lock(p, b)) == Some(t) && Inv(t) && t == s.(cache := t.cache) && Handles(t) == Handles(s)
            && Holds(t, p, b)
  {
    hide DiskInv;
    assert BufferOk(s, b);
    LockInv(s, p, b);
    t := DoLock(s, p, b).value;
  }

  /** All processes can release the buffers they have. */
  lemma DropAll(s: State) returns (steps: seq<Step>, t: State)
    requires Inv(s) && CommitPhase(s.phase)
    ensures Crash !in steps && Run(s, steps) == Some(t)
    ensures Inv(t) && t == s.(cache := t.cache) && Handles(t) == {}
    decreases Handles(s), 1
  {
    hide Inv, Apply, Run;
    if Handles(s) == {} {
      steps, t := [], s;
      RunNone(s);
    } else {
      var h := SomeElement(Handles(s));
      var b, p := h.0, h.1;
      if s.cache[b].holder.Some? {
        steps, t := DropOne(s, b, s.cache[b].holder.value);
      } else {
        var u := Acquire(s, b, p);
        RunOne(s, Lock(p, b), u);
        var rest;
        rest, t := DropOne(u, b, p);
        RunConcat(s, [Lock(p, b)], rest);
        steps := [Lock(p, b)] + rest;
      }
    }
  }

  lemma DropOne(s: State, b: int, p: nat) returns (steps: seq<Step>, t: State)
    requires Inv(s) && CommitPhase(s.phase) && Holds(s, p, b)
    ensures Crash !in steps && Run(s, steps) == Some(t)
    ensures Inv(t) && t == s.(cache := t.cache) && Handles(t) == {}
    decreases Handles(s), 0
  {
    hide Inv, Apply, Run;
    var u := Release(s, b, p);
    RunOne(s, Brelse(p, b), u);
    var rest;
    rest, t := DropAll(u);
    RunConcat(s, [Brelse(p, b)], rest);
    steps := [Brelse(p, b)] + rest;
  }

  lemma RunNone(s: State)
    ensures Run(s, []) == Some(s)
  {
  }

  /** Nobody has a buffer, and the cache holds only what the log pins. */
  ghost predicate Quiet(s: State) {
    forall b :: b in s.cache ==> s.cache[b].users == {} && s.cache[b].holder.None? && Pinned(s.phase, s.lh, b)
  }

  /** A buffer that nobody has and the log does not pin can be recycled. */
  lemma EvictOne(s: State, b: int) returns (t: State)
    requires Inv(s) && Handles(s) == {} && b in s.cache && !Pinned(s.phase, s.lh, b)
    ensures Apply(s, Evict(b)) == Some(t) && Inv(t) && t == s.(cache := t.cache) && Handles(t) == {}
            && t.cache.Keys == s.cache.Keys - {b}
  {
    hide DiskInv;
    assert BufferOk(s, b);
    NoUsers(s, b);
    EvictInv(s, b);
    t := DoEvict(s, b).value;
    assert Handles(t) <= Handles(s);
  }

  lemma NoUsers(s: State, b: int)
    requires Handles(s) == {} && b in s.cache
    ensures s.cache[b].users == {}
  {
    assert forall p :: p in s.cache[b].users ==> (b, p) in Handles(s);
  }

  lemma EvictIdle(s: State) returns (steps: seq<Step>, t: State)
    requires Inv(s) && Handles(s) == {}
    ensures Crash !in steps && Run(s, steps) == Some(t)
    ensures Inv(t) && t == s.(cache := t.cache) && Quiet(t)
    decreases s.cache.Keys
  {
    hide Inv, Apply, Run, Handles, Pinned;
    if b :| b in s.cache && !Pinned(s.phase, s.lh, b) {
      var u := EvictOne(s, b);
      RunOne(s, Evict(b), u);
      var rest;
      rest, t := EvictIdle(u);
      RunConcat(s, [Evict(b)], rest);
      steps := [Evict(b)] + rest;
    } else {
      steps, t := [], s;
      RunNone(s);
      forall b | b in s.cache ensures s.cache[b].users == {} && s.cache[b].holder.None? { IdleBuffer(s, b); }
    }
  }

  lemma IdleBuffer(s: State, b: int)
    requires Inv(s) && Handles(s) == {} && b in s.cache
    ensures s.cache[b].users == {} && s.cache[b].holder.None?
  {
    hide DiskInv;
    NoUsers(s, b);
    assert BufferOk(s, b);
  }

  /** A quiet cache holds at most the blocks still to be installed. */
  lemma QuietSize(s: State)
    requires Inv(s) && Quiet(s) && FirstPinned(s.phase) <= |s.lh|
    ensures |s.cache| <= |s.lh| - FirstPinned(s.phase)
    ensures forall b :: b in s.cache ==> s.L.Home(b)
  {
    hide DiskInv;
    var rest := s.lh[FirstPinned(s.phase)..];
    ElementCount(rest);
    forall b | b in s.cache.Keys ensures b in Elements(rest) {
      var i :| FirstPinned(s.phase) <= i < |s.lh| && s.lh[i] == b;
      assert rest[i - FirstPinned(s.phase)] == b;
    }
    SubsetSize(s.cache.Keys, Elements(rest));
  }

  function CommitRank(s: State): nat {
    match s.phase
    case WriteLog(k) => if k <= |s.lh| then 100 + |s.lh| - k else 100
    case WriteHead => 99
    case Installing(k) => if k <= |s.lh| then 3 + |s.lh| - k else 3
    case ClearHead => 2
    case Finishing => 1
    case _ => 0
  }

  lemma PhaseBounds(s: State)
    requires Inv(s) && CommitPhase(s.phase)
    ensures (s.phase.WriteLog? || s.phase.Installing?) ==> s.phase.k <= |s.lh|
    ensures (s.phase.ClearHead? || s.phase.Finishing?) ==> s.lh == []
    ensures forall i :: 0 <= i < |s.lh| ==> Pinned(s.phase, s.lh, s.lh[i]) || i < FirstPinned(s.phase)
    ensures forall b :: Pinned(s.phase, s.lh, b) ==> b in s.cache
    ensures forall b :: b in s.lh ==> 0 <= b < |s.current|
  {
    hide RecoversTo, DiskCurrent, Replay;
  }

  /** Reading and overwriting a block is possible with a buffer to spare. */
  lemma CopySome(s: State, from: int, to: int)
    requires 0 <= from < |s.disk| && 0 <= to < |s.disk| && |s.cache| <= NBUF && from != to
    requires from in s.cache || to in s.cache
    requires from !in s.cache || to !in s.cache ==> |s.cache| < NBUF
    requires Unheld(s.cache, from) && Unheld(s.cache, to)
    ensures CopyBlock(s, from, to).Some?
    ensures var t := CopyBlock(s, from, to).value; t == s.(cache := t.cache, disk := t.disk)
  {
    var c := Touch(s.cache, s.disk, from);
    assert c.Keys == s.cache.Keys + {from};
    if from in s.cache { assert c.Keys == s.cache.Keys; }
  }

  lemma HeaderSome(s: State, blocks: seq<int>)
    requires |blocks| <= LOGSIZE && s.L.start < |s.disk| && Room(s.cache, s.L.start) && Unheld(s.cache, s.L.start)
    ensures PutHeader(s, blocks).Some?
    ensures var t := PutHeader(s, blocks).value; t == s.(cache := t.cache, disk := t.disk)
  {
  }

  /** With a quiet cache the committing process can take its next step. */
  lemma CommitRuns(s: State) returns (t: State)
    requires Inv(s) && CommitPhase(s.phase) && Quiet(s) && !Full(s)
    ensures DoCommit(s) == Some(t)
    ensures t.current == s.current && !Full(t) && CommitRank(t) < CommitRank(s)
            && (t.phase == Running || CommitPhase(t.phase))
  {
    hide Inv, CopyBlock, PutHeader, Replay, Pinned, Unpin, DiskInv, OpsOk;
    Parts(s);
    PhaseBounds(s);
    QuietSize(s);
    match s.phase {
      case WriteLog(k) =>
        if k < |s.lh| {
          assert Pinned(s.phase, s.lh, s.lh[k]);
          CopySome(s, s.lh[k], s.L.start + 1 + k);
        }
      case WriteHead => HeaderSome(s, s.lh);
      case Installing(k) =>
        if k < |s.lh| {
          assert Pinned(s.phase, s.lh, s.lh[k]);
          assert !s.L.Home(s.L.start + 1 + k);
          CopySome(s, s.L.start + 1 + k, s.lh[k]);
        }
      case ClearHead => HeaderSome(s, []);
      case Finishing =>
    }
    t := DoCommit(s).value;
  }

  /** From every state of a commit that is not full, some continuation without a crash finishes it. */
  lemma CommitFinishes(s: State) returns (steps: seq<Step>, t: State)
    requires Inv(s) && CommitPhase(s.phase) && !Full(s)
    ensures Crash !in steps && Run(s, steps) == Some(t) && Inv(t)
    ensures t.phase == Running && t.current == s.current
    decreases CommitRank(s)
  {
    hide Inv, Apply, Run, Full, Quiet, Handles, CommitRank;
    var drop, a := DropAll(s);
    SameShape(s, a);
    var evict, b := EvictIdle(a);
    SameShape(a, b);
    var c := CommitRuns(b);
    ApplyCommit(b);
    StepInv(b, Commit);
    RunOne(b, Commit, c);
    RunConcat(s, drop, evict);
    RunConcat(s, drop + evict, [Commit]);
    steps, t := drop + evict + [Commit], c;
    if c.phase != Running {
      var rest;
      rest, t := CommitFinishes(c);
      RunConcat(s, drop + evict + [Commit], rest);
      steps := drop + evict + [Commit] + rest;
    }
  }

  lemma ApplyCommit(s: State)
    ensures Apply(s, Commit) == DoCommit(s)
  {
  }

  lemma SameShape(s: State, t: State)
    requires t == s.(cache := t.cache)
    ensures Full(t) == Full(s) && CommitRank(t) == CommitRank(s) && t.phase == s.phase && t.current == s.current
  {
  }

  /** A continuation without a crash brings the machine back to Running. */
  ghost predicate CanFinish(s: State) {
    exists steps :: Crash !in steps && Run(s, steps).Some? && Run(s, steps).value.phase == Running
  }

  /** A commit can finish if and only if its transaction does not pin every buffer before
      installation has begun. */
  lemma CommitCompletes(s: State)
    requires Inv(s) && CommitPhase(s.phase)
    ensures CanFinish(s) <==> !Full(s)
  {
    hide Inv, Run;
    if Full(s) {
      forall steps | Crash !in steps && Run(s, steps).Some? ensures Run(s, steps).value.phase != Running {
        FullForever(s, steps);
      }
    } else {
      var steps, t := CommitFinishes(s);
    }
  }

  /** For every log of more than LOGSIZE blocks some in-budget run ends in a commit that cannot finish. */
  lemma FullReached(L: Layout) returns (steps: seq<Step>, s: State)
    requires L.Valid() && L.start + L.size + LOGSIZE <= L.nblocks && L.size > LOGSIZE
    ensures DiskOk(L, Blank(L)) && BudgetRun(Boot(L, Blank(L)), steps) && Run(Boot(L, Blank(L)), steps) == Some(s)
    ensures CommitPhase(s.phase) && !CanFinish(s) && DoCommit(s).None?
  {
    hide Filled, Run, BudgetRun, Boot, Inv, Apply, CanFinish, InBudget, ThreeOpen;
    BlankOk(L);
    var s0 := Boot(L, Blank(L));
    var most, t := FillUpTo(L, LOGSIZE - 1);
    var more, u := FillOne(s0, L, most, t, LOGSIZE - 1);
    FilledOpen(u, L, LOGSIZE);
    steps, s := EndRun(s0, more, u);
    RunInv(L, Blank(L), steps);
    CommitCompletes(s);
    FullCommits(s);
  }

  /** Operations 0 to 2 are open, have logged what they changed, and are all there are. */
  ghost predicate ThreeOpen(s: State) {
    && s.phase == Running && !s.committing && s.outstanding == 3 && |s.ops| == NPROC && s.lh != []
    && (forall p :: 0 <= p < 3 ==> s.ops[p].Some?) && InBudget(s)
    && (forall b :: b in s.cache ==> !s.cache[b].dirty)
  }

  lemma EndAll(s: State) returns (a: State, b: State, c: State)
    requires ThreeOpen(s)
    ensures Apply(s, EndOp(0)) == Some(a) && Apply(a, EndOp(1)) == Some(b) && Apply(b, EndOp(2)) == Some(c)
    ensures InBudget(a) && InBudget(b) && InBudget(c)
    ensures c.phase == WriteLog(0) && c.lh == s.lh && c.cache == s.cache && c.L == s.L
  {
    a := DoEndOp(s, 0).value;
    b := DoEndOp(a, 1).value;
    c := DoEndOp(b, 2).value;
  }

  lemma FilledOpen(s: State, L: Layout, i: nat)
    requires Filled(s, L, i) && i > 0
    ensures ThreeOpen(s) && |s.lh| == i
  {
  }

  lemma EndRun(s0: State, more: seq<Step>, u: State) returns (steps: seq<Step>, s: State)
    requires BudgetRun(s0, more) && Run(s0, more) == Some(u) && ThreeOpen(u)
    ensures BudgetRun(s0, steps) && Run(s0, steps) == Some(s)
    ensures s.phase == WriteLog(0) && s.lh == u.lh && s.cache == u.cache && s.L == u.L
  {
    hide Run, BudgetRun, Apply, InBudget, ThreeOpen;
    var a, b, c := EndAll(u);
    OneMore(s0, more, EndOp(0));
    TwoMore(s0, more + [EndOp(0)], a, EndOp(1), b, EndOp(2), c);
    steps, s := more + [EndOp(0)] + [EndOp(1)] + [EndOp(2)], c;
  }

  // ---- the panic ----

  /** bget's panic: block b is not cached and every buffer has a user or a pin. */
  predicate NoBuffers(c: map<int, Entry>, b: int) {
    b !in c && |c| == NBUF && forall x :: x in c ==> c[x].refcnt >= 1
  }

  /** The block of the log that the committing process reads next, if it has something to write. */
  function NextRead(s: State): Option<int> {
    match s.phase
    case WriteLog(k) => if k < |s.lh| then Some(s.L.start + 1 + k) else None
    case WriteHead => Some(s.L.start)
    case Installing(k) => if k < |s.lh| then Some(s.L.start + 1 + k) else None
    case ClearHead => Some(s.L.start)
    case _ => None
  }

  predicate Panics(s: State) { NextRead(s).Some? && NoBuffers(s.cache, NextRead(s).value) }

  /** The next bread of a commit finds no buffer if and only if all are in use: nobody but the
      log has a block of the log, and the log has none between its writes. */
  lemma PanicExact(s: State)
    requires Inv(s) && CommitPhase(s.phase) && NextRead(s).Some?
    ensures Panics(s) <==> |s.cache| == NBUF && forall b :: b in s.cache ==> s.cache[b].refcnt >= 1
  {
    hide DiskInv, OpsOk;
    var b := NextRead(s).value;
    Parts(s);
    PhaseBounds(s);
    LogBlockOf(s);
    if b in s.cache { assert BufferOk(s, b); }
  }

  lemma LogBlockOf(s: State)
    requires Inv(s) && CommitPhase(s.phase) && NextRead(s).Some?
    ensures s.L.InLog(NextRead(s).value) && 0 <= NextRead(s).value < |s.disk| && !s.L.Home(NextRead(s).value)
    ensures !Pinned(s.phase, s.lh, NextRead(s).value)
  {
    hide DiskInv, OpsOk, CacheOk;
  }

  /** The home block that goes with it is locked by a process that reads it. */
  predicate Waits(s: State) {
    (s.phase.WriteLog? || s.phase.Installing?) && s.phase.k < |s.lh|
    && s.lh[s.phase.k] in s.cache && s.cache[s.lh[s.phase.k]].holder.Some?
  }

  /** The committing process can take its next step, perhaps recycling a buffer for it. */
  ghost predicate Goes(s: State) {
    DoCommit(s).Some? || exists x :: DoEvict(s, x).Some? && DoCommit(DoEvict(s, x).value).Some?
  }

  /** In every state of a commit the committing process panics, waits for a lock or takes a step. */
  lemma CommitOutcome(s: State)
    requires Inv(s) && CommitPhase(s.phase)
    ensures Goes(s) <==> !Panics(s) && !Waits(s)
  {
    hide Inv, Panics, Waits, DoCommit, DoEvict;
    if Panics(s) {
      PanicStops(s);
      forall x ensures DoEvict(s, x).None? { PanicKeeps(s, x); }
    } else if Waits(s) {
      WaitStops(s);
      forall x | DoEvict(s, x).Some? ensures DoCommit(DoEvict(s, x).value).None? {
        WaitKeeps(s, x);
        WaitStops(DoEvict(s, x).value);
      }
    } else if NextRead(s).None? || Room(s.cache, NextRead(s).value) {
      RoomGoes(s);
    } else {
      var x := Recyclable(s);
      var t := DoEvict(s, x).value;
      RoomGoes(t);
    }
  }

  lemma PanicKeeps(s: State, x: int)
    requires Panics(s)
    ensures DoEvict(s, x).None?
  {
  }

  lemma WaitStops(s: State)
    requires Waits(s)
    ensures DoCommit(s).None?
  {
    hide Unpin;
  }

  /** The block waited for has a user, so its buffer is not recycled. */
  lemma WaitKeeps(s: State, x: int)
    requires Inv(s) && Waits(s) && DoEvict(s, x).Some?
    ensures Waits(DoEvict(s, x).value)
  {
    hide DiskInv, OpsOk;
    assert BufferOk(s, s.lh[s.phase.k]);
  }

  lemma Recyclable(s: State) returns (x: int)
    requires Inv(s) && CommitPhase(s.phase) && !Panics(s) && !Waits(s)
    requires NextRead(s).Some? && !Room(s.cache, NextRead(s).value)
    ensures DoEvict(s, x).Some?
    ensures var t := DoEvict(s, x).value;
            && Inv(t) && CommitPhase(t.phase) && !Waits(t)
            && NextRead(t) == NextRead(s) && Room(t.cache, NextRead(t).value)
  {
    hide DiskInv, OpsOk;
    x :| x in s.cache && s.cache[x].refcnt < 1;
    assert BufferOk(s, x);
    EvictInv(s, x);
    assert (s.cache - {x}).Keys == s.cache.Keys - {x};
  }

  /** With room for the log block and the home block unlocked, the step is taken. */
  lemma RoomGoes(s: State)
    requires Inv(s) && CommitPhase(s.phase) && !Waits(s)
    requires NextRead(s).Some? ==> Room(s.cache, NextRead(s).value)
    ensures DoCommit(s).Some?
  {
    hide Inv, CopyBlock, PutHeader, Replay, Pinned, Unpin, DiskInv, OpsOk;
    Parts(s);
    PhaseBounds(s);
    if NextRead(s).Some? {
      var b := NextRead(s).value;
      LogBlockOf(s);
      LogUnheld(s, b);
      match s.phase {
        case WriteLog(k) =>
          assert Pinned(s.phase, s.lh, s.lh[k]);
          CopySome(s, s.lh[k], b);
        case WriteHead => HeaderSome(s, s.lh);
        case Installing(k) =>
          assert Pinned(s.phase, s.lh, s.lh[k]);
          CopySome(s, b, s.lh[k]);
        case ClearHead => HeaderSome(s, []);
      }
    }
  }

  lemma LogUnheld(s: State, b: int)
    requires Inv(s) && !s.L.Home(b)
    ensures Unheld(s.cache, b)
  {
    hide DiskInv, OpsOk;
    if b in s.cache { assert BufferOk(s, b); }
  }

  /** With 29 blocks logged and one more in use by a process outside any operation, the commit
      panics, on the image of mkfs as on any larger log: 29 is fewer than NBUF, and had that
      process let go of its buffer, the commit would have finished. */
  lemma BusyReached(L: Layout) returns (steps: seq<Step>, s: State)
    requires L.Valid() && L.start + L.size + LOGSIZE <= L.nblocks && L.size >= LOGSIZE
    ensures DiskOk(L, Blank(L)) && BudgetRun(Boot(L, Blank(L)), steps) && Run(Boot(L, Blank(L)), steps) == Some(s)
    ensures s.phase == WriteLog(0) && |s.lh| == LOGSIZE - 1 < NBUF
    ensures Panics(s) && DoCommit(s).None? && CanFinish(s)
  {
    hide Filled, Run, BudgetRun, Boot, Inv, Apply, CanFinish, InBudget, ThreeOpen, Panics, DoCommit;
    BlankOk(L);
    var s0 := Boot(L, Blank(L));
    var most, t := FillUpTo(L, LOGSIZE - 1);
    RunOfBudget(s0, most);
    RunInv(L, Blank(L), most);
    var b, junk: Block := L.start + L.size + LOGSIZE - 1, seq(BWORDS, _ => 0);
    var u := ReadOutside(t, L, b, junk);
    OneMore(s0, most, Bget(3, b, junk));
    steps, s := EndRun(s0, most + [Bget(3, b, junk)], u);
    RunInv(L, Blank(L), steps);
    PanicExact(s);
    PanicStops(s);
    CommitCompletes(s);
  }

  /** fileread calls readi, and so bread, outside any operation. */
  lemma ReadOutside(s: State, L: Layout, b: int, junk: Block) returns (u: State)
    requires Inv(s) && Filled(s, L, LOGSIZE - 1) && L.Valid() && L.start + L.size + LOGSIZE <= L.nblocks
    requires b == L.start + L.size + LOGSIZE - 1
    ensures Apply(s, Bget(3, b, junk)) == Some(u) && InBudget(u) && ThreeOpen(u)
    ensures u.lh == s.lh && |u.lh| == LOGSIZE - 1
    ensures |u.cache| == NBUF && forall x :: x in u.cache ==> u.cache[x].refcnt >= 1
  {
    hide Inv;
    FilledOpen(s, L, LOGSIZE - 1);
    FilledCache(s, L, LOGSIZE - 1);
    u := DoBget(s, 3, b, junk).value;
    assert u.cache.Keys == s.cache.Keys + {b};
  }

  lemma FilledCache(s: State, L: Layout, i: nat)
    requires Inv(s) && Filled(s, L, i)
    ensures |s.cache| == i && s.cache.Keys == Elements(s.lh)
    ensures forall x :: x in s.cache ==> s.cache[x].refcnt >= 1
  {
    hide DiskInv, OpsOk, InBudget;
    ElementCount(s.lh);
    forall b | b in s.lh ensures b in s.cache { PinnedAll(s.phase, s.lh, b); }
    SubsetSize(Elements(s.lh), s.cache.Keys);
    forall x | x in s.cache ensures s.cache[x].refcnt >= 1 {
      assert BufferOk(s, x) && x in Elements(s.lh);
      PinnedAll(s.phase, s.lh, x);
    }
  }

  lemma PanicStops(s: State)
    requires Inv(s) && CommitPhase(s.phase) && Panics(s)
    ensures DoCommit(s).None?
  {
    hide CopyBlock, PutHeader, DoCommit, Inv;
    CommitNext(s);
    var b := NextRead(s).value;
    match s.phase {
      case WriteLog(k) => CopyNone(s, s.lh[k], b);
      case WriteHead => HeaderNone(s, s.lh);
      case Installing(k) => CopyNone(s, b, s.lh[k]);
      case ClearHead => HeaderNone(s, []);
    }
  }
}
