/** What the log machine holds, told by the history of a run alone: by which process changed what,
    which blocks were given to log_write, and how far commits came. */
module LogHistory {
  import opened Basics
  import opened Wal
  import opened LogMachine
  import opened LogProofs
  import opened LogTheorems
  import opened LogOps

  // ---- reading the history ----

  /** What the last process to change b since the last crash made of it. */
  function LastModify(steps: seq<Step>, b: int): Option<Block> {
    if steps == [] then None
    else
      var a := steps[|steps| - 1];
      if a == Crash then None
      else if a.Modify? && a.b == b then Some(a.data)
      else LastModify(steps[..|steps| - 1], b)
  }

  /** The change that the last log_write of b since the last crash was for. */
  function LastLogged(steps: seq<Step>, b: int): Option<Block> {
    if steps == [] then None
    else
      var a, before := steps[|steps| - 1], steps[..|steps| - 1];
      if a == Crash then None
      else if a.LogWrite? && a.b == b then LastModify(before, b)
      else LastLogged(before, b)
  }

  /** The operations that have begun and not ended. */
  function OpenOps(steps: seq<Step>): int {
    if steps == [] then 0
    else
      var a, before := steps[|steps| - 1], OpenOps(steps[..|steps| - 1]);
      if a == Crash then 0 else if a.BeginOp? then before + 1 else if a.EndOp? then before - 1 else before
  }

  /** The blocks given to log_write since an operation began with no other open: those that are
      committed together. */
  function Group(steps: seq<Step>): set<int> {
    if steps == [] then {}
    else
      var a, before := steps[|steps| - 1], steps[..|steps| - 1];
      if a == Crash || (a.BeginOp? && OpenOps(before) == 0) then {}
      else if a.LogWrite? then Group(before) + {a.b}
      else Group(before)
  }

  /** The steps of the commit code since the last end_op. */
  function Commits(steps: seq<Step>): nat {
    if steps == [] then 0
    else
      var a, before := steps[|steps| - 1], steps[..|steps| - 1];
      if a == Crash || a.EndOp? then 0 else if a == Commit then Commits(before) + 1 else Commits(before)
  }

  /** The last step is the header write of a commit of n blocks: it comes after n log blocks and
      the end of write_log's loop. */
  predicate HeaderWrite(steps: seq<Step>) {
    steps != [] && steps[|steps| - 1] == Commit
    && var before := steps[..|steps| - 1];
       Group(before) != {} && Commits(before) == |Group(before)| + 1
  }

  /** The transactions that the history has committed, oldest first: at each header write, the
      blocks of the group with what they then held. */
  ghost function Transactions(L: Layout, d: Disk, steps: seq<Step>): seq<map<int, Block>>
    requires DiskOk(L, d)
    decreases |steps|, 0
  {
    if steps == [] then []
    else
      var before := steps[..|steps| - 1];
      Transactions(L, d, before)
      + if HeaderWrite(steps) then [Collected(L, d, before)] else []
  }

  /** The blocks of the group that is being collected, with what they hold. */
  ghost function Collected(L: Layout, d: Disk, steps: seq<Step>): map<int, Block>
    requires DiskOk(L, d)
    decreases |steps|, 3
  {
    map b | b in Group(steps) && L.Home(b) :: Latest(L, d, steps, b)
  }

  /** What home block b holds for the processes: what was last logged of it since the last crash, or
      else what is committed. */
  ghost function Latest(L: Layout, d: Disk, steps: seq<Step>, b: int): Block
    requires DiskOk(L, d) && L.Home(b)
    decreases |steps|, 2
  {
    match LastLogged(steps, b)
    case Some(x) => x
    case None => Saved(L, d, steps, b)
  }

  /** What a crash now would leave in home block b. */
  ghost function Saved(L: Layout, d: Disk, steps: seq<Step>, b: int): Block
    requires DiskOk(L, d) && L.Home(b)
    decreases |steps|, 1
  {
    Replay(Recovered(L, d), Transactions(L, d, steps))[b]
  }

  // ---- one block ----

  predicate Dirty(s: State, b: int) { b in s.cache && s.cache[b].dirty }

  /** What the history says of block b is so. */
  ghost predicate BlockTold(steps: seq<Step>, s: State, b: int)
    requires 0 <= b < |s.current| && b < |s.base|
  {
    && s.current[b] == (match LastLogged(steps, b) case Some(x) => x case None => Committed(s)[b])
    && (Dirty(s, b) ==> LastModify(steps, b) == Some(s.cache[b].data))
    && (!Dirty(s, b) && LastModify(steps, b).Some? ==> s.current[b] == LastModify(steps, b).value)
  }

  lemma Cons(steps: seq<Step>, a: Step)
    ensures (steps + [a])[..|steps + [a]| - 1] == steps && (steps + [a])[|steps + [a]| - 1] == a
  {
  }

  /** Nothing was logged that was not changed first. */
  lemma {:induction false} LoggedModified(steps: seq<Step>, b: int)
    ensures LastModify(steps, b).None? ==> LastLogged(steps, b).None?
  {
    if steps != [] { LoggedModified(steps[..|steps| - 1], b); }
  }

  /** Steps that neither change nor log b, and are no crash. */
  predicate Aside(a: Step, b: int) { a != Crash && !(a.Modify? && a.b == b) && !(a.LogWrite? && a.b == b) }

  /** A block that is being changed is held by the process that changes it. */
  lemma DirtyFacts(s: State, b: int)
    requires Inv(s)
    ensures Dirty(s, b) ==> DirtyHeld(s, b) && s.cache[b].refcnt >= 1
    ensures Sized(s)
  {
    hide DiskInv, OpsOk;
    if Dirty(s, b) { assert BufferOk(s, b); }
  }

  /** They leave what b holds alone, and whether and how it is being changed. */
  lemma AsideKeeps(s: State, a: Step, b: int)
    requires Inv(s) && Apply(s, a).Some? && Aside(a, b) && s.L.Home(b)
    ensures var t := Apply(s, a).value;
            && |t.current| == |s.current| && t.current[b] == s.current[b] && t.base == s.base
            && (Dirty(t, b) <==> Dirty(s, b)) && (Dirty(s, b) ==> t.cache[b].data == s.cache[b].data)
  {
    hide Inv, DoCommit, DoRecover, DoBget, DoLock, DoBrelse, DoEvict;
    DirtyFacts(s, b);
    match a {
      case Bget(p, x, junk) => BgetAside(s, p, x, junk, b);
      case Lock(p, x) => LockAside(s, p, x, b);
      case Brelse(p, x) => BrelseAside(s, p, x, b);
      case Evict(x) => EvictAside(s, x, b);
      case Commit => CommitAside(s, b);
      case Recover => RecoverAside(s, b);
      case _ =>
    }
  }

  lemma BgetAside(s: State, p: nat, x: int, junk: Block, b: int)
    requires DoBget(s, p, x, junk).Some?
    ensures var t := DoBget(s, p, x, junk).value;
            && t == s.(cache := t.cache) && (Dirty(t, b) <==> Dirty(s, b))
            && (Dirty(s, b) ==> t.cache[b].data == s.cache[b].data)
  {
  }

  lemma LockAside(s: State, p: nat, x: int, b: int)
    requires DoLock(s, p, x).Some? && (Dirty(s, b) ==> DirtyHeld(s, b))
    ensures var t := DoLock(s, p, x).value;
            && t == s.(cache := t.cache) && (Dirty(t, b) <==> Dirty(s, b))
            && (Dirty(s, b) ==> t.cache[b].data == s.cache[b].data)
  {
  }

  lemma BrelseAside(s: State, p: nat, x: int, b: int)
    requires DoBrelse(s, p, x).Some?
    ensures var t := DoBrelse(s, p, x).value;
            && t == s.(cache := t.cache) && (Dirty(t, b) <==> Dirty(s, b))
            && (Dirty(s, b) ==> t.cache[b].data == s.cache[b].data)
  {
  }

  lemma EvictAside(s: State, x: int, b: int)
    requires DoEvict(s, x).Some? && (Dirty(s, b) ==> s.cache[b].refcnt >= 1)
    ensures var t := DoEvict(s, x).value;
            && t == s.(cache := t.cache) && (Dirty(t, b) <==> Dirty(s, b))
            && (Dirty(s, b) ==> t.cache[b].data == s.cache[b].data)
  {
  }

  lemma CommitAside(s: State, b: int)
    requires DoCommit(s).Some?
    ensures var t := DoCommit(s).value;
            && t.current == s.current && t.base == s.base
            && (Dirty(t, b) <==> Dirty(s, b)) && (Dirty(s, b) && DirtyHeld(s, b) ==> t.cache[b].data == s.cache[b].data)
  {
    hide CopyBlock, PutHeader;
    match s.phase {
      case WriteLog(k) => if k < |s.lh| { CopyAside(s, s.lh[k], s.L.start + 1 + k, b); }
      case WriteHead => HeadAside(s, s.lh, b);
      case Installing(k) => if k < |s.lh| { CopyAside(s, s.L.start + 1 + k, s.lh[k], b); }
      case ClearHead => HeadAside(s, [], b);
      case _ =>
    }
  }

  predicate DirtyHeld(s: State, b: int) { b in s.cache && s.cache[b].holder.Some? && s.cache[b].valid }

  lemma CopyAside(s: State, from: int, to: int, b: int)
    requires CopyBlock(s, from, to).Some?
    ensures var t := CopyBlock(s, from, to).value;
            && t.current == s.current && t.base == s.base
            && (Dirty(t, b) <==> Dirty(s, b)) && (DirtyHeld(s, b) ==> b in t.cache
                                                                      && t.cache[b].data == s.cache[b].data)
  {
  }

  lemma HeadAside(s: State, blocks: seq<int>, b: int)
    requires PutHeader(s, blocks).Some?
    ensures var t := PutHeader(s, blocks).value;
            && t.current == s.current && t.base == s.base
            && (Dirty(t, b) <==> Dirty(s, b)) && (DirtyHeld(s, b) ==> b in t.cache
                                                                      && t.cache[b].data == s.cache[b].data)
  {
  }

  lemma RecoverAside(s: State, b: int)
    requires DoRecover(s).Some?
    ensures var t := DoRecover(s).value;
            && t.current == s.current && t.base == s.base && t.txns == s.txns
            && (Dirty(t, b) <==> Dirty(s, b)) && (DirtyHeld(s, b) ==> b in t.cache
                                                                      && t.cache[b].data == s.cache[b].data)
  {
    hide CopyBlock, PutHeader;
    match s.phase {
      case Redo(k) => if k < |s.lh| { CopyAside(s, s.L.start + 1 + k, s.lh[k], b); RedoTxns(s, k); }
      case RedoClear => HeadAside(s, [], b); HeaderTxns(s, []);
      case _ =>
    }
  }

  lemma RedoTxns(s: State, k: nat)
    requires k < |s.lh| && CopyBlock(s, s.L.start + 1 + k, s.lh[k]).Some?
    ensures CopyBlock(s, s.L.start + 1 + k, s.lh[k]).value.txns == s.txns
  {
  }

  /** Who commits what: the header write adds a transaction of the logged blocks, and nothing else does. */
  lemma TxnsStep(s: State, a: Step)
    requires Apply(s, a).Some?
    ensures var t := Apply(s, a).value;
            if a == Commit && s.phase.WriteHead?
            then (forall b :: b in s.lh ==> 0 <= b < |s.current|)
              && t.txns == s.txns + [map b | b in s.lh :: s.current[b]]
            else t.txns == s.txns
  {
    hide CopyBlock, PutHeader, Replay;
    if a == Commit {
      match s.phase {
        case WriteLog(k) => if k < |s.lh| { CopyKeeps(s, s.lh[k], s.L.start + 1 + k); }
        case WriteHead => HeaderTxns(s, s.lh);
        case Installing(k) => if k < |s.lh| { CopyKeeps(s, s.L.start + 1 + k, s.lh[k]); }
        case ClearHead => HeaderTxns(s, []);
        case _ =>
      }
    } else if a == Recover {
      match s.phase {
        case Redo(k) => if k < |s.lh| { RedoTxns(s, k); }
        case RedoClear => HeaderTxns(s, []);
        case _ =>
      }
    }
  }

  lemma ReplayMore(base: Disk, txns: seq<map<int, Block>>, t: map<int, Block>)
    ensures Replay(base, txns + [t]) == Overwrite(Replay(base, txns), t)
  {
    assert (txns + [t])[..|txns + [t]| - 1] == txns;
  }

  /** A commit changes what is committed of b to what b holds, or not at all. */
  lemma CommittedStep(s: State, a: Step, b: int)
    requires Apply(s, a).Some? && 0 <= b < |s.current| && |s.base| == |s.current| && Apply(s, a).value.base == s.base
    ensures var t := Apply(s, a).value; Committed(t)[b] == Committed(s)[b] || Committed(t)[b] == s.current[b]
    ensures var t := Apply(s, a).value; a != Commit ==> t.txns == s.txns
  {
    hide Apply, Replay;
    TxnsStep(s, a);
    if a == Commit && s.phase.WriteHead? { ReplayMore(s.base, s.txns, map x | x in s.lh :: s.current[x]); }
  }

  lemma AsideTold(steps: seq<Step>, s: State, a: Step, b: int)
    requires Inv(s) && Apply(s, a).Some? && Aside(a, b) && s.L.Home(b) && BlockTold(steps, s, b)
    ensures var t := Apply(s, a).value;
            b < |t.current| && b < |t.base| && BlockTold(steps + [a], t, b)
  {
    hide Apply, Inv, Replay;
    Cons(steps, a);
    DirtyFacts(s, b);
    AsideKeeps(s, a, b);
    CommittedStep(s, a, b);
  }

  lemma ModifyTold(steps: seq<Step>, s: State, p: nat, b: int, x: Block)
    requires Inv(s) && DoModify(s, p, b, x).Some? && s.L.Home(b) && BlockTold(steps, s, b)
    ensures var t := DoModify(s, p, b, x).value;
            b < |t.current| && b < |t.base| && BlockTold(steps + [Modify(p, b, x)], t, b)
  {
    hide Inv, Replay;
    Cons(steps, Modify(p, b, x));
    DirtyFacts(s, b);
  }

  /** What log_write records of b is what was last made of it. */
  lemma LogWriteTold(steps: seq<Step>, s: State, p: nat, b: int)
    requires Inv(s) && DoLogWrite(s, p, b).Some? && s.L.Home(b) && BlockTold(steps, s, b)
    ensures var t := DoLogWrite(s, p, b).value;
            b < |t.current| && b < |t.base| && BlockTold(steps + [LogWrite(p, b)], t, b)
  {
    hide Inv, Replay;
    Cons(steps, LogWrite(p, b));
    DirtyFacts(s, b);
    CleanHolds(s, p, b);
    LoggedModified(steps, b);
  }

  /** A buffer that is held and not being changed holds the latest value. */
  lemma CleanHolds(s: State, p: nat, b: int)
    requires Inv(s) && Holds(s, p, b) && s.L.Home(b)
    ensures 0 <= b < |s.current| && (!Dirty(s, b) ==> s.cache[b].data == s.current[b])
  {
    hide DiskInv, OpsOk;
    assert BufferOk(s, b);
  }

  lemma CrashTold(steps: seq<Step>, s: State, b: int)
    requires Inv(s) && s.L.Home(b)
    ensures var t := DoCrash(s); b < |t.current| && b < |t.base| && BlockTold(steps + [Crash], t, b)
  {
    hide Inv, Replay;
    Cons(steps, Crash);
    DirtyFacts(s, b);
  }

  lemma StepTold(steps: seq<Step>, s: State, a: Step, b: int)
    requires Inv(s) && Apply(s, a).Some? && s.L.Home(b) && b < |s.current| && b < |s.base| && BlockTold(steps, s, b)
    ensures var t := Apply(s, a).value;
            b < |t.current| && b < |t.base| && BlockTold(steps + [a], t, b)
  {
    hide Inv, BlockTold, DoModify, DoLogWrite, DoCrash;
    if Aside(a, b) {
      AsideTold(steps, s, a, b);
    } else if a.Modify? {
      ModifyTold(steps, s, a.p, b, a.data);
    } else if a.LogWrite? {
      LogWriteTold(steps, s, a.p, b);
    } else {
      CrashTold(steps, s, b);
    }
  }

  // ---- how far a commit has come ----

  /** What the history says of operations and commits is so. */
  ghost predicate PhaseTold(steps: seq<Step>, s: State) {
    && s.outstanding == OpenOps(steps)
    && match s.phase
       case Running => if s.outstanding == 0 then s.lh == [] else Elements(s.lh) == Group(steps)
       case WriteLog(k) => Elements(s.lh) == Group(steps) && s.lh != [] && Commits(steps) == k
       case WriteHead => Elements(s.lh) == Group(steps) && s.lh != [] && Commits(steps) == |s.lh| + 1
       case Installing(k) => Elements(s.lh) == Group(steps) && s.lh != [] && Commits(steps) == |s.lh| + 2 + k
       case ClearHead => Commits(steps) >= |Group(steps)| + 3
       case Finishing => Group(steps) == {} || Commits(steps) >= |Group(steps)| + 3
       case _ => true
  }

  lemma LogCount(s: State)
    requires Inv(s)
    ensures |Elements(s.lh)| == |s.lh| && (s.lh == [] <==> Elements(s.lh) == {})
  {
    hide DiskInv, OpsOk, CacheOk;
    ElementCount(s.lh);
    if s.lh != [] { assert s.lh[0] in Elements(s.lh); }
  }

  /** The header write is the step that the history says it is. */
  lemma HeaderExact(steps: seq<Step>, s: State)
    requires Inv(s) && PhaseTold(steps, s) && Apply(s, Commit).Some?
    ensures HeaderWrite(steps + [Commit]) <==> s.phase.WriteHead?
  {
    hide Inv, Elements, Group, Commits, OpenOps;
    Cons(steps, Commit);
    LogCount(s);
    PhaseOf(s);
    CommitNeeds(s);
  }

  lemma CommitNeeds(s: State)
    requires Apply(s, Commit).Some?
    ensures CommitPhase(s.phase)
  {
  }

  lemma PhaseOf(s: State)
    requires Inv(s)
    ensures s.phase.WriteLog? || s.phase.Installing? ==> s.phase.k <= |s.lh|
    ensures s.outstanding >= 0 && (s.phase != Running ==> s.outstanding == 0)
    ensures s.committing <==> CommitPhase(s.phase)
    ensures s.phase.RedoClear? || s.phase.ClearHead? || s.phase.Finishing? ==> s.lh == []
  {
    hide RecoversTo, DiskCurrent, Replay, CacheOk;
    if s.phase != Running { CountNone(s.ops); }
  }

  lemma CommitPhaseTold(steps: seq<Step>, s: State)
    requires Inv(s) && PhaseTold(steps, s) && DoCommit(s).Some?
    ensures PhaseTold(steps + [Commit], DoCommit(s).value)
  {
    hide Inv, Elements, CopyBlock, PutHeader, Unpin;
    Cons(steps, Commit);
    LogCount(s);
    PhaseOf(s);
    match s.phase {
      case WriteLog(k) => if k < |s.lh| { CopyKeeps(s, s.lh[k], s.L.start + 1 + k); CopyOps(s, s.lh[k],
          s.L.start + 1 + k); }
      case WriteHead => HeadOps(s, s.lh);
      case Installing(k) =>
        if k < |s.lh| { CopyKeeps(s, s.L.start + 1 + k, s.lh[k]); CopyOps(s, s.L.start + 1 + k, s.lh[k]); }
      case ClearHead => HeadOps(s, []);
      case _ =>
    }
  }

  lemma CopyOps(s: State, from: int, to: int)
    requires CopyBlock(s, from, to).Some?
    ensures CopyBlock(s, from, to).value.outstanding == s.outstanding
  {
  }

  lemma HeadOps(s: State, blocks: seq<int>)
    requires PutHeader(s, blocks).Some?
    ensures PutHeader(s, blocks).value.outstanding == s.outstanding && PutHeader(s, blocks).value.lh == s.lh
  {
  }

  lemma RecoverTold(steps: seq<Step>, s: State)
    requires Inv(s) && PhaseTold(steps, s) && DoRecover(s).Some?
    ensures PhaseTold(steps + [Recover], DoRecover(s).value)
  {
    hide Inv, Elements, CopyBlock, PutHeader, Group, Commits;
    Cons(steps, Recover);
    PhaseOf(s);
    match s.phase {
      case Redo(k) => if k < |s.lh| { CopyKeeps(s, s.L.start + 1 + k, s.lh[k]); CopyOps(s, s.L.start + 1 + k,
          s.lh[k]); }
      case RedoClear => HeadOps(s, []);
      case _ =>
    }
  }

  lemma BeginTold(steps: seq<Step>, s: State, p: nat)
    requires Inv(s) && PhaseTold(steps, s) && DoBeginOp(s, p).Some?
    ensures PhaseTold(steps + [BeginOp(p)], DoBeginOp(s, p).value)
  {
    hide Inv;
    Cons(steps, BeginOp(p));
    LogCount(s);
    PhaseOf(s);
  }

  lemma EndTold(steps: seq<Step>, s: State, p: nat)
    requires Inv(s) && PhaseTold(steps, s) && DoEndOp(s, p).Some?
    ensures PhaseTold(steps + [EndOp(p)], DoEndOp(s, p).value)
  {
    hide Inv, Elements;
    Cons(steps, EndOp(p));
    LogCount(s);
    PhaseOf(s);
    OpenRuns(s, p);
    OpenCount(s, p);
  }

  lemma OpenCount(s: State, p: nat)
    requires Inv(s) && InOp(s.ops, p)
    ensures s.outstanding >= 1
  {
    hide DiskInv, CacheOk;
    CountOpen(s.ops, p);
  }

  lemma {:induction false} CountOpen(ops: seq<Option<nat>>, p: nat)
    requires p < |ops| && ops[p].Some?
    ensures Count(ops) >= 1
  {
    if p > 0 { CountOpen(ops[1..], p - 1); }
  }

  lemma LogWritePhase(steps: seq<Step>, s: State, p: nat, b: int)
    requires Inv(s) && PhaseTold(steps, s) && DoLogWrite(s, p, b).Some?
    ensures PhaseTold(steps + [LogWrite(p, b)], DoLogWrite(s, p, b).value)
  {
    hide Inv;
    Cons(steps, LogWrite(p, b));
    PhaseOf(s);
    assert Elements(s.lh + [b]) == Elements(s.lh) + {b};
    assert b in s.lh ==> Elements(s.lh) + {b} == Elements(s.lh);
  }

  /** Steps of processes on buffers have no part in it. */
  lemma BufferSteps(steps: seq<Step>, s: State, a: Step)
    requires PhaseTold(steps, s) && Apply(s, a).Some?
    requires a.Bget? || a.Lock? || a.Modify? || a.Brelse? || a.Evict?
    ensures PhaseTold(steps + [a], Apply(s, a).value)
  {
    hide Elements;
    Cons(steps, a);
    var t := Apply(s, a).value;
    assert t == s.(cache := t.cache);
  }

  lemma CrashPhase(steps: seq<Step>, s: State)
    ensures PhaseTold(steps + [Crash], DoCrash(s))
  {
    Cons(steps, Crash);
  }

  lemma PhaseStep(steps: seq<Step>, s: State, a: Step)
    requires Inv(s) && PhaseTold(steps, s) && Apply(s, a).Some?
    ensures PhaseTold(steps + [a], Apply(s, a).value)
  {
    hide Inv, PhaseTold, DoBeginOp, DoEndOp, DoLogWrite, DoCommit, DoRecover, DoCrash, DoBget, DoLock, DoModify,
      DoBrelse,
      DoEvict;
    match a {
      case BeginOp(p) => BeginTold(steps, s, p);
      case EndOp(p) => EndTold(steps, s, p);
      case LogWrite(p, b) => LogWritePhase(steps, s, p, b);
      case Commit => CommitPhaseTold(steps, s);
      case Recover => RecoverTold(steps, s);
      case Crash => CrashPhase(steps, s);
      case _ => BufferSteps(steps, s, a);
    }
  }

  // ---- every run ----

  /** All that the history says is so. */
  ghost predicate Told(L: Layout, d: Disk, steps: seq<Step>, s: State)
    requires DiskOk(L, d)
  {
    && s.txns == Transactions(L, d, steps) && PhaseTold(steps, s)
    && |s.current| == |s.base| == L.nblocks && forall b :: L.Home(b) ==> BlockTold(steps, s, b)
  }

  lemma LatestIs(L: Layout, d: Disk, steps: seq<Step>, s: State, b: int)
    requires DiskOk(L, d) && Told(L, d, steps, s) && s.base == Recovered(L, d) && L.Home(b)
    ensures s.current[b] == Latest(L, d, steps, b) && Committed(s)[b] == Saved(L, d, steps, b)
  {
    hide Replay, LastLogged, Transactions, PhaseTold;
    assert BlockTold(steps, s, b);
  }

  lemma TransactionsMore(L: Layout, d: Disk, steps: seq<Step>, a: Step)
    requires DiskOk(L, d)
    ensures Transactions(L, d, steps + [a]) ==
            if HeaderWrite(steps + [a])
            then Transactions(L, d, steps) + [Collected(L, d, steps)]
            else Transactions(L, d, steps)
  {
    hide HeaderWrite, Latest, Collected;
    Cons(steps, a);
    assert Transactions(L, d, steps) + [] == Transactions(L, d, steps);
  }

  /** Each step commits what the history says. */
  lemma TransactionsStep(L: Layout, d: Disk, steps: seq<Step>, s: State, a: Step)
    requires DiskOk(L, d) && Told(L, d, steps, s) && Inv(s) && s.L == L && s.base == Recovered(L, d)
             && Apply(s, a).Some?
    ensures Apply(s, a).value.txns == Transactions(L, d, steps + [a])
  {
    hide Inv, Apply, Replay, Latest, Transactions, PhaseTold, HeaderWrite, Group, BlockTold;
    TxnsStep(s, a);
    TransactionsMore(L, d, steps, a);
    if a == Commit { HeaderExact(steps, s); } else { NoHeader(steps, a); }
    if a == Commit && s.phase.WriteHead? {
      HeaderGroup(steps, s);
      forall b | b in s.lh ensures L.Home(b) && 0 <= b < |s.current| && s.current[b] == Latest(L, d, steps, b) {
        LoggedHome(s, b);
        LatestIs(L, d, steps, s, b);
      }
      var t := map b | b in s.lh :: s.current[b];
      assert t == Collected(L, d, steps);
    }
  }

  lemma NoHeader(steps: seq<Step>, a: Step)
    requires a != Commit
    ensures !HeaderWrite(steps + [a])
  {
    Cons(steps, a);
  }

  lemma HeaderGroup(steps: seq<Step>, s: State)
    requires PhaseTold(steps, s) && s.phase.WriteHead?
    ensures forall b :: b in Group(steps) <==> b in s.lh
  {
    hide Group;
    forall b ensures b in Group(steps) <==> b in s.lh { assert b in Elements(s.lh) <==> b in s.lh; }
  }

  lemma LoggedHome(s: State, b: int)
    requires Inv(s) && b in s.lh
    ensures s.L.Home(b)
  {
    hide DiskInv, CacheOk, OpsOk;
  }

  lemma BootTold(L: Layout, d: Disk)
    requires DiskOk(L, d)
    ensures Told(L, d, [], Boot(L, d))
  {
  }

  /** In every run, through any interleaving and any crashes, the machine is where the history
      says: the transactions committed, the operations open, and what every block holds. */
  lemma {:induction false} RunTold(L: Layout, d: Disk, steps: seq<Step>)
    requires DiskOk(L, d) && Run(Boot(L, d), steps).Some?
    ensures Told(L, d, steps, Run(Boot(L, d), steps).value)
  {
    hide Inv, Apply, Told, Boot;
    if steps == [] {
      BootTold(L, d);
    } else {
      var before, a := steps[..|steps| - 1], steps[|steps| - 1];
      RunTold(L, d, before);
      RunInv(L, d, before);
      RunInv(L, d, steps);
      assert steps == before + [a];
      ToldStep(L, d, before, Run(Boot(L, d), before).value, a);
    }
  }

  lemma ToldStep(L: Layout, d: Disk, steps: seq<Step>, s: State, a: Step)
    requires DiskOk(L, d) && Told(L, d, steps, s) && Inv(s) && s.L == L && s.base == Recovered(L, d)
             && Apply(s, a).Some?
    requires Inv(Apply(s, a).value) && Apply(s, a).value.L == L && Apply(s, a).value.base == Recovered(L, d)
    ensures Told(L, d, steps + [a], Apply(s, a).value)
  {
    hide Inv, Apply, Transactions, PhaseTold, BlockTold;
    var t := Apply(s, a).value;
    TransactionsStep(L, d, steps, s, a);
    PhaseStep(steps, s, a);
    DirtyFacts(t, 0);
    forall b | L.Home(b) ensures BlockTold(steps + [a], t, b) { StepTold(steps, s, a, b); }
  }

  /** What every home block holds for the processes is what was last made of it and logged, or else
      what is committed; and what is committed is what the transactions say. */
  lemma CurrentExact(L: Layout, d: Disk, steps: seq<Step>, b: int)
    requires DiskOk(L, d) && Run(Boot(L, d), steps).Some? && L.Home(b)
    ensures var s := Run(Boot(L, d), steps).value;
            && |s.current| == L.nblocks && s.current[b] == Latest(L, d, steps, b)
            && s.txns == Transactions(L, d, steps)
  {
    hide Inv, Latest, Saved, Transactions;
    RunTold(L, d, steps);
    RunInv(L, d, steps);
    LatestIs(L, d, steps, Run(Boot(L, d), steps).value, b);
  }

  /** A buffer handed out by bread holds what was last made of the block and logged, or, after a
      crash, what is committed. */
  lemma BreadLatest(L: Layout, d: Disk, steps: seq<Step>, p: nat, b: int)
    requires DiskOk(L, d) && Run(Boot(L, d), steps + [Lock(p, b)]).Some?
    ensures var t := Run(Boot(L, d), steps + [Lock(p, b)]).value;
            L.Home(b) && b in t.cache && t.cache[b].holder == Some(p) && t.cache[b].data == Latest(L, d, steps, b)
  {
    hide Inv, Latest, Boot;
    Cons(steps, Lock(p, b));
    var s := Run(Boot(L, d), steps).value;
    RunInv(L, d, steps);
    LockedLatest(s, p, b);
    CurrentExact(L, d, steps, b);
  }

  lemma LockedLatest(s: State, p: nat, b: int)
    requires Inv(s) && DoLock(s, p, b).Some?
    ensures s.L.Home(b) && 0 <= b < |s.current| && DoLock(s, p, b).value.cache[b].data == s.current[b]
  {
    hide OpsOk;
    assert BufferOk(s, b);
  }

  /** A crash at any point of any run leaves in every home block exactly what the history has
      committed. */
  lemma CrashLeaves(L: Layout, d: Disk, steps: seq<Step>, b: int)
    requires DiskOk(L, d) && Run(Boot(L, d), steps).Some? && L.Home(b)
    ensures var s := Run(Boot(L, d), steps).value;
            DiskOk(L, s.disk) && Recovered(L, s.disk)[b] == Saved(L, d, steps, b)
  {
    hide Inv, Latest, Transactions;
    CrashAtomicity(L, d, steps);
    CurrentExact(L, d, steps, b);
  }

  /** Durability: in every run, when no operation is open and no commit is under way, everything
      that was logged survives a crash. */
  lemma Durable(L: Layout, d: Disk, steps: seq<Step>, b: int)
    requires DiskOk(L, d) && Run(Boot(L, d), steps).Some? && L.Home(b)
    requires OpenOps(steps) == 0 && Run(Boot(L, d), steps).value.phase == Running
    ensures var s := Run(Boot(L, d), steps).value;
            && Saved(L, d, steps, b) == Latest(L, d, steps, b)
            && DiskOk(L, s.disk) && Recovered(L, s.disk)[b] == Latest(L, d, steps, b)
              && s.disk[b] == Latest(L, d, steps, b)
  {
    hide Inv, Latest, Saved, Transactions, OpenOps;
    var s := Run(Boot(L, d), steps).value;
    RunInv(L, d, steps);
    RunTold(L, d, steps);
    RestIsCommitted(s);
    LatestIs(L, d, steps, s, b);
    CrashLeaves(L, d, steps, b);
  }
}
