/** Operations are atomic. */
module LogOps {
  import opened Basics
  import opened Wal
  import opened LogMachine
  import opened LogProofs
  import opened LogTheorems

  /** Between transactions what the operations have written is what is committed. */
  lemma RestIsCommitted(s: State)
    requires Inv(s) && s.phase == Running && s.lh == []
    ensures SameHome(s.L, s.current, Committed(s)) && SameHome(s.L, s.disk, s.current)
  {
    hide Inv;
    Parts(s);
    InvCrashSafe(s);
    assert forall b :: !Pinned(s.phase, s.lh, b);
  }

  /** The blocks that the open operation of process p has given to log_write. */
  function Mine(steps: seq<Step>, p: nat): set<int> {
    if steps == [] then {}
    else
      var a, before := steps[|steps| - 1], Mine(steps[..|steps| - 1], p);
      if a == Crash || a == BeginOp(p) then {} else if a.LogWrite? && a.p == p then before + {a.b} else before
  }

  /** While operations run the log only grows. */
  lemma RunningGrows(s: State, a: Step)
    requires s.phase == Running && a != Crash && Apply(s, a).Some?
    ensures s.lh <= Apply(s, a).value.lh
    ensures a.LogWrite? ==> a.b in Apply(s, a).value.lh
  {
  }

  /** Only begin_op opens an operation. */
  lemma StillOpen(s: State, a: Step, p: nat)
    requires Apply(s, a).Some? && InOp(Apply(s, a).value.ops, p) && a != BeginOp(p)
    ensures a != Crash && InOp(s.ops, p)
  {
  }

  lemma OpenRuns(s: State, p: nat)
    requires Inv(s) && InOp(s.ops, p)
    ensures s.phase == Running
  {
    hide DiskInv, CacheOk;
  }

  /** All blocks that an open operation has logged are in the log. */
  lemma {:induction false} MineLogged(L: Layout, d: Disk, steps: seq<Step>, p: nat)
    requires DiskOk(L, d) && Run(Boot(L, d), steps).Some? && InOp(Run(Boot(L, d), steps).value.ops, p)
    ensures Mine(steps, p) <= Elements(Run(Boot(L, d), steps).value.lh)
  {
    hide Apply, Inv;
    if steps != [] {
      var before, a := steps[..|steps| - 1], steps[|steps| - 1];
      var s := Run(Boot(L, d), before).value;
      var t := Run(Boot(L, d), steps).value;
      if a != BeginOp(p) {
        StillOpen(s, a, p);
        MineLogged(L, d, before, p);
        RunInv(L, d, before);
        OpenRuns(s, p);
        RunningGrows(s, a);
        assert Elements(s.lh) <= Elements(t.lh);
      }
    }
  }

  /** The header of the transaction that is being collected has not been written. */
  predicate Collecting(ph: Phase) { ph.Running? || ph.WriteLog? || ph.WriteHead? }

  /** m waits in the log as a whole. */
  ghost predicate Waiting(s: State, m: set<int>) { Collecting(s.phase) && m <= Elements(s.lh) }

  lemma TxnsGrow(s: State, a: Step)
    requires Apply(s, a).Some?
    ensures s.txns <= Apply(s, a).value.txns
  {
    hide Replay;
  }

  lemma CommitWaiting(s: State, m: set<int>)
    requires Waiting(s, m) && DoCommit(s).Some?
    ensures var t := DoCommit(s).value;
            (t.txns == s.txns && Waiting(t, m)) || (|t.txns| == |s.txns| + 1 && m <= t.txns[|s.txns|].Keys)
  {
    hide CopyBlock, PutHeader;
    if s.phase.WriteHead? {
      HeaderTxns(s, s.lh);
      assert forall b :: b in m ==> b in s.lh;
    } else if s.phase.WriteLog? && s.phase.k < |s.lh| {
      CopyKeeps(s, s.lh[s.phase.k], s.L.start + 1 + s.phase.k);
    }
  }

  lemma HeaderTxns(s: State, blocks: seq<int>)
    requires PutHeader(s, blocks).Some?
    ensures PutHeader(s, blocks).value.txns == s.txns
  {
  }

  lemma CopyKeeps(s: State, from: int, to: int)
    requires CopyBlock(s, from, to).Some?
    ensures CopyBlock(s, from, to).value.txns == s.txns && CopyBlock(s, from, to).value.lh == s.lh
  {
  }

  lemma OtherWaiting(s: State, a: Step, m: set<int>)
    requires Waiting(s, m) && m != {} && a != Crash && a != Commit && Apply(s, a).Some?
    ensures var t := Apply(s, a).value; t.txns == s.txns && Waiting(t, m)
  {
    var t := Apply(s, a).value;
    assert s.lh <= t.lh;
    assert Elements(s.lh) <= Elements(t.lh);
    assert s.lh != [] by { assert Elements(s.lh) != {}; }
  }

  /** What waits together is committed together: it is still in the log as a whole, or all of it is
      in the next transaction. */
  lemma {:induction false} Together(s: State, steps: seq<Step>, m: set<int>)
    requires Waiting(s, m) && m != {} && Crash !in steps && Run(s, steps).Some?
    ensures var t := Run(s, steps).value;
            && s.txns <= t.txns
            && ((t.txns == s.txns && Waiting(t, m)) || (|t.txns| > |s.txns| && m <= t.txns[|s.txns|].Keys))
  {
    hide Apply, Waiting;
    if steps != [] {
      var n := |steps| - 1;
      Together(s, steps[..n], m);
      var u := Run(s, steps[..n]).value;
      var t := Run(s, steps).value;
      TxnsGrow(u, steps[n]);
      if u.txns == s.txns {
        if steps[n] == Commit {
          IsCommit(u);
          CommitWaiting(u, m);
        } else {
          OtherWaiting(u, steps[n], m);
        }
      }
    }
  }

  lemma IsCommit(s: State)
    ensures Apply(s, Commit) == DoCommit(s)
  {
  }

  /** Atomicity of an operation: take any run up to a point where an operation is open, and any
      continuation without a crash.  Either nothing the operation logged is in a transaction
      yet and all of it is in the log, or all of it is in one and the same transaction. */
  lemma OperationAtomic(L: Layout, d: Disk, steps: seq<Step>, p: nat, more: seq<Step>)
    requires DiskOk(L, d) && Run(Boot(L, d), steps).Some? && InOp(Run(Boot(L, d), steps).value.ops, p)
    requires Crash !in more && Run(Run(Boot(L, d), steps).value, more).Some? && Mine(steps, p) != {}
    ensures var s := Run(Boot(L, d), steps).value;
            var t := Run(s, more).value;
            && s.txns <= t.txns
            && ((t.txns == s.txns && Mine(steps, p) <= Elements(t.lh))
                || (|t.txns| > |s.txns| && Mine(steps, p) <= t.txns[|s.txns|].Keys))
  {
    hide Run, Apply, Inv;
    var s := Run(Boot(L, d), steps).value;
    MineLogged(L, d, steps, p);
    RunInv(L, d, steps);
    OpenRuns(s, p);
    Together(s, more, Mine(steps, p));
  }
}
