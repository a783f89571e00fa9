/** What holds in every run of the log machine, from any power-on disk, through
    any interleaving and any number of crashes. */
module LogTheorems {
  import opened Basics
  import opened Wal
  import opened LogMachine
  import opened LogProofs

  lemma {:induction false} RunInv(L: Layout, d: Disk, steps: seq<Step>)
    requires DiskOk(L, d) && Run(Boot(L, d), steps).Some?
    ensures var s := Run(Boot(L, d), steps).value;
            Inv(s) && s.L == L && s.base == Recovered(L, d)
  {
    if steps == [] {
      BootInv(L, d);
    } else {
      RunInv(L, d, steps[..|steps| - 1]);
      var s := Run(Boot(L, d), steps[..|steps| - 1]).value;
      StepInv(s, steps[|steps| - 1]);
      StepConstants(s, steps[|steps| - 1]);
    }
  }

  lemma StepConstants(s: State, a: Step)
    requires Apply(s, a).Some?
    ensures Apply(s, a).value.L == s.L && Apply(s, a).value.base == s.base
  {
  }

  /** The disk holds its committed transactions at rest: no home block changes
      before the header write, and none is left half installed after. */
  predicate AtRest(ph: Phase) {
    ph.Running? || ph.WriteLog? || ph.WriteHead? || ph.ClearHead? || ph.Finishing? || ph.RedoClear?
  }

  lemma InvCrashSafe(s: State)
    requires Inv(s)
    ensures DiskOk(s.L, s.disk) && SameHome(s.L, Recovered(s.L, s.disk), Committed(s))
    ensures AtRest(s.phase) ==> SameHome(s.L, s.disk, Committed(s))
  {
    RecoversToExact(s.L, s.disk, Committed(s));
    if s.phase.ClearHead? || s.phase.RedoClear? {
      ClearKeeps(s.L, s.disk, Committed(s));
    }
  }

  /** Crash atomicity.  Whenever the machine stops, recovery yields exactly the
      transactions whose header write had finished; and outside installation the
      home blocks already are those transactions, nothing less and nothing more. */
  lemma CrashAtomicity(L: Layout, d: Disk, steps: seq<Step>)
    requires DiskOk(L, d) && Run(Boot(L, d), steps).Some?
    ensures var s := Run(Boot(L, d), steps).value;
            && DiskOk(L, s.disk)
            && SameHome(L, Recovered(L, s.disk), Replay(Recovered(L, d), s.txns))
            && (AtRest(s.phase) ==> SameHome(L, s.disk, Replay(Recovered(L, d), s.txns)))
  {
    hide Inv;
    RunInv(L, d, steps);
    InvCrashSafe(Run(Boot(L, d), steps).value);
  }

  /** The reference count of a buffer is its open handles plus the log's pin, so
      a block that is logged and not installed is cached and cannot be recycled. */
  lemma RefcntExact(L: Layout, d: Disk, steps: seq<Step>, b: int)
    requires DiskOk(L, d) && Run(Boot(L, d), steps).Some?
    ensures var s := Run(Boot(L, d), steps).value;
            && (b in s.cache ==>
                  s.cache[b].refcnt == |s.cache[b].users| + (if Pinned(s.phase, s.lh, b) then 1 else 0))
            && (Pinned(s.phase, s.lh, b) ==> b in s.cache && s.cache[b].valid && DoEvict(s, b).None?)
  {
    RunInv(L, d, steps);
    var s := Run(Boot(L, d), steps).value;
    if b in s.cache { assert BufferOk(s, b); }
  }

  /** A commit never overlaps an open operation, and the logged block numbers are
      distinct home blocks that fit in the log. */
  lemma CommitExclusive(L: Layout, d: Disk, steps: seq<Step>)
    requires DiskOk(L, d) && Run(Boot(L, d), steps).Some?
    ensures var s := Run(Boot(L, d), steps).value;
            && s.outstanding == Count(s.ops)
            && (s.committing ==> s.outstanding == 0)
            && Loggable(L, s.lh)
  {
    RunInv(L, d, steps);
    CountNoneIf(Run(Boot(L, d), steps).value);
  }

  lemma CountNoneIf(s: State)
    requires Inv(s)
    ensures s.committing ==> Count(s.ops) == 0
  {
    if s.committing { CountNone(s.ops); }
  }

  // ---- recovery can always finish ----

  lemma {:induction false} RunConcat(s: State, a: seq<Step>, b: seq<Step>)
    requires Run(s, a).Some?
    ensures Run(s, a + b) == Run(Run(s, a).value, b)
  {
    hide Apply;
    if b == [] {
      assert a + b == a;
    } else {
      RunConcat(s, a, b[..|b| - 1]);
      assert (a + b)[..|a + b| - 1] == a + b[..|b| - 1];
    }
  }

  /** While recovering no buffer is in use, so all of them can be recycled. */
  lemma EvictAll(s: State) returns (steps: seq<Step>)
    requires Inv(s) && !Online(s.phase)
    ensures Run(s, steps) == Some(s.(cache := map[])) && Inv(s.(cache := map[]))
    ensures Crash !in steps
    decreases |s.cache|
  {
    if |s.cache.Keys| == 0 {
      assert s.cache == map[];
      steps := [];
    } else {
      var b := SomeElement(s.cache.Keys);
      assert BufferOk(s, b);
      EvictInv(s, b);
      var t := DoEvict(s, b).value;
      assert s.cache == t.cache[b := s.cache[b]];
      var rest := EvictAll(t);
      assert Run(s, [Evict(b)]) == Some(t) by { assert [Evict(b)][..0] == []; }
      RunConcat(s, [Evict(b)], rest);
      steps := [Evict(b)] + rest;
    }
  }

  function RecoverRank(s: State): nat {
    match s.phase
    case Down => 1000
    case Redo(k) => if k <= |s.lh| then |s.lh| - k + 2 else 0
    case RedoClear => 1
    case _ => 0
  }

  /** From any state of an interrupted recovery some continuation without a
      further crash completes it, keeping the committed transactions. */
  lemma RecoveryCompletes(s: State) returns (steps: seq<Step>)
    requires Inv(s) && !Online(s.phase)
    ensures Crash !in steps && Run(s, steps).Some?
    ensures var t := Run(s, steps).value;
            t.phase == Running && t.txns == s.txns && SameHome(s.L, t.disk, Committed(s))
    decreases RecoverRank(s)
  {
    hide Inv;
    var pre := EvictAll(s);
    var u := s.(cache := map[]);
    var t := RecoverEnabled(u);
    assert Run(u, [Recover]) == Some(t) by { assert [Recover][..0] == []; }
    RunConcat(s, pre, [Recover]);
    if t.phase == Running {
      InvCrashSafe(t);
      steps := pre + [Recover];
    } else {
      var rest := RecoveryCompletes(t);
      RunConcat(s, pre + [Recover], rest);
      steps := pre + [Recover] + rest;
    }
  }

  lemma RecoverEnabled(s: State) returns (t: State)
    requires Inv(s) && !Online(s.phase) && s.cache == map[]
    ensures DoRecover(s) == Some(t) && Inv(t)
    ensures t.txns == s.txns && t.base == s.base && t.L == s.L
    ensures t.phase == Running || (!Online(t.phase) && RecoverRank(t) < RecoverRank(s))
  {
    hide Inv, Apply;
    RecoverHead(s);
    t := RecoverRuns(s);
    ApplyRecover(s);
    StepInv(s, Recover);
  }

  lemma ApplyRecover(s: State)
    ensures Apply(s, Recover) == DoRecover(s)
  {
  }

  /** With an empty cache the next step of recovery can be taken, and brings it closer to its end. */
  lemma RecoverRuns(s: State) returns (t: State)
    requires !Online(s.phase) && s.cache == map[] && DiskOk(s.L, s.disk) && Loggable(s.L, s.lh)
    requires CountOk(s.disk[s.L.start]) && (s.phase.Redo? ==> s.phase.k <= |s.lh|)
    ensures DoRecover(s) == Some(t) && t.txns == s.txns && t.base == s.base && t.L == s.L
    ensures t.phase == Running || (!Online(t.phase) && RecoverRank(t) < RecoverRank(s))
  {
    t := DoRecover(s).value;
  }

  lemma RecoverHead(s: State)
    requires Inv(s)
    ensures DiskOk(s.L, s.disk) && Loggable(s.L, s.lh) && CountOk(s.disk[s.L.start])
    ensures s.phase.Redo? ==> s.phase.k <= |s.lh|
  {
  }
}
