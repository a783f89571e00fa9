/** begin_op's reservation, and when log_write's space tests can stop an
    operation that stays within MAXOPBLOCKS. */
module LogReserve {
  import opened Basics
  import opened Wal
  import opened LogMachine
  import opened LogProofs
  import opened LogTheorems

  function Unused(o: Option<nat>): nat {
    if o.Some? && o.value < MAXOPBLOCKS then MAXOPBLOCKS - o.value else 0
  }

  lemma {:induction false} ReserveUpdate(ops: seq<Option<nat>>, p: nat, v: Option<nat>)
    requires p < |ops|
    ensures Reserve(ops[p := v]) == Reserve(ops) - Unused(ops[p]) + Unused(v)
  {
    if p == 0 {
      assert ops[p := v][1..] == ops[1..];
    } else {
      assert ops[p := v][1..] == ops[1..][p - 1 := v];
      ReserveUpdate(ops[1..], p - 1, v);
    }
  }

  lemma {:induction false} ReserveBound(ops: seq<Option<nat>>)
    ensures Reserve(ops) <= MAXOPBLOCKS * Count(ops)
  {
    if ops != [] { ReserveBound(ops[1..]); }
  }

  lemma {:induction false} ReserveAtLeast(ops: seq<Option<nat>>, p: nat)
    requires p < |ops|
    ensures Unused(ops[p]) <= Reserve(ops)
  {
    if p > 0 { ReserveAtLeast(ops[1..], p - 1); }
  }

  /** No operation has appended more than MAXOPBLOCKS blocks. */
  predicate InBudget(s: State) {
    forall p :: 0 <= p < |s.ops| && s.ops[p].Some? ==> s.ops[p].value <= MAXOPBLOCKS
  }

  predicate BudgetRun(s: State, steps: seq<Step>) {
    && Run(s, steps).Some? && InBudget(Run(s, steps).value)
    && (steps != [] ==> BudgetRun(s, steps[..|steps| - 1]))
  }

  predicate Reserved(s: State) { |s.lh| + Reserve(s.ops) <= LOGSIZE }

  lemma LogWriteReserved(s: State, p: nat, b: int)
    requires Reserved(s) && DoLogWrite(s, p, b).Some? && InBudget(DoLogWrite(s, p, b).value)
    ensures Reserved(DoLogWrite(s, p, b).value)
  {
    hide Reserve;
    var t := DoLogWrite(s, p, b).value;
    if b !in s.lh {
      ReserveUpdate(s.ops, p, t.ops[p]);
      assert t.ops[p].value <= MAXOPBLOCKS;
    }
  }

  lemma BeginReserved(s: State, p: nat)
    requires s.outstanding == Count(s.ops) && DoBeginOp(s, p).Some?
    ensures Reserved(DoBeginOp(s, p).value)
  {
    hide Reserve, Count;
    ReserveUpdate(s.ops, p, Some(0));
    ReserveBound(s.ops);
  }

  lemma EndReserved(s: State, p: nat)
    requires Reserved(s) && DoEndOp(s, p).Some?
    ensures Reserved(DoEndOp(s, p).value)
  {
    hide Reserve;
    ReserveUpdate(s.ops, p, None);
  }

  /** With no operation open only the log's own size matters. */
  lemma IdleReserved(t: State)
    requires |t.lh| <= LOGSIZE && forall p :: 0 <= p < |t.ops| ==> t.ops[p].None?
    ensures Reserved(t)
  {
    CountNone(t.ops);
  }

  /** The other steps open no operation and log no block. */
  lemma OtherSteps(s: State, a: Step)
    requires Apply(s, a).Some? && !a.LogWrite? && !a.BeginOp? && !a.EndOp? && !a.Crash? && !a.Recover?
    ensures Apply(s, a).value.ops == s.ops && (Apply(s, a).value.lh == s.lh || Apply(s, a).value.lh == [])
  {
    hide Touch, PutHead, Replay;
  }

  lemma RecoverIdle(s: State)
    requires Inv(s) && DoRecover(s).Some?
    ensures DoRecover(s).value.ops == s.ops && forall p :: 0 <= p < |s.ops| ==> s.ops[p].None?
  {
    hide DiskInv, CacheOk, Touch, PutHead, Replay;
  }

  lemma StepReserved(s: State, a: Step)
    requires Inv(s) && Reserved(s) && Apply(s, a).Some? && InBudget(Apply(s, a).value)
    ensures Reserved(Apply(s, a).value)
  {
    hide Inv, Reserved, InBudget, DoLogWrite, DoBeginOp, DoEndOp, DoRecover, DoCommit, DoCrash, DoBget, DoLock,
      DoModify, DoBrelse, DoEvict;
    Parts(s);
    match a
    case LogWrite(p, b) => LogWriteReserved(s, p, b);
    case BeginOp(p) => BeginReserved(s, p);
    case EndOp(p) => EndReserved(s, p);
    case Crash => CrashReserved(s);
    case Recover =>
      RecoverIdle(s);
      StepInv(s, a);
      Parts(DoRecover(s).value);
      IdleReserved(DoRecover(s).value);
    case _ =>
      OtherSteps(s, a);
      SameReserved(s, Apply(s, a).value);
  }

  lemma CrashReserved(s: State)
    ensures Reserved(DoCrash(s))
  {
    hide Replay;
    IdleReserved(DoCrash(s));
  }

  lemma SameReserved(s: State, t: State)
    requires Reserved(s) && t.ops == s.ops && (t.lh == s.lh || t.lh == [])
    ensures Reserved(t)
  {
  }

  /** In every run of in-budget operations the logged blocks plus the unused
      reservations fit in the log. */
  lemma {:induction false} ReservationHolds(L: Layout, d: Disk, steps: seq<Step>)
    requires DiskOk(L, d) && BudgetRun(Boot(L, d), steps)
    ensures Reserved(Run(Boot(L, d), steps).value)
  {
    if steps == [] {
      CountNone(Boot(L, d).ops);
    } else {
      var most := steps[..|steps| - 1];
      ReservationHolds(L, d, most);
      RunInv(L, d, most);
      StepReserved(Run(Boot(L, d), most).value, steps[|steps| - 1]);
    }
  }

  /** A call of log_write by an operation that stays within MAXOPBLOCKS, on a block it holds: the
      block is in the log already, or the operation has a reservation left for it. */
  predicate Asked(s: State, p: nat, b: int) {
    InOp(s.ops, p) && Holds(s, p, b) && (b in s.lh || s.ops[p].value < MAXOPBLOCKS)
  }

  /** The call meets the "too big a transaction" panic. */
  predicate Refused(s: State, p: nat, b: int) { Asked(s, p, b) && !LogRoom(s) }

  /** The call is an append that is refused. */
  predicate AppendRefused(s: State, p: nat, b: int) { Refused(s, p, b) && b !in s.lh }

  ghost predicate NeverRefused(L: Layout) {
    forall d: Disk, steps: seq<Step>, p: nat, b: int
      | DiskOk(L, d) && BudgetRun(Boot(L, d), steps) :: !Refused(Run(Boot(L, d), steps).value, p, b)
  }

  ghost predicate NeverAppendRefused(L: Layout) {
    forall d: Disk, steps: seq<Step>, p: nat, b: int
      | DiskOk(L, d) && BudgetRun(Boot(L, d), steps) :: !AppendRefused(Run(Boot(L, d), steps).value, p, b)
  }

  /** When log_write refuses: in every state of an in-budget run a call is answered with the panic
      exactly when the log holds LOGSIZE blocks or all its data blocks, whether or not the
      block is in the log already. */
  lemma RefusalExact(L: Layout, d: Disk, steps: seq<Step>, p: nat, b: int)
    requires DiskOk(L, d) && BudgetRun(Boot(L, d), steps) && Asked(Run(Boot(L, d), steps).value, p, b)
    ensures var s := Run(Boot(L, d), steps).value;
            && (DoLogWrite(s, p, b).None? <==> Refused(s, p, b))
            && (Refused(s, p, b) <==> |s.lh| >= LOGSIZE || |s.lh| >= L.size - 1)
  {
    hide Run, BudgetRun, Boot;
    RunOfBudget(Boot(L, d), steps);
    RunInv(L, d, steps);
    AskedEnabled(Run(Boot(L, d), steps).value, p, b);
  }

  lemma RunOfBudget(s: State, steps: seq<Step>)
    requires BudgetRun(s, steps)
    ensures Run(s, steps).Some?
  {
  }

  lemma AskedEnabled(s: State, p: nat, b: int)
    requires Inv(s) && Asked(s, p, b)
    ensures DoLogWrite(s, p, b).None? <==> !LogRoom(s)
  {
    hide DiskInv, Reserve;
    assert BufferOk(s, b);
    CountSome(s.ops, p);
  }

  lemma {:induction false} CountSome(ops: seq<Option<nat>>, p: nat)
    requires p < |ops| && ops[p].Some?
    ensures Count(ops) >= 1
  {
    if p > 0 { CountSome(ops[1..], p - 1); }
  }

  /** In a log of more than LOGSIZE blocks a refusal means that every reservation is used up and the
      block is in the log already: only a write that needs no space can be refused. */
  lemma RefusedMeansFull(L: Layout, d: Disk, steps: seq<Step>, p: nat, b: int)
    requires DiskOk(L, d) && BudgetRun(Boot(L, d), steps) && L.size > LOGSIZE
    ensures var s := Run(Boot(L, d), steps).value;
            Refused(s, p, b) <==> Asked(s, p, b) && |s.lh| == LOGSIZE && Reserve(s.ops) == 0 && b in s.lh
  {
    hide Inv;
    var s := Run(Boot(L, d), steps).value;
    ReservationHolds(L, d, steps);
    RunInv(L, d, steps);
    if InOp(s.ops, p) { ReserveAtLeast(s.ops, p); }
  }

  // ---- a run that fills a log of at most LOGSIZE blocks ----

  lemma OneMore(s: State, steps: seq<Step>, a: Step)
    requires BudgetRun(s, steps)
    requires var t := Apply(Run(s, steps).value, a); t.Some? && InBudget(t.value)
    ensures BudgetRun(s, steps + [a]) && Run(s, steps + [a]) == Apply(Run(s, steps).value, a)
  {
    hide Apply, InBudget;
    assert (steps + [a])[..|steps + [a]| - 1] == steps;
  }

  function Blank(L: Layout): Disk { seq(L.nblocks, _ => seq(BWORDS, _ => 0)) }

  /** Three operations are open and have together appended the i blocks after the log. */
  ghost predicate Filled(s: State, L: Layout, i: nat) {
    && s.phase == Running && !s.committing && s.outstanding == 3 && s.L == L
    && |s.disk| == |s.current| == L.nblocks
    && |s.ops| == NPROC && |s.cache| <= i
    && s.lh == seq(i, j => L.start + L.size + j)
    && (forall x :: x in s.cache ==> x < L.start + L.size + i && !s.cache[x].dirty)
    && (forall p :: 0 <= p < NPROC && s.ops[p].Some? ==> s.ops[p].value <= MAXOPBLOCKS)
    && (forall p :: 0 <= p < 3 ==>
          s.ops[p] == Some(if i <= 10 * p then 0 else if i >= 10 * p + 10 then 10 else i - 10 * p))
  }

  lemma BlankOk(L: Layout)
    requires L.Valid()
    ensures DiskOk(L, Blank(L)) && HeadBlocks(Blank(L)[L.start]) == []
  {
  }

  /** Recovery of a blank disk, and the header's buffer recycled. */
  lemma BlankBoots(L: Layout) returns (a: State, b: State, c: State, e: State)
    requires L.Valid() && DiskOk(L, Blank(L)) && HeadBlocks(Blank(L)[L.start]) == []
    ensures var s := Boot(L, Blank(L));
            Apply(s, Recover) == Some(a) && Apply(a, Recover) == Some(b) && Apply(b, Recover) == Some(c)
            && Apply(c, Evict(L.start)) == Some(e)
    ensures a.ops == b.ops == c.ops == e.ops == seq(NPROC, _ => None)
    ensures e.phase == Running && !e.committing && e.outstanding == 0 && e.L == L && e.lh == [] && e.cache == map[]
    ensures |e.disk| == |e.current| == L.nblocks
  {
    var s := Boot(L, Blank(L));
    a := DoRecover(s).value;
    assert a.lh == [];
    b := DoRecover(a).value;
    c := DoRecover(b).value;
    assert c.cache.Keys == {L.start} && c.cache[L.start].refcnt == 0;
    e := DoEvict(c, L.start).value;
    assert e.cache == map[];
  }

  lemma ThreeBegin(s: State, L: Layout) returns (a: State, b: State, c: State)
    requires s.phase == Running && !s.committing && s.outstanding == 0 && s.L == L && s.lh == [] && s.cache == map[]
    requires |s.disk| == |s.current| == L.nblocks && s.ops == seq(NPROC, _ => None)
    ensures DoBeginOp(s, 0) == Some(a) && DoBeginOp(a, 1) == Some(b) && DoBeginOp(b, 2) == Some(c)
    ensures InBudget(a) && InBudget(b) && InBudget(c) && Filled(c, L, 0)
  {
    a := DoBeginOp(s, 0).value;
    b := DoBeginOp(a, 1).value;
    c := DoBeginOp(b, 2).value;
  }

  lemma FillStart(L: Layout) returns (steps: seq<Step>)
    requires L.Valid()
    ensures DiskOk(L, Blank(L)) && BudgetRun(Boot(L, Blank(L)), steps)
    ensures Filled(Run(Boot(L, Blank(L)), steps).value, L, 0)
  {
    hide Filled, DoRecover, DoEvict, DoBeginOp, InBudget;
    BlankOk(L);
    var s := Boot(L, Blank(L));
    var s1, s2, s3, s4 := BlankBoots(L);
    var s5, s6, s7 := ThreeBegin(s4, L);
    NoneInBudget(s); NoneInBudget(s1); NoneInBudget(s2); NoneInBudget(s3); NoneInBudget(s4);
    steps := [];
    OneMore(s, steps, Recover); steps := steps + [Recover];
    OneMore(s, steps, Recover); steps := steps + [Recover];
    OneMore(s, steps, Recover); steps := steps + [Recover];
    OneMore(s, steps, Evict(L.start)); steps := steps + [Evict(L.start)];
    OneMore(s, steps, BeginOp(0)); steps := steps + [BeginOp(0)];
    OneMore(s, steps, BeginOp(1)); steps := steps + [BeginOp(1)];
    OneMore(s, steps, BeginOp(2)); steps := steps + [BeginOp(2)];
  }

  lemma NoneInBudget(s: State)
    requires s.ops == seq(NPROC, _ => None)
    ensures InBudget(s)
  {
  }

  /** The next operation gets and locks the next block. */
  function Held(s: State, L: Layout, i: nat): State
    requires L.start + L.size + i < |s.disk|
  {
    var b := L.start + L.size + i;
    s.(cache := s.cache[b := Entry(true, s.disk[b], 1, Some(i / 10), {i / 10}, false)])
  }

  lemma HoldSteps(s: State, L: Layout, i: nat, junk: Block) returns (u: State)
    requires Filled(s, L, i) && L.Valid() && i < LOGSIZE && L.start + L.size + LOGSIZE <= L.nblocks
    ensures var b := L.start + L.size + i;
            && DoBget(s, i / 10, b, junk) == Some(u) && DoLock(u, i / 10, b) == Some(Held(s, L, i))
            && InBudget(u) && InBudget(Held(s, L, i))
            && b !in s.cache && b !in s.lh
  {
    u := DoBget(s, i / 10, L.start + L.size + i, junk).value;
    assert DoLock(u, i / 10, L.start + L.size + i).value.cache == Held(s, L, i).cache;
  }

  lemma FillHold(s0: State, L: Layout, steps: seq<Step>, i: nat) returns (more: seq<Step>)
    requires BudgetRun(s0, steps) && Filled(Run(s0, steps).value, L, i)
    requires L.Valid() && i < LOGSIZE && L.start + L.size + LOGSIZE <= L.nblocks
    ensures |Run(s0, steps).value.disk| == L.nblocks
    ensures BudgetRun(s0, more) && Run(s0, more) == Some(Held(Run(s0, steps).value, L, i))
  {
    assert |Run(s0, steps).value.disk| == L.nblocks;
    hide Filled, DoBget, DoLock, InBudget, Held;
    var s, b, p := Run(s0, steps).value, L.start + L.size + i, i / 10;
    var junk: Block := seq(BWORDS, _ => 0);
    var u := HoldSteps(s, L, i, junk);
    OneMore(s0, steps, Bget(p, b, junk));
    more := steps + [Bget(p, b, junk)];
    OneMore(s0, more, Lock(p, b));
    more := more + [Lock(p, b)];
  }

  /** The state after log_write of the block held, and after brelse as well. */
  function Appended(s: State, L: Layout, i: nat): State
    requires L.start + L.size + i < |s.disk| && L.start + L.size + i < |s.current| && i / 10 < |s.ops|
             && s.ops[i / 10].Some?
  {
    var b, p := L.start + L.size + i, i / 10;
    s.(cache := s.cache[b := Entry(true, s.disk[b], 2, Some(p), {p}, false)], current := s.current[b := s.disk[b]],
       lh := s.lh + [b], ops := s.ops[p := Some(s.ops[p].value + 1)])
  }

  function Let(s: State, L: Layout, i: nat): State {
    var b := L.start + L.size + i;
    if 0 <= b < |s.disk| then s.(cache := s.cache[b := Entry(true, s.disk[b], 1, None, {}, false)]) else s
  }

  lemma FillAppend(s: State, L: Layout, i: nat)
    requires Filled(s, L, i) && L.Valid() && L.start + L.size + LOGSIZE <= L.nblocks
    requires i < LOGSIZE && i < L.size - 1
    ensures s.ops[i / 10].Some?
    ensures DoLogWrite(Held(s, L, i), i / 10, L.start + L.size + i) == Some(Appended(s, L, i))
            && InBudget(Appended(s, L, i))
  {
    var b, p := L.start + L.size + i, i / 10;
    assert b !in s.lh && b !in s.cache;
    assert DoLogWrite(Held(s, L, i), p, b).value.cache == Appended(s, L, i).cache;
  }

  lemma FillLet(s: State, L: Layout, i: nat)
    requires Filled(s, L, i) && L.start + L.size + LOGSIZE <= L.nblocks && i < LOGSIZE && s.ops[i / 10].Some?
    ensures var v := Appended(s, L, i); DoBrelse(v, i / 10, L.start + L.size + i) == Some(Let(v, L, i))
  {
    hide Filled;
    FilledSize(s, L, i);
    var v, b, p := Appended(s, L, i), L.start + L.size + i, i / 10;
    assert v.cache[b].users - {p} == {};
    assert DoBrelse(v, p, b).value.cache == Let(v, L, i).cache;
  }

  lemma FilledSize(s: State, L: Layout, i: nat)
    requires Filled(s, L, i)
    ensures |s.disk| == |s.current| == L.nblocks && s.phase == Running && |s.ops| == NPROC
  {
  }

  lemma FillNext(s: State, L: Layout, i: nat)
    requires Filled(s, L, i) && L.start + L.size + LOGSIZE <= L.nblocks && i < LOGSIZE && s.ops[i / 10].Some?
    ensures Filled(Let(Appended(s, L, i), L, i), L, i + 1) && InBudget(Let(Appended(s, L, i), L, i))
  {
    var w := Let(Appended(s, L, i), L, i);
    assert L.start + L.size + i !in s.cache;
    assert w.cache.Keys == s.cache.Keys + {L.start + L.size + i};
    assert w.lh == seq(i + 1, j => L.start + L.size + j);
  }

  lemma FillSteps(s: State, L: Layout, i: nat) returns (v: State, w: State)
    requires Filled(s, L, i) && L.Valid() && L.start + L.size + LOGSIZE <= L.nblocks
    requires i < LOGSIZE && i < L.size - 1
    ensures |s.disk| == L.nblocks
    ensures var b := L.start + L.size + i;
            && Apply(Held(s, L, i), LogWrite(i / 10, b)) == Some(v) && Apply(v, Brelse(i / 10, b)) == Some(w)
            && InBudget(v) && InBudget(w) && Filled(w, L, i + 1)
  {
    hide Filled, Held, Appended, Let, DoLogWrite, DoBrelse, InBudget;
    FilledSize(s, L, i);
    FillAppend(s, L, i);
    FillLet(s, L, i);
    FillNext(s, L, i);
    v, w := Appended(s, L, i), Let(Appended(s, L, i), L, i);
  }

  lemma TwoMore(s0: State, steps: seq<Step>, t: State, a: Step, v: State, b: Step, w: State)
    requires BudgetRun(s0, steps) && Run(s0, steps) == Some(t)
    requires Apply(t, a) == Some(v) && InBudget(v) && Apply(v, b) == Some(w) && InBudget(w)
    ensures BudgetRun(s0, steps + [a] + [b]) && Run(s0, steps + [a] + [b]) == Some(w)
  {
    hide Apply, InBudget;
    OneMore(s0, steps, a);
    OneMore(s0, steps + [a], b);
  }

  lemma FillOne(s0: State, L: Layout, steps: seq<Step>, s: State, i: nat) returns (more: seq<Step>, w: State)
    requires BudgetRun(s0, steps) && Run(s0, steps) == Some(s) && Filled(s, L, i)
    requires L.Valid() && i < LOGSIZE && i < L.size - 1 && L.start + L.size + LOGSIZE <= L.nblocks
    ensures BudgetRun(s0, more) && Run(s0, more) == Some(w) && Filled(w, L, i + 1)
  {
    hide Filled, Apply, InBudget, Held, BudgetRun, Run;
    var b, p := L.start + L.size + i, i / 10;
    var held := FillHold(s0, L, steps, i);
    var v;
    v, w := FillSteps(s, L, i);
    TwoMore(s0, held, Held(s, L, i), LogWrite(p, b), v, Brelse(p, b), w);
    more := held + [LogWrite(p, b)] + [Brelse(p, b)];
  }

  lemma FillUpTo(L: Layout, i: nat) returns (steps: seq<Step>, s: State)
    requires L.Valid() && i < LOGSIZE && i < L.size && L.start + L.size + LOGSIZE <= L.nblocks
    ensures DiskOk(L, Blank(L)) && BudgetRun(Boot(L, Blank(L)), steps)
    ensures Run(Boot(L, Blank(L)), steps) == Some(s) && Filled(s, L, i)
  {
    hide Filled;
    if i == 0 {
      steps := FillStart(L);
      s := Run(Boot(L, Blank(L)), steps).value;
    } else {
      var most, t := FillUpTo(L, i - 1);
      steps, s := FillOne(Boot(L, Blank(L)), L, most, t, i - 1);
    }
  }

  lemma NotRefused(L: Layout, d: Disk, steps: seq<Step>, p: nat, b: int)
    requires DiskOk(L, d) && BudgetRun(Boot(L, d), steps) && L.size > LOGSIZE
    ensures !AppendRefused(Run(Boot(L, d), steps).value, p, b)
  {
    hide Inv;
    var s := Run(Boot(L, d), steps).value;
    ReservationHolds(L, d, steps);
    RunInv(L, d, steps);
    if InOp(s.ops, p) { ReserveAtLeast(s.ops, p); }
  }

  lemma HeldRefused(s: State, L: Layout, i: nat)
    requires Filled(s, L, i) && L.Valid() && i < LOGSIZE && i == L.size - 1 && L.start + L.size + LOGSIZE <= L.nblocks
    ensures AppendRefused(Held(s, L, i), i / 10, L.start + L.size + i)
  {
  }

  lemma CanBeRefused(L: Layout)
    requires L.Valid() && L.start + L.size + LOGSIZE <= L.nblocks && L.size <= LOGSIZE
    ensures !NeverAppendRefused(L)
  {
    hide Filled, AppendRefused, Held, Run, BudgetRun, Boot;
    BlankOk(L);
    var s0 := Boot(L, Blank(L));
    var steps, s := FillUpTo(L, L.size - 1);
    var more := FillHold(s0, L, steps, L.size - 1);
    HeldRefused(s, L, L.size - 1);
  }

  /** An operation within its budget can append all its blocks, in every run, exactly when the log
      has more than LOGSIZE blocks.  The second space test counts the header block, which the
      reservation does not. */
  lemma ReservationExact(L: Layout)
    requires L.Valid() && L.start + L.size + LOGSIZE <= L.nblocks
    ensures NeverAppendRefused(L) <==> L.size > LOGSIZE
  {
    if L.size > LOGSIZE {
      hide AppendRefused;
      forall d: Disk, steps: seq<Step>, p: nat, b: int | DiskOk(L, d) && BudgetRun(Boot(L, d), steps)
        ensures !AppendRefused(Run(Boot(L, d), steps).value, p, b)
      {
        NotRefused(L, d, steps, p, b);
      }
    } else {
      CanBeRefused(L);
    }
  }

  /** The image that mkfs builds: 30 log blocks from block 2 of 2000. */
  lemma MkfsLogTooSmall()
    ensures !NeverAppendRefused(Layout(2, LOGSIZE, 2000))
  {
    ReservationExact(Layout(2, LOGSIZE, 2000));
  }

  /** In a log of any size some in-budget call is refused: the space test comes before the search
      for the block, so that writing a logged block again fails in a full log. */
  lemma SomeRefused(L: Layout)
    requires L.Valid() && L.start + L.size + LOGSIZE <= L.nblocks
    ensures !NeverRefused(L)
  {
    hide Run, BudgetRun, Boot, AppendRefused, Refused;
    if L.size <= LOGSIZE {
      CanBeRefused(L);
      AppendIsRefusal(L);
    } else {
      var steps, s, p, b := AbsorbRefused(L);
    }
  }

  lemma AppendIsRefusal(L: Layout)
    requires !NeverAppendRefused(L)
    ensures !NeverRefused(L)
  {
    hide Run, BudgetRun, Boot;
  }

  /** The thirtieth append fills the log; writing its block once more is refused. */
  lemma AbsorbRefused(L: Layout) returns (steps: seq<Step>, s: State, p: nat, b: int)
    requires L.Valid() && L.start + L.size + LOGSIZE <= L.nblocks && L.size > LOGSIZE
    ensures DiskOk(L, Blank(L)) && BudgetRun(Boot(L, Blank(L)), steps) && Run(Boot(L, Blank(L)), steps) == Some(s)
    ensures Refused(s, p, b) && b in s.lh && DoLogWrite(s, p, b).None?
  {
    hide Filled, Run, BudgetRun, Boot, Held, Refused, InBudget;
    BlankOk(L);
    var i := LOGSIZE - 1;
    var s0 := Boot(L, Blank(L));
    var most, t := FillUpTo(L, i);
    var held := FillHold(s0, L, most, i);
    var v, w := FillSteps(t, L, i);
    p, b := i / 10, L.start + L.size + i;
    OneMore(s0, held, LogWrite(p, b));
    steps, s := held + [LogWrite(p, b)], v;
    FullAbsorbs(t, L, v);
  }

  lemma FullAbsorbs(s: State, L: Layout, v: State)
    requires Filled(s, L, LOGSIZE - 1) && L.start + L.size + LOGSIZE <= L.nblocks && L.size > LOGSIZE
    requires var i := LOGSIZE - 1; Apply(Held(s, L, i), LogWrite(i / 10, L.start + L.size + i)) == Some(v)
    ensures var p, b := (LOGSIZE - 1) / 10, L.start + L.size + LOGSIZE - 1;
            Refused(v, p, b) && b in v.lh && DoLogWrite(v, p, b).None?
  {
    var i := LOGSIZE - 1;
    var b := L.start + L.size + i;
    assert b !in s.lh;
    assert v.lh == s.lh + [b];
    assert v.lh[i] == b;
  }
}
