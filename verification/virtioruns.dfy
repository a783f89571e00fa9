/** Every interleaving of submitters, the device, interrupts and waking processes. */
module VirtioRuns {
  import opened Basics
  import opened Virtio

  /** Who moves next: a process that changes a buffer it holds or calls virtio_disk_rw, the
      device, the interrupt handler, or a process that has been waiting. */
  datatype Move =
    | Change(b: nat, x: nat) | Begin(b: nat, write: bool, blockno: nat)
    | Fetch | Serve(h: nat) | Interrupt | Wake(h: nat)

  /** What has happened to a request, by its number. */
  datatype Event = Began(id: nat) | Posted(id: nat) | Cleared(id: nat) | Ended(id: nat)

  /** e comes before position k. */
  ghost predicate Before(t: seq<Event>, k: nat, e: Event)
    requires k <= |t|
  {
    e in t[..k]
  }

  /** No event happens twice, and each comes after the one it depends on. */
  ghost predicate Orderly(t: seq<Event>) {
    && (forall j, k :: 0 <= j < k < |t| ==> t[j] != t[k])
    && (forall k :: 0 <= k < |t| ==> Ready(t, k, t[k]))
  }

  ghost predicate Ready(t: seq<Event>, k: nat, e: Event)
    requires k <= |t|
  {
    match e
    case Began(_) => true
    case Posted(id) => Before(t, k, Began(id))
    case Cleared(id) => Before(t, k, Posted(id))
    case Ended(id) => Before(t, k, Cleared(id))
  }

  /** The history of one live request says how far it is. */
  ghost predicate Told(t: seq<Event>, g: Book, h: nat)
    requires h in g.live
  {
    var id := g.live[h].id;
    && Began(id) in t && Ended(id) !in t
    && (Posted(id) in t <==> h in g.posted || h in g.finished)
    && (Cleared(id) in t <==> h in g.finished)
  }

  ghost predicate Faithful(t: seq<Event>, g: Book) {
    && Orderly(t)
    && (forall h :: h in g.live ==> Told(t, g, h) && g.live[h].id < g.nextId)
    && (forall k :: 0 <= k < |t| ==> t[k].id < g.nextId)
    && (forall h, k :: h in g.live && k in g.live && h != k ==> g.live[h].id != g.live[k].id)
  }

  lemma OrderlyMore(t: seq<Event>, e: Event)
    requires Orderly(t) && e !in t && Ready(t, |t|, e)
    ensures Orderly(t + [e])
  {
    var t' := t + [e];
    assert t[..|t|] == t && t'[..|t|] == t;
    forall k | 0 <= k < |t'| ensures Ready(t', k, t'[k]) {
      if k < |t| {
        assert Ready(t, k, t[k]);
        assert t'[..k] == t[..k];
      }
    }
  }

  lemma TellBegan(t: seq<Event>, g: Book, h: nat, q: Req)
    requires Faithful(t, g) && h !in g.live && q.id == g.nextId && h !in g.posted && h !in g.finished
    ensures Faithful(t + [Began(q.id)], Entered(g, h, q))
  {
    hide Orderly;
    OrderlyMore(t, Began(q.id));
    var t', g' := t + [Began(q.id)], Entered(g, h, q);
    forall k | k in g'.live ensures Told(t', g', k) && g'.live[k].id < g'.nextId {
      if k != h { assert Told(t, g, k); }
    }
  }

  /** The device picking up a request is not part of the history. */
  lemma TellTaken(t: seq<Event>, g: Book, g': Book)
    requires Faithful(t, g) && g'.live == g.live && g'.posted == g.posted && g'.finished == g.finished
             && g'.nextId == g.nextId
    ensures Faithful(t, g')
  {
    hide Orderly;
    forall k | k in g'.live ensures Told(t, g', k) { assert Told(t, g, k); }
  }

  lemma TellPosted(t: seq<Event>, g: Book, h: nat)
    requires Faithful(t, g) && h in g.live && h !in g.posted && h !in g.finished
    ensures Faithful(t + [Posted(g.live[h].id)], g.(taken := g.taken - {h}, posted := g.posted + [h]))
  {
    hide Orderly;
    var e := Posted(g.live[h].id);
    assert Told(t, g, h);
    assert t[..|t|] == t;
    OrderlyMore(t, e);
    var t', g' := t + [e], g.(taken := g.taken - {h}, posted := g.posted + [h]);
    forall k | k in g'.live ensures Told(t', g', k) { assert Told(t, g, k); }
  }

  lemma TellCleared(t: seq<Event>, g: Book, h: nat)
    requires Faithful(t, g) && h in g.live && g.posted != [] && g.posted[0] == h && h !in g.finished
             && NoRepeat(g.posted)
    ensures Faithful(t + [Cleared(g.live[h].id)], Virtio.Cleared(g, h))
  {
    hide Orderly;
    var e := Cleared(g.live[h].id);
    assert Told(t, g, h);
    assert t[..|t|] == t;
    OrderlyMore(t, e);
    var t', g' := t + [e], Virtio.Cleared(g, h);
    assert g.posted == [h] + g'.posted;
    assert h !in g'.posted;
    forall k | k in g'.live ensures Told(t', g', k) { assert Told(t, g, k); }
  }

  lemma TellEnded(t: seq<Event>, g: Book, h: nat)
    requires Faithful(t, g) && h in g.live && h in g.finished
    ensures Faithful(t + [Ended(g.live[h].id)], Left(g, h))
  {
    hide Orderly;
    var e := Ended(g.live[h].id);
    assert Told(t, g, h);
    assert t[..|t|] == t;
    OrderlyMore(t, e);
    var t', g' := t + [e], Left(g, h);
    forall k | k in g'.live ensures Told(t', g', k) { assert Told(t, g, k); }
  }

  /** A request with the device, or posted, is in no other phase. */
  lemma OnePhase(free: seq<bool>, desc: seq<Desc>, ops: seq<Op>, info: seq<Option<nat>>, status: seq<nat>,
                 busy: set<nat>, g: Book, h: nat)
    requires Tables(free, desc, ops, info, status, busy, g)
    ensures NoRepeat(g.posted)
    ensures h in g.taken ==> h in g.live && h !in g.posted && h !in g.finished
    ensures h in g.posted ==> h in g.live && h !in g.finished
    ensures h !in g.live ==> h !in g.posted && h !in g.finished
  {
    hide Chains, Formatted, Statuses, Flags, Ids;
    assert h in g.posted <==> h in Elements(g.posted);
    assert h in g.live <==> h in g.live.Keys;
  }

  /** The disk at one time: the book, the buffers with b->disk set, the free descriptors, and
      what platter and buffers hold. */
  datatype Snap = Snap(g: Book, busy: set<nat>, free: seq<bool>, platter: map<nat, nat>, data: map<nat, nat>)

  ghost function Now(d: Disk): Snap
    reads d
  {
    Snap(d.g, d.busy, d.free, d.platter, d.data)
  }

  /** No two live requests share a buffer, each is in one phase, and a finished one is released. */
  ghost predicate Sane(s: Snap) {
    && (forall h, k :: h in s.g.live && k in s.g.live && h != k ==> s.g.live[h].b != s.g.live[k].b)
    && (forall h :: h in s.g.live ==> h in s.g.queued || h in s.g.taken || h in s.g.posted || h in s.g.finished)
    && (forall h :: h in s.g.taken ==> h in s.g.live && h !in s.g.posted && h !in s.g.finished)
    && (forall h :: h in s.g.finished ==> h in s.g.live && s.g.live[h].b !in s.busy)
    && (forall h :: h in s.g.queued || h in s.g.posted ==> h in s.g.live)
    && (forall h :: h in s.g.live ==> s.g.live[h].id < s.g.nextId)
  }

  lemma ValidSane(d: Disk)
    requires d.Valid()
    ensures Sane(Now(d))
  {
    hide Ring, Chains, Formatted, Statuses;
    var g := d.g;
    forall h: nat ensures (h in g.queued <==> h in Elements(g.queued)) && (h in g.posted <==> h in Elements(g.posted))
      ensures h in g.live <==> h in g.live.Keys
    {
    }
  }

  /** A process changes or begins a request only for a buffer it holds and with descriptors to be had, the
      device serves only what it has taken, and a process goes on only when its b->disk is 0. */
  ghost predicate Can(s: Snap, m: Move) {
    match m
    case Change(b, _) => forall h :: h in s.g.live ==> s.g.live[h].b != b
    case Begin(b, _, _) => (forall h :: h in s.g.live ==> s.g.live[h].b != b) && FreeCount(s.free) >= 3
    case Fetch => s.g.queued != []
    case Serve(h) => h in s.g.taken && h in s.g.live
    case Interrupt => s.g.posted != [] && s.g.posted[0] in s.g.live
    case Wake(h) => h in s.g.live && s.g.live[h].b !in s.busy
  }

  /** The event that a move is. */
  ghost function Happens(s: Snap, m: Move): seq<Event> {
    if !Can(s, m) then []
    else
      match m
      case Change(_, _) => []
      case Begin(_, _, _) => [Began(s.g.nextId)]
      case Fetch => []
      case Serve(h) => [Posted(s.g.live[h].id)]
      case Interrupt => [Cleared(s.g.live[s.g.posted[0]].id)]
      case Wake(h) => [Ended(s.g.live[h].id)]
  }

  /** What a move does: one request goes one phase on, and only its b->disk changes.  Only
      the device touches the platter, and only a change or the device a buffer. */
  ghost predicate Moved(s: Snap, m: Move, s': Snap) {
    && Transferred(s, m, s')
    && if !Can(s, m) then s'.g == s.g && s'.busy == s.busy
    else
      match m
      case Change(_, _) => s'.g == s.g && s'.busy == s.busy
      case Begin(b, write, blockno) =>
        exists h :: h in s'.g.live && h !in s.g.live && Submitted(s.g, s'.g, h, b, write, blockno)
                    && s'.busy == s.busy + {b}
      case Fetch =>
        s'.busy == s.busy && s'.g == s.g.(queued := s.g.queued[1..], taken := s.g.taken + {s.g.queued[0]})
      case Serve(h) =>
        s'.busy == s.busy && s'.g == s.g.(taken := s.g.taken - {h}, posted := s.g.posted + [h])
      case Interrupt => Released(s.g, s'.g, s.g.posted[0], s.busy, s'.busy)
      case Wake(h) => s'.busy == s.busy && s'.g == Left(s.g, h)
  }

  /** What a move does to the contents. */
  ghost predicate Transferred(s: Snap, m: Move, s': Snap) {
    if m.Serve? && Can(s, m) then
      var q := s.g.live[m.h];
      && s'.platter == (if q.write then s.platter[q.blockno * 2 := Stored(s.data, q.b)] else s.platter)
      && s'.data == (if q.write then s.data else s.data[q.b := Stored(s.platter, q.blockno * 2)])
    else
      && s'.platter == s.platter
      && s'.data == (if m.Change? && Can(s, m) then s.data[m.b := m.x] else s.data)
  }

  method StepBegin(d: Disk, b: nat, write: bool, blockno: nat, ghost t: seq<Event>) returns (ghost t': seq<Event>)
    requires d.Valid() && Faithful(t, d.g)
    modifies d
    ensures d.Valid() && Faithful(t', d.g) && t' == t + Happens(old(Now(d)), Begin(b, write, blockno))
    ensures Moved(old(Now(d)), Begin(b, write, blockno), Now(d))
  {
    hide Tables, Ring, Faithful, Entered, FreeCount, Submitted;
    t' := t;
    ghost var g := d.g;
    OnePhaseAll(d.free, d.desc, d.ops, d.info, d.status, d.busy, g);
    if forall h :: h in d.g.live ==> d.g.live[h].b != b {
      var r := d.Submit(b, write, blockno);
      if r.Some? {
        SubmittedId(g, d.g, r.value, b, write, blockno);
        TellBegan(t, g, r.value, d.g.live[r.value]);
        t' := t + [Began(g.nextId)];
      }
    }
  }

  /** One move, if it can be made. */
  method Step(d: Disk, m: Move, ghost t: seq<Event>) returns (ok: bool, ghost t': seq<Event>)
    requires d.Valid() && Faithful(t, d.g)
    modifies d
    ensures ok && d.Valid() && Faithful(t', d.g) && Sane(Now(d))
    ensures t' == t + Happens(old(Now(d)), m)
    ensures Moved(old(Now(d)), m, Now(d))
  {
    hide Tables, Ring, Faithful, Entered, Virtio.Cleared, Left, FreeCount, Released, Submitted, Sane;
    t', ok := t, true;
    ghost var g := d.g;
    OnePhaseAll(d.free, d.desc, d.ops, d.info, d.status, d.busy, g);
    match m {
      case Change(b, x) =>
        if forall h :: h in d.g.live ==> d.g.live[h].b != b { d.data := d.data[b := x]; }
      case Begin(b, write, blockno) => t' := StepBegin(d, b, write, blockno, t);
      case Fetch =>
        var r := d.Take();
        TellTaken(t, g, d.g);
      case Serve(h) =>
        if h in d.g.taken {
          TellPosted(t, g, h);
          t' := t + [Posted(g.live[h].id)];
          d.Complete(h);
        }
      case Interrupt =>
        var r;
        r, ok := d.IntrOne();
        if r.Some? {
          ReleasedIs(g, d.g, r.value);
          TellCleared(t, g, r.value);
          t' := t + [Cleared(g.live[r.value].id)];
        }
      case Wake(h) =>
        if h in d.g.live && d.g.live[h].b !in d.busy {
          ok := d.Finish(h);
          TellEnded(t, g, h);
          t' := t + [Ended(g.live[h].id)];
        }
    }
    ValidSane(d);
  }

  lemma SubmittedId(g: Book, g': Book, h: nat, b: nat, write: bool, blockno: nat)
    requires h in g'.live && Submitted(g, g', h, b, write, blockno)
    ensures g'.live[h].id == g.nextId && g' == Entered(g, h, g'.live[h])
  {
  }

  lemma ReleasedIs(g: Book, g': Book, h: nat)
    requires exists busy, busy' :: Released(g, g', h, busy, busy')
    ensures h in g.live && g.posted != [] && g.posted[0] == h && g' == Virtio.Cleared(g, h)
  {
  }

  lemma OnePhaseAll(free: seq<bool>, desc: seq<Desc>, ops: seq<Op>, info: seq<Option<nat>>, status: seq<nat>,
                    busy: set<nat>, g: Book)
    requires Tables(free, desc, ops, info, status, busy, g)
    ensures NoRepeat(g.posted)
    ensures forall h :: h in g.taken ==> h in g.live && h !in g.posted && h !in g.finished
    ensures forall h :: h in g.posted ==> h in g.live && h !in g.finished
    ensures forall h :: h !in g.live ==> h !in g.posted && h !in g.finished
  {
    hide Tables;
    forall h: nat ensures h in g.taken ==> h in g.live && h !in g.posted && h !in g.finished
      ensures h in g.posted ==> h in g.live && h !in g.finished
      ensures h !in g.live ==> h !in g.posted && h !in g.finished
    {
      OnePhase(free, desc, ops, info, status, busy, g, h);
    }
    OnePhase(free, desc, ops, info, status, busy, g, 0);
  }

  /** The states passed through by these moves. */
  ghost predicate History(ss: seq<Snap>, moves: seq<Move>) {
    && |ss| == |moves| + 1
    && (forall i :: 0 <= i < |ss| ==> Sane(ss[i]))
    && (forall i :: 0 <= i < |moves| ==> Moved(ss[i], moves[i], ss[i + 1]))
  }

  lemma HistoryMore(ss: seq<Snap>, moves: seq<Move>, m: Move, s: Snap)
    requires History(ss, moves) && Moved(ss[|moves|], m, s) && Sane(s)
    ensures History(ss + [s], moves + [m])
  {
    hide Moved, Sane;
  }

  /** The events of the first n moves, ss[i] being the state before move i. */
  ghost function Trace(ss: seq<Snap>, moves: seq<Move>, n: nat): seq<Event>
    requires n <= |moves| && n <= |ss|
  {
    if n == 0 then [] else Trace(ss, moves, n - 1) + Happens(ss[n - 1], moves[n - 1])
  }

  lemma {:induction false} TraceKept(ss: seq<Snap>, s: Snap, moves: seq<Move>, n: nat)
    requires n <= |moves| && n <= |ss|
    ensures Trace(ss + [s], moves, n) == Trace(ss, moves, n)
  {
    hide Happens;
    if n > 0 { TraceKept(ss, s, moves, n - 1); }
  }

  /** Any run from virtio_disk_init: no panic; each move that can be made takes one request one
      phase on and is one event of the history; no event happens twice, so each request's
      b->disk is cleared at most once, and only after its own completion was posted; and the
      history says of every live request how far it is. */
  method RunAll(moves: seq<Move>) returns (d: Disk, ok: bool, ghost ss: seq<Snap>, ghost t: seq<Event>)
    ensures ok && d.Valid() && Orderly(t) && Faithful(t, d.g)
    ensures History(ss, moves) && ss[|moves|] == Now(d) && ss[0].g == Book(map[], map[], [], {}, [], {}, 0, {})
    ensures t == Trace(ss, moves, |moves|)
  {
    hide Virtio.Tables, Ring, Orderly, Moved, Happens, Faithful, Sane;
    d := new Disk();
    t, ok := [], true;
    NoHistory(d.g);
    ValidSane(d);
    ss := [Now(d)];
    var i := 0;
    while i < |moves|
      invariant 0 <= i <= |moves| && ok && fresh(d) && d.Valid() && Faithful(t, d.g)
      invariant History(ss, moves[..i]) && ss[i] == Now(d) && ss[0].g == Book(map[], map[], [], {}, [], {}, 0, {})
      invariant t == Trace(ss, moves, i)
    {
      ok, t := Step(d, moves[i], t);
      TraceKept(ss, Now(d), moves, i);
      HistoryMore(ss, moves[..i], moves[i], Now(d));
      assert moves[..i + 1] == moves[..i] + [moves[i]];
      ss := ss + [Now(d)];
      i := i + 1;
    }
    assert moves[..i] == moves;
    FaithfulOrderly(t, d.g);
  }

  lemma FaithfulOrderly(t: seq<Event>, g: Book)
    requires Faithful(t, g)
    ensures Orderly(t)
  {
  }

  lemma NoHistory(g: Book)
    requires g.live == map[]
    ensures Faithful([], g)
  {
  }
}
