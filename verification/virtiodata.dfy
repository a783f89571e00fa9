/** What the disk's blocks hold over a run of the driver, and that every request can end. */
module VirtioData {
  import opened Basics
  import opened Virtio
  import opened VirtioRuns

  // ---- a request keeps its number and its buffer ----

  lemma {:induction false} NumbersGrow(ss: seq<Snap>, moves: seq<Move>, i: nat, j: nat)
    requires History(ss, moves) && i <= j <= |moves|
    ensures ss[i].g.nextId <= ss[j].g.nextId
  {
    hide Sane, Can, Transferred;
    if i < j {
      NumbersGrow(ss, moves, i, j - 1);
      assert Moved(ss[j - 1], moves[j - 1], ss[j]);
    }
  }

  /** A live request that is not the one just begun was live before, the same. */
  lemma WasLive(s: Snap, m: Move, s': Snap, h: nat)
    requires Moved(s, m, s') && h in s'.g.live && s'.g.live[h].id < s.g.nextId
    ensures h in s.g.live && s.g.live[h] == s'.g.live[h]
  {
    hide Can, Transferred;
  }

  /** A request that is live at j and had begun by i has been live, the same, ever since i. */
  lemma {:induction false} LiveSince(ss: seq<Snap>, moves: seq<Move>, i: nat, j: nat, h: nat)
    requires History(ss, moves) && i <= j <= |moves| && h in ss[j].g.live && ss[j].g.live[h].id < ss[i].g.nextId
    ensures forall k :: i <= k <= j ==> h in ss[k].g.live && ss[k].g.live[h] == ss[j].g.live[h]
  {
    hide Sane, Moved;
    if i < j {
      NumbersGrow(ss, moves, i, j - 1);
      WasLive(ss[j - 1], moves[j - 1], ss[j], h);
      LiveSince(ss, moves, i, j - 1, h);
    }
  }

  /** The request that a Begin enters. */
  lemma BeganAs(s: Snap, m: Move, s': Snap, h: nat)
    requires Moved(s, m, s') && m.Begin? && Can(s, m) && h in s'.g.live && s'.g.live[h].id == s.g.nextId && Sane(s)
    ensures s'.g.live[h].b == m.b && s'.g.live[h].write == m.write && s'.g.live[h].blockno == m.blockno
    ensures s'.data == s.data && s'.g.nextId == s.g.nextId + 1
  {
    hide Can;
  }

  /** No move but the device's own touches the buffer of a live request, and the device only to read. */
  lemma BufferStep(s: Snap, m: Move, s': Snap, h: nat)
    requires Moved(s, m, s') && Sane(s) && h in s.g.live
    requires s.g.live[h].write || m != Serve(h) || h !in s.g.taken
    ensures Stored(s'.data, s.g.live[h].b) == Stored(s.data, s.g.live[h].b)
  {
  }

  lemma {:induction false} BufferStill(ss: seq<Snap>, moves: seq<Move>, i: nat, j: nat, h: nat, q: Req)
    requires History(ss, moves) && i <= j <= |moves|
    requires forall k :: i <= k <= j ==> h in ss[k].g.live && ss[k].g.live[h] == q
    requires q.write || forall k :: i <= k <= j ==> h !in ss[k].g.taken
    ensures Stored(ss[j].data, q.b) == Stored(ss[i].data, q.b)
  {
    hide Sane, Moved, Stored;
    if i < j {
      BufferStill(ss, moves, i, j - 1, h, q);
      BufferStep(ss[j - 1], moves[j - 1], ss[j], h);
    }
  }

  /** Posted or finished, a request does not go back to the device. */
  lemma {:induction false} StaysPosted(ss: seq<Snap>, moves: seq<Move>, i: nat, j: nat, h: nat)
    requires History(ss, moves) && i <= j <= |moves| && (h in ss[i].g.posted || h in ss[i].g.finished)
    requires forall k :: i <= k <= j ==> h in ss[k].g.live
    ensures h in ss[j].g.posted || h in ss[j].g.finished
  {
    hide Sane, Moved;
    if i < j {
      StaysPosted(ss, moves, i, j - 1, h);
      PostedStep(ss[j - 1], moves[j - 1], ss[j], h);
    }
  }

  lemma PostedStep(s: Snap, m: Move, s': Snap, h: nat)
    requires Moved(s, m, s') && (h in s.g.posted || h in s.g.finished) && h in s'.g.live
    ensures h in s'.g.posted || h in s'.g.finished
  {
    hide Transferred, Can;
    if h in s.g.posted && h !in s.g.finished && s'.g != s.g && m.Interrupt? {
      assert s.g.posted == [s.g.posted[0]] + s.g.posted[1..];
    }
  }

  // ---- what is read and written ----

  /** A write puts on the platter what its buffer held when virtio_disk_rw was called, whatever
      else has happened in between. */
  lemma WriteLands(ss: seq<Snap>, moves: seq<Move>, i: nat, j: nat)
    requires History(ss, moves) && i < j < |moves|
    requires moves[i].Begin? && moves[i].write && Can(ss[i], moves[i])
    requires moves[j].Serve? && Can(ss[j], moves[j]) && ss[j].g.live[moves[j].h].id == ss[i].g.nextId
    ensures ss[j + 1].platter == ss[j].platter[moves[i].blockno * 2 := Stored(ss[i].data, moves[i].b)]
  {
    hide Sane, Moved, Stored;
    var h, q := moves[j].h, ss[j].g.live[moves[j].h];
    NextNumber(ss[i], moves[i], ss[i + 1]);
    LiveSince(ss, moves, i + 1, j, h);
    BeganAs(ss[i], moves[i], ss[i + 1], h);
    BufferStill(ss, moves, i + 1, j, h, q);
    Served(ss[j], moves[j], ss[j + 1]);
  }

  lemma NextNumber(s: Snap, m: Move, s': Snap)
    requires Moved(s, m, s') && m.Begin? && Can(s, m)
    ensures s'.g.nextId == s.g.nextId + 1
  {
    hide Can, Transferred;
  }

  lemma Served(s: Snap, m: Move, s': Snap)
    requires Moved(s, m, s') && m.Serve? && Can(s, m)
    ensures var q := s.g.live[m.h];
            && s'.platter == (if q.write then s.platter[q.blockno * 2 := Stored(s.data, q.b)] else s.platter)
            && s'.data == (if q.write then s.data else s.data[q.b := Stored(s.platter, q.blockno * 2)])
            && m.h in s'.g.posted && m.h in s'.g.live && s'.g.live[m.h] == q
  {
    hide Stored;
  }

  /** When a process that reads goes on, its buffer holds what the platter had when the device
      served the request. */
  lemma ReadArrives(ss: seq<Snap>, moves: seq<Move>, j: nat, k: nat)
    requires History(ss, moves) && j < k < |moves|
    requires moves[j].Serve? && Can(ss[j], moves[j]) && !ss[j].g.live[moves[j].h].write
    requires moves[k] == Wake(moves[j].h) && Can(ss[k], moves[k])
    requires ss[k].g.live[moves[j].h].id == ss[j].g.live[moves[j].h].id
    ensures var q := ss[j].g.live[moves[j].h];
            Stored(ss[k].data, q.b) == Stored(ss[j].platter, q.blockno * 2)
  {
    hide Sane, Moved;
    var h, q := moves[j].h, ss[j].g.live[moves[j].h];
    Served(ss[j], moves[j], ss[j + 1]);
    Numbered(ss[j], h);
    LiveSince(ss, moves, j, k, h);
    forall m | j + 1 <= m <= k ensures h !in ss[m].g.taken {
      StaysPosted(ss, moves, j + 1, m, h);
      NotTaken(ss[m], h);
    }
    BufferStill(ss, moves, j + 1, k, h, q);
  }

  lemma Numbered(s: Snap, h: nat)
    requires Sane(s) && h in s.g.live
    ensures s.g.live[h].id < s.g.nextId
  {
  }

  lemma NotTaken(s: Snap, h: nat)
    requires Sane(s) && (h in s.g.posted || h in s.g.finished)
    ensures h !in s.g.taken
  {
  }

  /** The move writes sector x. */
  ghost predicate Writes(s: Snap, m: Move, x: nat) {
    m.Serve? && Can(s, m) && s.g.live[m.h].write && s.g.live[m.h].blockno * 2 == x
  }

  lemma {:induction false} PlatterStill(ss: seq<Snap>, moves: seq<Move>, x: nat, i: nat, j: nat)
    requires History(ss, moves) && i <= j <= |moves| && forall k :: i <= k < j ==> !Writes(ss[k], moves[k], x)
    ensures Stored(ss[j].platter, x) == Stored(ss[i].platter, x)
  {
    hide Sane, Can;
    if i < j {
      PlatterStill(ss, moves, x, i, j - 1);
      assert Moved(ss[j - 1], moves[j - 1], ss[j]) && !Writes(ss[j - 1], moves[j - 1], x);
    }
  }

  /** The disk's contents over any run: a block holds what the buffer of the last write served
      for it held when that write was asked for. */
  lemma LastWrite(ss: seq<Snap>, moves: seq<Move>, i: nat, j: nat, n: nat)
    requires History(ss, moves) && i < j < n <= |moves|
    requires moves[i].Begin? && moves[i].write && Can(ss[i], moves[i])
    requires moves[j].Serve? && Can(ss[j], moves[j]) && ss[j].g.live[moves[j].h].id == ss[i].g.nextId
    requires forall k :: j < k < n ==> !Writes(ss[k], moves[k], moves[i].blockno * 2)
    ensures Stored(ss[n].platter, moves[i].blockno * 2) == Stored(ss[i].data, moves[i].b)
  {
    hide Sane, Can, Moved, Writes;
    WriteLands(ss, moves, i, j);
    PlatterStill(ss, moves, moves[i].blockno * 2, j + 1, n);
  }

  // ---- every request can end ----

  /** From any state of the driver a live request can be brought to its end, by moves of the
      device, the interrupt handler and the process itself. */
  method BringToEnd(d: Disk, h: nat, ghost t: seq<Event>)
    returns (moves: seq<Move>, ghost ss: seq<Snap>, ghost t': seq<Event>)
    requires d.Valid() && Faithful(t, d.g) && h in d.g.live
    modifies d
    ensures d.Valid() && Faithful(t', d.g) && h !in d.g.live
    ensures History(ss, moves) && ss[0] == old(Now(d)) && ss[|moves|] == Now(d)
    ensures t <= t' && Ended(old(d.g.live[h].id)) in t'
    ensures forall m :: m in moves ==> m.Fetch? || m.Interrupt? || m == Serve(h) || m == Wake(h)
  {
    hide Tables, Ring, Faithful, Sane, Moved, History;
    ghost var q := d.g.live[h];
    ValidSane(d);
    moves, ss, t' := [], [Now(d)], t;
    HistoryStart(Now(d));
    while h in d.g.queued
      invariant d.Valid() && Faithful(t', d.g) && t <= t' && h in d.g.live && d.g.live[h] == q && Sane(Now(d))
      invariant History(ss, moves) && |ss| == |moves| + 1 && ss[0] == old(Now(d)) && ss[|moves|] == Now(d)
      invariant forall m :: m in moves ==> m.Fetch?
      decreases |d.g.queued|
    {
      ghost var s := Now(d);
      var ok;
      ok, t' := Step(d, Fetch, t');
      Fetched(s, Now(d), h);
      HistoryMore(ss, moves, Fetch, Now(d));
      moves, ss := moves + [Fetch], ss + [Now(d)];
    }
    SomePhase(Now(d), h);
    if h in d.g.taken {
      ghost var s := Now(d);
      var ok;
      ok, t' := Step(d, Serve(h), t');
      CanServe(s, h);
      Served(s, Serve(h), Now(d));
      HistoryMore(ss, moves, Serve(h), Now(d));
      moves, ss := moves + [Serve(h)], ss + [Now(d)];
    }
    while h in d.g.posted
      invariant d.Valid() && Faithful(t', d.g) && t <= t' && h in d.g.live && d.g.live[h] == q && Sane(Now(d))
      invariant h in d.g.posted || h in d.g.finished
      invariant History(ss, moves) && |ss| == |moves| + 1 && ss[0] == old(Now(d)) && ss[|moves|] == Now(d)
      invariant forall m :: m in moves ==> m.Fetch? || m.Interrupt? || m == Serve(h)
      decreases |d.g.posted|
    {
      ghost var s := Now(d);
      var ok;
      ok, t' := Step(d, Interrupt, t');
      Interrupted(s, Now(d), h);
      HistoryMore(ss, moves, Interrupt, Now(d));
      moves, ss := moves + [Interrupt], ss + [Now(d)];
    }
    ghost var s := Now(d);
    var ok;
    ok, t' := Step(d, Wake(h), t');
    Woken(s, Now(d), h);
    HistoryMore(ss, moves, Wake(h), Now(d));
    moves, ss := moves + [Wake(h)], ss + [Now(d)];
  }

  lemma HistoryStart(s: Snap)
    requires Sane(s)
    ensures History([s], [])
  {
  }

  lemma SomePhase(s: Snap, h: nat)
    requires Sane(s) && h in s.g.live
    ensures h in s.g.queued || h in s.g.taken || h in s.g.posted || h in s.g.finished
  {
  }

  lemma Fetched(s: Snap, s': Snap, h: nat)
    requires Moved(s, Fetch, s') && Sane(s) && h in s.g.queued
    ensures h in s.g.live && h in s'.g.live && s'.g.live[h] == s.g.live[h] && |s'.g.queued| < |s.g.queued|
  {
  }

  lemma CanServe(s: Snap, h: nat)
    requires Sane(s) && h in s.g.taken
    ensures Can(s, Serve(h))
  {
  }

  lemma Interrupted(s: Snap, s': Snap, h: nat)
    requires Moved(s, Interrupt, s') && Sane(s) && h in s.g.posted
    ensures h in s.g.live && h in s'.g.live && s'.g.live[h] == s.g.live[h] && |s'.g.posted| < |s.g.posted|
    ensures h in s'.g.posted || h in s'.g.finished
  {
    assert s.g.posted == [s.g.posted[0]] + s.g.posted[1..];
  }

  lemma Woken(s: Snap, s': Snap, h: nat)
    requires Moved(s, Wake(h), s') && Sane(s) && h in s.g.finished
    ensures h in s.g.live && h !in s'.g.live && Happens(s, Wake(h)) == [Ended(s.g.live[h].id)]
  {
  }
}
