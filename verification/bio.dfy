/** The buffer cache: NBUF buffers on a doubly linked list through a head
    sentinel, most recently released first. */
module Bio {
  import opened Basics
  import opened Wal

  const HEAD: nat := NBUF     // index of bcache.head

  datatype Buf = Buf(valid: bool, dev: nat, blockno: int, refcnt: int, locked: bool, data: Block)

  // ---- the list, as pointer arrays ----

  /** next and prev link exactly the elements of r, in order, into one cycle. */
  ghost predicate Ring(r: seq<nat>, next: seq<nat>, prev: seq<nat>) {
    && |next| == |prev| == NBUF + 1
    && |r| >= 1 && r[0] == HEAD && NoRepeat(r)
    && (forall i :: 0 <= i < |r| ==> r[i] <= NBUF)
    && (forall i :: 0 <= i < |r| - 1 ==> next[r[i]] == r[i + 1])
    && (forall i :: 1 <= i < |r| ==> prev[r[i]] == r[i - 1])
    && next[r[|r| - 1]] == HEAD && prev[HEAD] == r[|r| - 1]
  }

  function Without(r: seq<nat>, i: nat): seq<nat>
    requires i < |r|
  {
    r[..i] + r[i + 1..]
  }

  function InFront(r: seq<nat>, b: nat): seq<nat>
    requires |r| >= 1
  {
    [r[0], b] + r[1..]
  }

  /** b->next->prev = b->prev; b->prev->next = b->next; */
  lemma Unlink(r: seq<nat>, next: seq<nat>, prev: seq<nat>, i: nat)
    requires Ring(r, next, prev) && 1 <= i < |r|
    ensures var b := r[i];
            |next| == |prev| == NBUF + 1 && next[b] <= NBUF && prev[b] <= NBUF
            && Ring(Without(r, i), next[prev[b] := next[b]], prev[next[b] := prev[b]])
            && b !in Without(r, i)
  {
    var b, r' := r[i], Without(r, i);
    assert prev[b] == r[i - 1];
    assert next[b] == if i + 1 < |r| then r[i + 1] else HEAD;
    var next', prev' := next[prev[b] := next[b]], prev[next[b] := prev[b]];
    forall j | 0 <= j < |r'| - 1 ensures next'[r'[j]] == r'[j + 1] {
      if j != i - 1 { assert r'[j] != r[i - 1]; }
    }
    forall j | 1 <= j < |r'| ensures prev'[r'[j]] == r'[j - 1] {
      if j != i { assert i + 1 < |r| ==> r'[j] != r[i + 1]; }
    }
  }

  /** b->next = head.next; b->prev = &head; head.next->prev = b; head.next = b; */
  lemma LinkFront(r: seq<nat>, next: seq<nat>, prev: seq<nat>, b: nat)
    requires Ring(r, next, prev) && b < NBUF && b !in r
    ensures var next1 := next[b := next[HEAD]];
            var prev1 := prev[b := HEAD];
            next1[HEAD] <= NBUF
            && Ring(InFront(r, b), next1[HEAD := b], prev1[next1[HEAD] := b])
  {
    var r' := InFront(r, b);
    var next1, prev1 := next[b := next[HEAD]], prev[b := HEAD];
    assert next[HEAD] == if |r| > 1 then r[1] else HEAD;
    var next', prev' := next1[HEAD := b], prev1[next1[HEAD] := b];
    forall j | 0 <= j < |r'| - 1 ensures next'[r'[j]] == r'[j + 1] {
      if j >= 2 { assert r'[j] == r[j - 1] && r'[j + 1] == r[j]; }
    }
    forall j | 1 <= j < |r'| ensures prev'[r'[j]] == r'[j - 1] {
      if j >= 2 { assert r'[j] == r[j - 1]; }
      if j >= 3 { assert r'[j - 1] == r[j - 2]; }
    }
  }

  /** brelse's six pointer updates move b to the front and touch nothing else of the order. */
  method Relink(next: seq<nat>, prev: seq<nat>, b: nat, ghost r: seq<nat>, ghost at: nat)
    returns (nx: seq<nat>, pv: seq<nat>)
    requires Ring(r, next, prev) && 1 <= at < |r| && r[at] == b && b < NBUF
    ensures Ring(InFront(Without(r, at), b), nx, pv) && nx[HEAD] == b
  {
    Unlink(r, next, prev, at);
    nx, pv := next, prev;
    pv := pv[nx[b] := pv[b]];
    nx := nx[pv[b] := nx[b]];
    LinkFront(Without(r, at), nx, pv, b);
    nx := nx[b := nx[HEAD]];
    pv := pv[b := HEAD];
    pv := pv[nx[HEAD] := b];
    nx := nx[HEAD := b];
  }

  // ---- what the cache guarantees ----

  /** The list holds every buffer once, most recently released first. */
  ghost predicate Recency(r: seq<nat>, stamp: seq<nat>, clock: nat) {
    && |r| == NBUF + 1 && |stamp| == NBUF
    && (forall b :: 0 <= b <= NBUF ==> b in r)
    && (forall i :: 1 <= i < |r| ==> r[i] < NBUF)
    && (forall i, j :: 1 <= i < j < |r| ==> stamp[r[i]] > stamp[r[j]])
    && (forall b :: 0 <= b < NBUF ==> stamp[b] < clock)
  }

  /** No block of a real device is in two buffers. */
  ghost predicate Unique(bufs: seq<Buf>) {
    forall i, j :: 0 <= i < j < |bufs| && bufs[i].dev != 0 ==>
      !(bufs[i].dev == bufs[j].dev && bufs[i].blockno == bufs[j].blockno)
  }

  predicate Is(b: Buf, dev: nat, blockno: int) { b.dev == dev && b.blockno == blockno }

  ghost predicate Absent(bufs: seq<Buf>, dev: nat, blockno: int) {
    forall k :: 0 <= k < |bufs| ==> !Is(bufs[k], dev, blockno)
  }

  ghost predicate AllInUse(bufs: seq<Buf>) {
    forall k :: 0 <= k < |bufs| ==> bufs[k].refcnt != 0
  }

  /** i is the unreferenced buffer that was released longest ago. */
  ghost predicate Oldest(bufs: seq<Buf>, stamp: seq<nat>, i: nat)
    requires |bufs| == |stamp| && i < |bufs|
  {
    && bufs[i].refcnt == 0
    && forall k :: 0 <= k < |bufs| && bufs[k].refcnt == 0 ==> stamp[i] <= stamp[k]
  }

  /** bget's effect: a hit adds a reference; a miss recycles the oldest
      unreferenced buffer; a miss with every buffer in use is the panic. */
  ghost predicate Got(was: seq<Buf>, now: seq<Buf>, stamp: seq<nat>, dev: nat, blockno: int, r: Option<nat>) {
    && |was| == |now| == |stamp|
    && match r
       case None => now == was && Absent(was, dev, blockno) && AllInUse(was)
       case Some(i) =>
         && i < |was| && now == was[i := now[i]]
         && if Is(was[i], dev, blockno) then now[i] == was[i].(refcnt := was[i].refcnt + 1)
            else Absent(was, dev, blockno) && Oldest(was, stamp, i)
                 && now[i] == was[i].(dev := dev, blockno := blockno, valid := false, refcnt := 1)
  }

  /** bread's effect: as bget, and the buffer is locked and loaded. */
  ghost predicate ReadIn(was: seq<Buf>, now: seq<Buf>, stamp: seq<nat>, disk: Disk, dev: nat, blockno: int,
                         r: Option<nat>)
    requires 0 <= blockno < |disk|
  {
    && |was| == |now| == |stamp|
    && match r
       case None => now == was && Absent(was, dev, blockno) && AllInUse(was)
       case Some(i) =>
         && i < |was| && now == was[i := now[i]]
         && if Is(was[i], dev, blockno) then
              now[i] == was[i].(refcnt := was[i].refcnt + 1, locked := true, valid := true,
                                data := if was[i].valid then was[i].data else disk[blockno])
            else
              && Absent(was, dev, blockno) && Oldest(was, stamp, i)
              && now[i] == Buf(true, dev, blockno, 1, true, disk[blockno])
  }

  lemma GotUnique(was: seq<Buf>, now: seq<Buf>, stamp: seq<nat>, dev: nat, blockno: int, r: Option<nat>)
    requires Unique(was) && Got(was, now, stamp, dev, blockno, r)
    ensures Unique(now)
  {
  }

  class Cache {
    var bufs: seq<Buf>
    var next: seq<nat>
    var prev: seq<nat>
    var disk: Disk

    ghost var ring: seq<nat>       // HEAD, then the buffers from most to least recent
    ghost var stamp: seq<nat>      // when brelse last dropped the buffer's count to zero
    ghost var clock: nat
    ghost var trace: seq<Disk>     // the disk after each write

    ghost predicate Valid()
      reads this
    {
      && |bufs| == NBUF && Unique(bufs)
      && Ring(ring, next, prev) && Recency(ring, stamp, clock)
    }

    /** binit. */
    constructor (d: Disk)
      ensures Valid() && disk == d && trace == []
      ensures forall b :: 0 <= b < NBUF ==> bufs[b].refcnt == 0 && bufs[b].dev == 0 && !bufs[b].locked
    {
      var zero: Block := seq(BWORDS, _ => 0);
      var nx: seq<nat>, pv: seq<nat> := seq(NBUF + 1, _ => HEAD), seq(NBUF + 1, _ => HEAD);
      ghost var r: seq<nat> := [HEAD];
      var b := 0;
      while b < NBUF
        invariant 0 <= b <= NBUF
        invariant Ring(r, nx, pv) && |r| == b + 1
        invariant forall i :: 1 <= i <= b ==> r[i] == b - i
      {
        LinkFront(r, nx, pv, b);
        nx := nx[b := nx[HEAD]];
        pv := pv[b := HEAD];
        pv := pv[nx[HEAD] := b];
        nx := nx[HEAD := b];
        r := InFront(r, b);
        b := b + 1;
      }
      Initial(r);
      bufs := seq(NBUF, _ => Buf(false, 0, 0, 0, false, zero));
      next, prev, disk := nx, pv, d;
      ring, stamp, clock, trace := r, seq(NBUF, i => i), NBUF, [];
    }

    /** The locked section of bget. */
    method Bget(dev: nat, blockno: int) returns (r: Option<nat>)
      requires Valid()
      modifies this`bufs
      ensures Valid() && Got(old(bufs), bufs, stamp, dev, blockno, r)
    {
      var b := next[HEAD];
      ghost var i := 1;
      while b != HEAD
        invariant 1 <= i <= |ring| && b == (if i < |ring| then ring[i] else HEAD)
        invariant forall j :: 1 <= j < i ==> !Is(bufs[ring[j]], dev, blockno)
        decreases |ring| - i
      {
        if bufs[b].dev == dev && bufs[b].blockno == blockno {
          bufs := bufs[b := bufs[b].(refcnt := bufs[b].refcnt + 1)];
          GotUnique(old(bufs), bufs, stamp, dev, blockno, Some(b));
          return Some(b);
        }
        b := next[b];
        i := i + 1;
      }
      assert i == |ring|;
      forall k | 0 <= k < NBUF ensures !Is(bufs[k], dev, blockno) { var j := WhereIs(ring, k); }
      b := Recycle();
      if b == HEAD { return None; }
      bufs := bufs[b := bufs[b].(dev := dev, blockno := blockno, valid := false, refcnt := 1)];
      GotUnique(old(bufs), bufs, stamp, dev, blockno, Some(b));
      return Some(b);
    }

    /** bget's second loop: from the least recent end to an unreferenced buffer. */
    method Recycle() returns (b: nat)
      requires Valid()
      ensures b == HEAD ==> AllInUse(bufs)
      ensures b != HEAD ==> b < NBUF && Oldest(bufs, stamp, b)
    {
      b := prev[HEAD];
      ghost var i := |ring| - 1;
      while b != HEAD
        invariant 0 <= i < |ring| && b == ring[i]
        invariant forall j :: i < j < |ring| ==> bufs[ring[j]].refcnt != 0
        decreases i
      {
        assert i >= 1;
        if bufs[b].refcnt == 0 {
          forall k | 0 <= k < NBUF && bufs[k].refcnt == 0 ensures stamp[b] <= stamp[k] {
            var j := WhereIs(ring, k);
          }
          return;
        }
        b := prev[b];
        i := i - 1;
      }
      assert i == 0;
      forall k | 0 <= k < NBUF ensures bufs[k].refcnt != 0 { var j := WhereIs(ring, k); }
    }

    /** bread, once nobody else holds the buffer's lock. */
    method Bread(dev: nat, blockno: int) returns (r: Option<nat>)
      requires Valid() && 0 <= blockno < |disk|
      requires forall k :: 0 <= k < NBUF && (Is(bufs[k], dev, blockno) || bufs[k].refcnt == 0) ==> !bufs[k].locked
      modifies this`bufs
      ensures Valid() && ReadIn(old(bufs), bufs, stamp, disk, dev, blockno, r)
    {
      r := Bget(dev, blockno);
      if r.Some? {
        var i := r.value;
        bufs := bufs[i := bufs[i].(locked := true)];
        if !bufs[i].valid {
          bufs := bufs[i := bufs[i].(data := disk[blockno], valid := true)];
        }
      }
    }

    /** The holder of a buffer changes its data. */
    method SetData(i: nat, x: Block)
      requires Valid() && i < NBUF && bufs[i].locked
      modifies this`bufs
      ensures Valid() && bufs == old(bufs)[i := old(bufs[i]).(data := x)]
    {
      bufs := bufs[i := bufs[i].(data := x)];
    }

    /** bwrite: one synchronous disk write. */
    method Bwrite(i: nat)
      requires Valid() && i < NBUF && bufs[i].locked && 0 <= bufs[i].blockno < |disk|
      modifies this`disk, this`trace
      ensures Valid() && disk == old(disk)[bufs[i].blockno := bufs[i].data]
      ensures trace == old(trace) + [disk]
    {
      disk := disk[bufs[i].blockno := bufs[i].data];
      trace := trace + [disk];
    }

    /** brelse: dropping the last reference moves the buffer to the front. */
    method Brelse(i: nat)
      requires Valid() && i < NBUF && bufs[i].locked
      modifies this`bufs, this`next, this`prev, this`ring, this`stamp, this`clock
      ensures Valid()
      ensures bufs == old(bufs)[i := old(bufs[i]).(refcnt := old(bufs[i]).refcnt - 1, locked := false)]
      ensures if bufs[i].refcnt == 0 then next[HEAD] == i && stamp == old(stamp)[i := old(clock)]
                                          && clock == old(clock) + 1
              else ring == old(ring) && stamp == old(stamp) && clock == old(clock)
    {
      bufs := bufs[i := bufs[i].(locked := false, refcnt := bufs[i].refcnt - 1)];
      if bufs[i].refcnt == 0 {
        MoveToFront(i);
      }
    }

    method MoveToFront(i: nat)
      requires Valid() && i < NBUF
      modifies this`next, this`prev, this`ring, this`stamp, this`clock
      ensures Valid() && next[HEAD] == i
      ensures stamp == old(stamp)[i := old(clock)] && clock == old(clock) + 1
    {
      hide Ring, Recency, Unique, InFront;
      Placed(ring, next, prev, stamp, clock, i);
      ghost var at := WhereIs(ring, i);
      Fresher(ring, stamp, clock, at);
      next, prev := Relink(next, prev, i, ring, at);
      ring, stamp, clock := InFront(Without(ring, at), i), stamp[i := clock], clock + 1;
    }

    method Bpin(i: nat)
      requires Valid() && i < NBUF
      modifies this`bufs
      ensures Valid() && bufs == old(bufs)[i := old(bufs[i]).(refcnt := old(bufs[i]).refcnt + 1)]
    {
      bufs := bufs[i := bufs[i].(refcnt := bufs[i].refcnt + 1)];
    }

    method Bunpin(i: nat)
      requires Valid() && i < NBUF
      modifies this`bufs
      ensures Valid() && bufs == old(bufs)[i := old(bufs[i]).(refcnt := old(bufs[i]).refcnt - 1)]
    {
      bufs := bufs[i := bufs[i].(refcnt := bufs[i].refcnt - 1)];
    }
  }

  lemma Placed(r: seq<nat>, next: seq<nat>, prev: seq<nat>, stamp: seq<nat>, clock: nat, b: nat)
    requires Ring(r, next, prev) && Recency(r, stamp, clock) && b < NBUF
    ensures b in r && |r| >= 1 && r[0] != b && |stamp| == NBUF && |next| == NBUF + 1
  {
  }

  lemma WhereIs(r: seq<nat>, b: nat) returns (at: nat)
    requires b in r && |r| >= 1 && r[0] != b
    ensures 1 <= at < |r| && r[at] == b
  {
    at :| 0 <= at < |r| && r[at] == b;
  }

  lemma Initial(r: seq<nat>)
    requires |r| == NBUF + 1 && r[0] == HEAD
    requires forall i :: 1 <= i <= NBUF ==> r[i] == NBUF - i
    ensures Recency(r, seq(NBUF, i => i), NBUF)
  {
    forall b | 0 <= b <= NBUF ensures b in r { assert r[NBUF - b] == b; }
  }

  lemma Fresher(r: seq<nat>, stamp: seq<nat>, clock: nat, at: nat)
    requires Recency(r, stamp, clock) && 1 <= at < |r|
    ensures Recency(InFront(Without(r, at), r[at]), stamp[r[at] := clock], clock + 1)
  {
    FrontOf(r, at);
  }

  /** Moving one element to the front keeps the others, in order. */
  lemma FrontOf(r: seq<nat>, at: nat)
    requires 1 <= at < |r|
    ensures var f := InFront(Without(r, at), r[at]);
            && |f| == |r| && f[0] == r[0] && f[1] == r[at]
            && (forall j :: 2 <= j < |f| ==> f[j] == if j <= at then r[j - 1] else r[j])
            && (forall x :: x in f <==> x in r)
  {
    var f := InFront(Without(r, at), r[at]);
    forall x ensures x in f <==> x in r {
      if x in r {
        var k :| 0 <= k < |r| && r[k] == x;
        assert x == f[if k == 0 then 0 else if k == at then 1 else if k < at then k + 1 else k];
      }
    }
  }
}
